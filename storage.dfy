/**
 * The `twofaccounts` table as the storage engine holds it: an object whose declared columns
 * and rows the migration's DDL calls and updates change in place.
 */
module Storage {
  import opened Wrappers
  import opened Schema
  import opened Record

  class TwofaccountsTable {
    var columns: map<string, Column>
    var rows: map<int, Row>

    /** The table's current value. */
    function State(): Table
      reads this
    {
      Table(columns, rows)
    }

    /** Every row holds a cell for exactly the declared columns. */
    ghost predicate Valid()
      reads this
    {
      forall id :: id in rows ==> rows[id].Keys == columns.Keys
    }

    constructor (t: Table)
      requires WellFormed(t)
      ensures Valid() && State() == t
    {
      columns := t.columns;
      rows := t.rows;
    }

    /** One schema block adding the columns of `defs`. */
    method AddColumns(defs: map<string, Column>)
      requires Valid() && defs.Keys !! columns.Keys
      modifies this
      ensures Valid() && State() == Schema.AddColumns(old(State()), defs)
    {
      rows := map id | id in rows :: NullCells(rows[id], defs.Keys);
      columns := columns + defs;
    }

    /** One schema block changing the declaration of column `name`. */
    method ChangeColumn(name: string, kind: string, nullable: Option<bool>)
      requires Valid() && name in columns
      modifies this
      ensures Valid() && State() == Schema.ChangeColumn(old(State()), name, kind, nullable)
    {
      var keep := match nullable case Some(b) => b case None => columns[name].nullable;
      columns := columns[name := Column(kind, keep)];
    }

    /** One schema block renaming column `from` to `to`. */
    method RenameColumn(from: string, to: string)
      requires Valid() && from in columns && to !in columns
      modifies this
      ensures Valid() && State() == Schema.RenameColumn(old(State()), from, to)
    {
      rows := map id | id in rows :: Rename(rows[id], from, to);
      columns := Rename(columns, from, to);
    }

    /** One schema block dropping column `name`. */
    method DropColumn(name: string)
      requires Valid() && name in columns
      modifies this
      ensures Valid() && State() == Schema.DropColumn(old(State()), name)
    {
      rows := map id | id in rows :: rows[id] - {name};
      columns := columns - {name};
    }

    /**
     * `select('id', 'legacy_uri')->get()`: the id and legacy cell of every row, in `order`,
     * the order in which the storage engine returns the rows.
     */
    method SelectLegacyUris(order: seq<int>) returns (selected: seq<(int, Cell)>)
      requires Valid() && LEGACY_URI in columns && IsListing(order, rows.Keys)
      ensures |selected| == |order|
      ensures forall k :: 0 <= k < |order| ==> order[k] in rows && LEGACY_URI in rows[order[k]]
      ensures forall k :: 0 <= k < |order| ==> selected[k] == (order[k], rows[order[k]][LEGACY_URI])
    {
      var current := rows;
      assert forall id :: id in rows ==> rows[id].Keys == columns.Keys;
      forall k | 0 <= k < |order| ensures order[k] in current && LEGACY_URI in current[order[k]] {
        assert rows[order[k]].Keys == columns.Keys;
      }
      selected := seq(|order|, k requires 0 <= k < |order| && order[k] in current && LEGACY_URI in current[order[k]] =>
        (order[k], current[order[k]][LEGACY_URI]));
    }

    /**
     * `where('id', id)->update(fields)`: the row with that id gets the given cells; every other
     * row, and every other cell of that row, is unchanged. No row matches an unknown id.
     */
    method Update(id: int, fields: Row)
      requires Valid() && fields.Keys <= columns.Keys
      modifies this
      ensures Valid() && columns == old(columns)
      ensures rows == if id in old(rows) then old(rows)[id := old(rows)[id] + fields] else old(rows)
    {
      if id in rows {
        UnionOfSubset(rows[id].Keys, fields.Keys);
        rows := rows[id := rows[id] + fields];
      }
    }
  }
}
