/**
 * The `twofaccounts` table as a value: its declared columns and its rows, and the
 * storage engine's DDL primitives (add, change, rename and drop a column) as functions
 * on that value.
 */
module Schema {
  import opened Wrappers

  /** A non-null value held in a cell. */
  datatype Value = Text(s: string) | Int(i: int)

  /** A cell; None is SQL NULL. */
  type Cell = Option<Value>

  /** A row maps each column name to its cell. */
  type Row = map<string, Cell>

  /** A column declaration: its Laravel column type name and whether it accepts NULL. */
  datatype Column = Column(kind: string, nullable: bool)

  /** The table: declared columns and rows keyed by `id`. */
  datatype Table = Table(columns: map<string, Column>, rows: map<int, Row>)

  /** Every row holds a cell for exactly the declared columns. */
  ghost predicate WellFormed(t: Table) {
    forall id :: id in t.rows ==> t.rows[id].Keys == t.columns.Keys
  }

  /** No element occurs twice in `s`. */
  predicate Distinct<K(==)>(s: seq<K>) {
    forall i, j :: 0 <= i < j < |s| ==> s[i] != s[j]
  }

  /** The prefix of `s` one longer ends in the next element. */
  lemma TakeOneMore<K>(s: seq<K>, i: int)
    requires 0 <= i < |s|
    ensures s[..i + 1] == s[..i] + [s[i]]
  {
  }

  /** The prefix of `s` as long as `s` is `s`. */
  lemma TakeAll<K>(s: seq<K>)
    ensures s[..|s|] == s
  {
  }

  /** In a sequence without repetitions, no element occurs before its own position. */
  lemma DistinctNotBefore<K>(s: seq<K>, i: int)
    requires Distinct(s) && 0 <= i < |s|
    ensures s[i] !in s[..i]
  {
    forall j | 0 <= j < i ensures s[..i][j] != s[i] {
      assert s[..i][j] == s[j];
    }
  }

  /** `order` lists every element of `keys` exactly once, and nothing else. */
  predicate IsListing<K(==)>(order: seq<K>, keys: set<K>) {
    && Distinct(order)
    && (forall i :: 0 <= i < |order| ==> order[i] in keys)
    && (forall k :: k in keys ==> k in order)
  }

  /** The cells of column `name`, keyed by row id. */
  function ColumnCells(rows: map<int, Row>, name: string): (r: map<int, Cell>)
    requires forall id :: id in rows ==> name in rows[id]
    ensures r.Keys == rows.Keys
    ensures forall id :: id in rows ==> r[id] == rows[id][name]
  {
    map id | id in rows :: rows[id][name]
  }

  /** Two maps with the same keys and the same value at every key are equal. */
  lemma SameMap<K, V>(a: map<K, V>, b: map<K, V>)
    requires a.Keys == b.Keys
    requires forall k :: k in a ==> a[k] == b[k]
    ensures a == b
  {
  }

  /** Adding keys a set already holds leaves it as it is. */
  lemma UnionOfSubset<K>(a: set<K>, b: set<K>)
    requires b <= a
    ensures a + b == a
  {
  }

  /** Removing six keys one by one is removing the set of them. */
  lemma RemoveEach<K, V>(m: map<K, V>, k1: K, k2: K, k3: K, k4: K, k5: K, k6: K)
    ensures m - {k1} - {k2} - {k3} - {k4} - {k5} - {k6} == m - {k1, k2, k3, k4, k5, k6}
  {
    var r := m - {k1} - {k2} - {k3} - {k4} - {k5} - {k6};
    var s := m - {k1, k2, k3, k4, k5, k6};
    assert r.Keys == s.Keys;
    SameMap(r, s);
  }

  /** `m` with key `from` renamed to `to`, the value kept. */
  function Rename<V>(m: map<string, V>, from: string, to: string): (r: map<string, V>)
    requires from in m && to !in m
    ensures r.Keys == m.Keys - {from} + {to}
    ensures r[to] == m[from]
    ensures forall k :: k in m && k != from ==> r[k] == m[k]
  {
    (m - {from})[to := m[from]]
  }

  /** `row` with a NULL cell for each of `names`; its other cells are kept. */
  function NullCells(row: Row, names: set<string>): (r: Row)
    ensures r.Keys == row.Keys + names
    ensures forall c :: c in names ==> r[c] == None
    ensures forall c :: c in row && c !in names ==> r[c] == row[c]
  {
    row + map c | c in names :: None
  }

  /**
   * One schema block declaring several new columns at once (`defs` maps each name to its
   * declaration); every row holds NULL in each of them.
   */
  function AddColumns(t: Table, defs: map<string, Column>): (r: Table)
    requires WellFormed(t) && defs.Keys !! t.columns.Keys
    ensures WellFormed(r)
    ensures r.columns.Keys == t.columns.Keys + defs.Keys
    ensures forall c :: c in defs ==> r.columns[c] == defs[c]
    ensures forall c :: c in t.columns ==> r.columns[c] == t.columns[c]
    ensures r.rows.Keys == t.rows.Keys
    ensures forall id :: id in t.rows ==> r.rows[id] == NullCells(t.rows[id], defs.Keys)
  {
    Table(t.columns + defs, map id | id in t.rows :: NullCells(t.rows[id], defs.Keys))
  }

  /**
   * `$table->kind(name)...->change()`: redeclares an existing column with a new type and,
   * when `nullable` is given, a new nullability; without it the nullability is kept.
   * Cells are not touched and NOT NULL is not enforced on cells that already hold NULL.
   */
  function ChangeColumn(t: Table, name: string, kind: string, nullable: Option<bool>): (r: Table)
    requires WellFormed(t) && name in t.columns
    ensures WellFormed(r)
    ensures r.rows == t.rows
    ensures r.columns.Keys == t.columns.Keys
    ensures r.columns[name].kind == kind
    ensures nullable.Some? ==> r.columns[name].nullable == nullable.value
    ensures nullable.None? ==> r.columns[name].nullable == t.columns[name].nullable
    ensures forall c :: c in t.columns && c != name ==> r.columns[c] == t.columns[c]
  {
    var keep := match nullable case Some(b) => b case None => t.columns[name].nullable;
    Table(t.columns[name := Column(kind, keep)], t.rows)
  }

  /** `$table->renameColumn(from, to)`: the declaration and every cell move to the new name. */
  function RenameColumn(t: Table, from: string, to: string): (r: Table)
    requires WellFormed(t) && from in t.columns && to !in t.columns
    ensures WellFormed(r)
    ensures r.columns.Keys == t.columns.Keys - {from} + {to}
    ensures r.columns[to] == t.columns[from]
    ensures forall c :: c in t.columns && c != from ==> r.columns[c] == t.columns[c]
    ensures r.rows.Keys == t.rows.Keys
    ensures forall id :: id in t.rows ==> r.rows[id] == Rename(t.rows[id], from, to)
  {
    Table(Rename(t.columns, from, to),
          map id | id in t.rows :: Rename(t.rows[id], from, to))
  }

  /** `$table->dropColumn(name)`: the declaration and every cell of the column are removed. */
  function DropColumn(t: Table, name: string): (r: Table)
    requires WellFormed(t) && name in t.columns
    ensures WellFormed(r)
    ensures r.columns.Keys == t.columns.Keys - {name}
    ensures forall c :: c in r.columns ==> r.columns[c] == t.columns[c]
    ensures r.rows.Keys == t.rows.Keys
    ensures forall id :: id in t.rows ==> r.rows[id] == t.rows[id] - {name}
  {
    Table(t.columns - {name}, map id | id in t.rows :: t.rows[id] - {name})
  }
}
