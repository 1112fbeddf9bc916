/**
 * The migration itself: `up()` and `down()` run their steps one by one against the table
 * object, and `up()`'s loop goes through the selected rows updating them in place.
 */
module Migration {
  import opened Wrappers
  import opened Schema
  import opened Record
  import opened MigrationSpec
  import opened Storage

  /**
   * One iteration of the `foreach` of `up()` for the selected record `id` whose legacy cell
   * is `legacy`: only the row with that id changes, and `logged` says whether the iteration
   * threw and was logged instead.
   */
  method ProcessRecord(table: TwofaccountsTable, env: Env, id: int, legacy: Cell) returns (logged: bool)
    requires table.Valid() && TYPED_COLUMNS <= table.columns.Keys
    requires id in table.rows && LEGACY_URI in table.rows[id] && table.rows[id][LEGACY_URI] == legacy
    modifies table
    ensures table.Valid() && table.columns == old(table.columns)
    ensures table.rows == old(table.rows)[id := BackfillRow(env, id, old(table.rows)[id])]
    ensures logged == Skips(env, id, legacy)
  {
    match Transform(env, id, legacy) {
      case Success(fields) =>
        table.Update(id, fields);
        logged := false;
        assert BackfillRow(env, id, old(table.rows)[id]) == old(table.rows)[id] + fields;
      case Failure(_) =>
        logged := true;
        assert BackfillRow(env, id, old(table.rows)[id]) == old(table.rows)[id];
    }
  }

  /**
   * The `foreach` of `up()` over the rows `select` returns, in `order`. A row whose iteration
   * throws is logged (its id is appended to `skipped`) and left as it was, and the loop goes
   * on with the next one.
   */
  method Backfill(table: TwofaccountsTable, env: Env, order: seq<int>) returns (skipped: seq<int>)
    requires table.Valid() && LEGACY_URI in table.columns && TYPED_COLUMNS <= table.columns.Keys
    requires IsListing(order, table.rows.Keys)
    modifies table
    ensures table.Valid()
    ensures table.State() == BackfillTable(old(table.State()), env)
    ensures skipped == LoggedIds(env, ColumnCells(old(table.rows), LEGACY_URI), order)
  {
    var twofaccounts := table.SelectLegacyUris(order);
    ghost var start := table.State();
    skipped := [];
    for i := 0 to |twofaccounts|
      invariant table.Valid() && table.columns == start.columns
      invariant table.rows == Sweep(BackfillStep(env), start.rows, order[..i])
      invariant skipped == LoggedIds(env, ColumnCells(start.rows, LEGACY_URI), order[..i])
    {
      BackfillOneMore(env, start, order, i);
      var logged := ProcessRecord(table, env, twofaccounts[i].0, twofaccounts[i].1);
      if logged {
        skipped := skipped + [twofaccounts[i].0];
      }
    }
    TakeAll(order);
    BackfillSwept(env, start, order);
  }

  /** `up()`: the DDL steps in source order, then the backfill. */
  method Up(table: TwofaccountsTable, env: Env, isSqlite: bool, order: seq<int>) returns (skipped: seq<int>)
    requires table.Valid() && UpReady(table.columns, isSqlite)
    requires IsListing(order, table.rows.Keys)
    modifies table
    ensures table.Valid()
    ensures table.State() == UpTable(old(table.State()), isSqlite, env)
    ensures skipped == LoggedIds(env, ColumnCells(old(table.rows), URI), order)
  {
    ColumnNamesDistinct();
    TypedDefinitions();
    table.AddColumns(TYPED_DEFINITIONS);
    table.ChangeColumn(OTP_TYPE, "string", Some(false));
    table.ChangeColumn(SECRET, "text", Some(false));
    table.ChangeColumn(ALGORITHM, "string", Some(false));
    table.ChangeColumn(DIGITS, "unsignedSmallInteger", Some(false));
    if isSqlite {
      table.ChangeColumn(ACCOUNT, "text", None);
      table.ChangeColumn(URI, "text", None);
    }
    table.RenameColumn(URI, LEGACY_URI);
    assert table.State() == UpDdl(old(table.State()), isSqlite);
    UpDdlLegacyCells(old(table.State()), isSqlite);
    skipped := Backfill(table, env, order);
  }

  /** `down()`: the six typed columns are dropped one by one, then `legacy_uri` is renamed back. */
  method Down(table: TwofaccountsTable)
    requires table.Valid() && DownReady(table.columns)
    modifies table
    ensures table.Valid()
    ensures table.State() == DownDdl(old(table.State()))
  {
    ColumnNamesDistinct();
    ghost var start := table.State();
    table.DropColumn(OTP_TYPE);
    table.DropColumn(SECRET);
    table.DropColumn(ALGORITHM);
    table.DropColumn(DIGITS);
    table.DropColumn(PERIOD);
    table.DropColumn(COUNTER);
    assert table.State() == DropTypedColumns(start);
    table.RenameColumn(LEGACY_URI, URI);
  }
}
