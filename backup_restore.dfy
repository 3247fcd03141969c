/**
 * backup_restore.php: a backup dumps eight fixed tables; a restore replaces
 * the tables named in an uploaded JSON object inside one transaction. The
 * database is a map from table name to rows, a row being its cells in column
 * order. What the database refuses (a DELETE, or an INSERT statement with its
 * bound values) is an input.
 */
module BackupRestore {
  import opened Wrappers
  import opened Text

  datatype Cell = Cell(column: string, value: string)

  /** One row as `PDO::FETCH_ASSOC` gives it: the cells in column order. */
  type Row = seq<Cell>

  type Tables = map<string, seq<Row>>

  /** The tables a backup holds and a restore may name, in the order of the backup. */
  const AllowList: seq<string> := ["users", "customers", "accounts", "transactions", "invoices", "invoice_items", "journal", "salary"]

  /** Which statements the database accepts. */
  datatype Driver = Driver(deletes: string -> bool, inserts: (string, seq<string>) -> bool)

  // ---------------------------------------------------------------- backup

  /** The first allow-listed table the database lacks; |names| when it has them all. */
  function FirstAbsent(db: Tables, names: seq<string>): (k: nat)
    ensures k <= |names|
    ensures forall j :: 0 <= j < k ==> names[j] in db
    ensures k < |names| ==> names[k] !in db
  {
    if names == [] then 0 else if names[0] !in db then 0 else 1 + FirstAbsent(db, names[1..])
  }

  datatype BackupResult = BackedUp(data: map<string, seq<Row>>) | BackupFailed(absent: string)

  function BackupMessage(r: BackupResult): string {
    match r
    case BackedUp(_) => "Backup berhasil"
    case BackupFailed(t) => "Backup gagal: Tabel '" + t + "' tidak ditemukan"
  }

  /** The backup of a database, as the backup action computes it. */
  function BackupOf(db: Tables): BackupResult {
    var k := FirstAbsent(db, AllowList);
    if k < |AllowList| then BackupFailed(AllowList[k])
    else BackedUp(map t | t in AllowList && t in db :: db[t])
  }

  /**
   * A backup fails exactly when an allow-listed table is missing, naming the
   * first one; otherwise it has one key per allow-listed table, holding that
   * table's rows.
   */
  lemma BackupFacts(db: Tables)
    ensures BackupOf(db).BackedUp? <==> forall i :: 0 <= i < |AllowList| ==> AllowList[i] in db
    ensures BackupOf(db).BackupFailed? ==> BackupOf(db).absent in AllowList && BackupOf(db).absent !in db
    ensures BackupOf(db).BackedUp? ==>
      && BackupOf(db).data.Keys == (set i | 0 <= i < |AllowList| :: AllowList[i])
      && (forall t :: t in BackupOf(db).data ==> t in db && BackupOf(db).data[t] == db[t])
  {
    var k := FirstAbsent(db, AllowList);
    if k == |AllowList| {
      var data := map t | t in AllowList && t in db :: db[t];
      assert forall t :: t in AllowList <==> t in set i | 0 <= i < |AllowList| :: AllowList[i];
    }
  }

  // ---------------------------------------------------------------- restore: the statements

  function Columns(row: Row): (cols: seq<string>)
    ensures |cols| == |row|
  {
    if row == [] then [] else [row[0].column] + Columns(row[1..])
  }

  /** `array_values($row)`. */
  function Values(row: Row): (vs: seq<string>)
    ensures |vs| == |row|
  {
    if row == [] then [] else [row[0].value] + Values(row[1..])
  }

  /** `implode(",", $parts)`. */
  function Implode(parts: seq<string>): string {
    if parts == [] then "" else if |parts| == 1 then parts[0] else parts[0] + "," + Implode(parts[1..])
  }

  /** `implode(",", array_fill(0, n, "?"))`. */
  function Placeholders(n: nat): string {
    if n == 0 then "" else if n == 1 then "?" else "?," + Placeholders(n - 1)
  }

  function InsertSql(table: string, cols: seq<string>): string {
    "INSERT INTO " + table + " (" + Implode(cols) + ") VALUES (" + Placeholders(|cols|) + ")"
  }

  lemma {:induction false} PlaceholderCount(n: nat)
    ensures CountChar(Placeholders(n), '?') == n
  {
    if n > 1 {
      PlaceholderCount(n - 1);
      CountCharConcat("?,", Placeholders(n - 1), '?');
    }
  }

  lemma {:induction false} ImplodeCount(parts: seq<string>)
    requires forall i :: 0 <= i < |parts| ==> '?' !in parts[i]
    ensures CountChar(Implode(parts), '?') == 0
  {
    if |parts| == 1 {
      CountCharAbsent(parts[0], '?');
    } else if |parts| > 1 {
      ImplodeCount(parts[1..]);
      CountCharAbsent(parts[0], '?');
      CountCharConcat(parts[0], ",", '?');
      CountCharConcat(parts[0] + ",", Implode(parts[1..]), '?');
    }
  }

  /**
   * The INSERT statement has exactly one placeholder per column of the first
   * row, as long as no column name contains a '?'.
   */
  lemma InsertSqlPlaceholders(table: string, cols: seq<string>)
    requires '?' !in table
    requires forall i :: 0 <= i < |cols| ==> '?' !in cols[i]
    ensures CountChar(InsertSql(table, cols), '?') == |cols|
  {
    var head := "INSERT INTO " + table + " (" + Implode(cols);
    var tail := ") VALUES (" + Placeholders(|cols|) + ")";
    assert InsertSql(table, cols) == head + tail;
    CountCharConcat(head, tail, '?');
    HeadPlain(table, cols);
    TailCount(|cols|);
  }

  lemma HeadPlain(table: string, cols: seq<string>)
    requires '?' !in table
    requires forall i :: 0 <= i < |cols| ==> '?' !in cols[i]
    ensures CountChar("INSERT INTO " + table + " (" + Implode(cols), '?') == 0
  {
    LiteralsPlain();
    CountCharAbsent(table, '?');
    ImplodeCount(cols);
    CountCharConcat("INSERT INTO ", table, '?');
    CountCharConcat("INSERT INTO " + table, " (", '?');
    CountCharConcat("INSERT INTO " + table + " (", Implode(cols), '?');
  }

  lemma LiteralsPlain()
    ensures CountChar("INSERT INTO ", '?') == 0 && CountChar(" (", '?') == 0
    ensures CountChar(") VALUES (", '?') == 0 && CountChar(")", '?') == 0
  {
    InsertIntoPlain();
    ValuesPlain();
  }

  lemma InsertIntoPlain()
    ensures CountChar("INSERT INTO ", '?') == 0
  {
    var s := "INSERT INTO ";
    assert forall i :: 0 <= i < |s| ==> s[i] != '?';
    CountCharAbsent(s, '?');
  }

  lemma ValuesPlain()
    ensures CountChar(") VALUES (", '?') == 0
  {
    var s := ") VALUES (";
    assert forall i :: 0 <= i < |s| ==> s[i] != '?';
    CountCharAbsent(s, '?');
  }

  lemma TailCount(n: nat)
    ensures CountChar(") VALUES (" + Placeholders(n) + ")", '?') == n
  {
    LiteralsPlain();
    PlaceholderCount(n);
    CountCharConcat(") VALUES (", Placeholders(n), '?');
    CountCharConcat(") VALUES (" + Placeholders(n), ")", '?');
  }

  /** No allow-listed name holds a '?'. */
  lemma AllowListPlain(table: string)
    requires table in AllowList
    ensures '?' !in table
  {
  }

  // ---------------------------------------------------------------- restore: what is stored

  /** The values of a row bound, by position, to the columns of the statement. */
  function Rebind(cols: seq<string>, values: seq<string>): (row: Row)
    requires |cols| == |values|
    ensures |row| == |cols|
  {
    if cols == [] then [] else [Cell(cols[0], values[0])] + Rebind(cols[1..], values[1..])
  }

  /** The rows inserted under the given columns, one after another. */
  function RebindAll(cols: seq<string>, rows: seq<Row>): seq<Row> {
    if rows == [] then []
    else
      var last := rows[|rows| - 1];
      RebindAll(cols, rows[..|rows| - 1]) + (if |last| == |cols| then [Rebind(cols, Values(last))] else [])
  }

  /** What a table holds after being restored from these rows (when no statement fails). */
  function Reload(rows: seq<Row>): seq<Row> {
    if rows == [] then [] else RebindAll(Columns(rows[0]), rows)
  }

  /** A row put back under its own column names is the row. */
  lemma {:induction false} RebindOwn(row: Row)
    ensures Rebind(Columns(row), Values(row)) == row
  {
    if row != [] {
      RebindOwn(row[1..]);
    }
  }

  /** Every row has the same columns, in the same order, as the first. */
  predicate Uniform(rows: seq<Row>) {
    forall i :: 0 <= i < |rows| ==> Columns(rows[i]) == Columns(rows[0])
  }

  lemma {:induction false} RebindAllUniform(cols: seq<string>, rows: seq<Row>)
    requires forall i :: 0 <= i < |rows| ==> Columns(rows[i]) == cols
    ensures RebindAll(cols, rows) == rows
  {
    if rows != [] {
      var init := rows[..|rows| - 1];
      assert forall i :: 0 <= i < |init| ==> init[i] == rows[i];
      RebindAllUniform(cols, init);
      RebindOwn(rows[|rows| - 1]);
      assert rows == init + [rows[|rows| - 1]];
    }
  }

  /** Rows that share the first row's columns are stored exactly as supplied, in order; no rows leave the table empty. */
  lemma ReloadUniform(rows: seq<Row>)
    requires Uniform(rows)
    ensures Reload(rows) == rows
    ensures rows == [] ==> Reload(rows) == []
  {
    if rows != [] {
      RebindAllUniform(Columns(rows[0]), rows);
    }
  }

  // ---------------------------------------------------------------- restore: the outcome

  /** One key of the uploaded JSON object and its rows. */
  datatype Entry = Entry(table: string, rows: seq<Row>)

  /** The keys of a decoded JSON object are distinct. */
  predicate Distinct(data: seq<Entry>) {
    forall j, k :: 0 <= j < k < |data| ==> data[j].table != data[k].table
  }

  datatype RestoreFailure = CannotDelete(table: string) | WrongValueCount(table: string) | InsertRefused(table: string)

  datatype RestoreResult = Restored | InvalidTable(table: string) | RestoreFailed(failure: RestoreFailure)

  /** The message of the answer; `dbError` is the text of the database's exception, as reported. */
  function RestoreMessage(r: RestoreResult, dbError: string): string {
    match r
    case Restored => "Restore berhasil"
    case InvalidTable(t) => "Restore gagal: Tabel '" + t + "' tidak valid"
    case RestoreFailed(_) => "Restore gagal: " + dbError
  }

  function FirstUnknown(data: seq<Entry>): (k: nat)
    ensures k <= |data|
    ensures forall j :: 0 <= j < k ==> data[j].table in AllowList
    ensures k < |data| ==> data[k].table !in AllowList
  {
    if data == [] then 0 else if data[0].table !in AllowList then 0 else 1 + FirstUnknown(data[1..])
  }

  /** `DELETE FROM t` succeeds: the table exists and the database accepts the delete. */
  predicate Deletable(db: Tables, t: string, d: Driver) {
    t in db && d.deletes(t)
  }

  function FirstUndeletable(db: Tables, data: seq<Entry>, d: Driver): (k: nat)
    ensures k <= |data|
    ensures forall j :: 0 <= j < k ==> Deletable(db, data[j].table, d)
    ensures k < |data| ==> !Deletable(db, data[k].table, d)
  {
    if data == [] then 0 else if !Deletable(db, data[0].table, d) then 0 else 1 + FirstUndeletable(db, data[1..], d)
  }

  /** The insert of one row fails: its value count differs from the placeholder count, or the database refuses it. */
  predicate RowFails(table: string, cols: seq<string>, row: Row, d: Driver) {
    |row| != |cols| || !d.inserts(InsertSql(table, cols), Values(row))
  }

  function FirstFailingRow(table: string, cols: seq<string>, rows: seq<Row>, d: Driver): (k: nat)
    ensures k <= |rows|
    ensures forall j :: 0 <= j < k ==> !RowFails(table, cols, rows[j], d)
    ensures k < |rows| ==> RowFails(table, cols, rows[k], d)
  {
    if rows == [] then 0
    else if RowFails(table, cols, rows[0], d) then 0
    else 1 + FirstFailingRow(table, cols, rows[1..], d)
  }

  /** Why inserting an entry's rows fails, if it does; an empty row list inserts nothing. */
  function EntryFailure(e: Entry, d: Driver): Option<RestoreFailure> {
    if e.rows == [] then None
    else
      var cols := Columns(e.rows[0]);
      var k := FirstFailingRow(e.table, cols, e.rows, d);
      if k == |e.rows| then None
      else if |e.rows[k]| != |cols| then Some(WrongValueCount(e.table))
      else Some(InsertRefused(e.table))
  }

  function FirstFailingEntry(data: seq<Entry>, d: Driver): (k: nat)
    ensures k <= |data|
    ensures forall j :: 0 <= j < k ==> EntryFailure(data[j], d).None?
    ensures k < |data| ==> EntryFailure(data[k], d).Some?
  {
    if data == [] then 0 else if EntryFailure(data[0], d).Some? then 0 else 1 + FirstFailingEntry(data[1..], d)
  }

  /** The answer of the restore action: validate every key, then delete every named table, then insert. */
  function RestoreOutcome(db: Tables, data: seq<Entry>, d: Driver): RestoreResult {
    var u := FirstUnknown(data);
    if u < |data| then InvalidTable(data[u].table)
    else
      var x := FirstUndeletable(db, data, d);
      if x < |data| then RestoreFailed(CannotDelete(data[x].table))
      else
        var f := FirstFailingEntry(data, d);
        if f < |data| then RestoreFailed(EntryFailure(data[f], d).value) else Restored
  }

  function TableNames(data: seq<Entry>): set<string> {
    set k | 0 <= k < |data| :: data[k].table
  }

  /** `after` is `before` with every named table replaced by its reloaded rows and every other table kept. */
  predicate RestoredAs(before: Tables, after: Tables, data: seq<Entry>) {
    && after.Keys == before.Keys
    && (forall k :: 0 <= k < |data| ==> data[k].table in after && after[data[k].table] == Reload(data[k].rows))
    && (forall t :: t in before && t !in TableNames(data) ==> after[t] == before[t])
  }

  /** An unknown key is refused before anything else; a restore succeeds exactly when no statement fails. */
  lemma RestoreOutcomeFacts(db: Tables, data: seq<Entry>, d: Driver)
    ensures RestoreOutcome(db, data, d).InvalidTable? <==> exists k :: 0 <= k < |data| && data[k].table !in AllowList
    ensures RestoreOutcome(db, data, d).Restored? <==>
      forall k :: 0 <= k < |data| ==>
        data[k].table in AllowList && Deletable(db, data[k].table, d) && EntryFailure(data[k], d).None?
  {
    var u := FirstUnknown(data);
    if u < |data| {
      assert data[u].table !in AllowList;
    }
    var x := FirstUndeletable(db, data, d);
    if u == |data| && x < |data| {
      assert !Deletable(db, data[x].table, d);
    }
    var f := FirstFailingEntry(data, d);
    if u == |data| && x == |data| && f < |data| {
      assert EntryFailure(data[f], d).Some?;
    }
  }

  /** The entries of a backup in the order the backup wrote them. */
  function EntriesOf(data: map<string, seq<Row>>): seq<Entry>
    requires forall i :: 0 <= i < |AllowList| ==> AllowList[i] in data
  {
    seq(|AllowList|, i requires 0 <= i < |AllowList| => Entry(AllowList[i], data[AllowList[i]]))
  }

  /** Every row the database accepts, and every table of the allow-list has rows of one shape. */
  ghost predicate Restorable(db: Tables, d: Driver) {
    && (forall t :: t in AllowList && t in db ==> Uniform(db[t]) && d.deletes(t))
    && (forall s, vs :: d.inserts(s, vs))
  }

  /**
   * A backup restored into the database it came from succeeds and leaves
   * every table as it was, when the database accepts the statements and each
   * table's rows share their columns.
   */
  lemma RestoreOfBackup(db: Tables, d: Driver, after: Tables)
    requires BackupOf(db).BackedUp?
    requires Restorable(db, d)
    requires RestoredAs(db, after, EntriesOf(BackupOf(db).data))
    ensures RestoreOutcome(db, EntriesOf(BackupOf(db).data), d) == Restored
    ensures after == db
  {
    var entries := BackupEntries(db);
    forall k | 0 <= k < |entries|
      ensures entries[k].table in AllowList && Deletable(db, entries[k].table, d) && EntryFailure(entries[k], d).None?
      ensures Reload(entries[k].rows) == db[entries[k].table]
    {
      ReloadUniform(db[AllowList[k]]);
    }
    RestoreOutcomeFacts(db, entries, d);
    forall t | t in db
      ensures after[t] == db[t]
    {
      if t in TableNames(entries) {
        var k :| 0 <= k < |entries| && entries[k].table == t;
      }
    }
  }

  /** The entries of a backup hold, in allow-list order, each allow-listed table with its rows. */
  lemma BackupEntries(db: Tables) returns (entries: seq<Entry>)
    requires BackupOf(db).BackedUp?
    ensures entries == EntriesOf(BackupOf(db).data)
    ensures |entries| == |AllowList|
    ensures forall k :: 0 <= k < |entries| ==> AllowList[k] in db && entries[k] == Entry(AllowList[k], db[AllowList[k]])
  {
    BackupFacts(db);
    entries := EntriesOf(BackupOf(db).data);
  }

  /** `after` is `before` with the tables the entries name emptied. */
  predicate Emptied(before: Tables, after: Tables, data: seq<Entry>) {
    && after.Keys == before.Keys
    && (forall k :: 0 <= k < |data| ==> data[k].table in after && after[data[k].table] == [])
    && (forall t :: t in before && t !in TableNames(data) ==> after[t] == before[t])
  }

  /** `after` is an emptied `before` with each entry's table loaded from its rows. */
  predicate Loaded(before: Tables, after: Tables, data: seq<Entry>) {
    && after.Keys == before.Keys
    && (forall k :: 0 <= k < |data| ==> data[k].table in after && after[data[k].table] == Reload(data[k].rows))
    && (forall t :: t in before && t !in TableNames(data) ==> after[t] == before[t])
  }

  lemma EmptiedStep(before: Tables, now: Tables, data: seq<Entry>, x: nat)
    requires x < |data| && data[x].table in now
    requires Emptied(before, now, data[..x])
    ensures Emptied(before, now[data[x].table := []], data[..x + 1])
  {
    assert forall k :: 0 <= k < x + 1 ==> data[..x + 1][k] == data[k];
    assert TableNames(data[..x + 1]) == TableNames(data[..x]) + {data[x].table} by {
      assert forall k :: 0 <= k < x ==> data[..x][k] == data[k];
    }
  }

  lemma LoadedIsRestored(before: Tables, emptied: Tables, after: Tables, data: seq<Entry>)
    requires Emptied(before, emptied, data)
    requires Loaded(emptied, after, data)
    ensures RestoredAs(before, after, data)
  {
  }

  /** Each first-index function is determined by the index the loop stops at. */
  lemma FirstIndexUnknown(data: seq<Entry>, u: nat)
    requires u <= |data|
    requires forall j :: 0 <= j < u ==> data[j].table in AllowList
    requires u < |data| ==> data[u].table !in AllowList
    ensures FirstUnknown(data) == u
  {
  }

  lemma FirstIndexUndeletable(db: Tables, data: seq<Entry>, d: Driver, x: nat)
    requires x <= |data|
    requires forall j :: 0 <= j < x ==> Deletable(db, data[j].table, d)
    requires x < |data| ==> !Deletable(db, data[x].table, d)
    ensures FirstUndeletable(db, data, d) == x
  {
  }

  lemma FirstIndexRow(table: string, cols: seq<string>, rows: seq<Row>, d: Driver, j: nat)
    requires j <= |rows|
    requires forall i :: 0 <= i < j ==> !RowFails(table, cols, rows[i], d)
    requires j < |rows| ==> RowFails(table, cols, rows[j], d)
    ensures FirstFailingRow(table, cols, rows, d) == j
  {
  }

  lemma RebindAllStep(cols: seq<string>, rows: seq<Row>, j: nat)
    requires j < |rows| && |rows[j]| == |cols|
    ensures RebindAll(cols, rows[..j + 1]) == RebindAll(cols, rows[..j]) + [Rebind(cols, Values(rows[j]))]
  {
    assert rows[..j + 1][..j] == rows[..j];
  }

  /** Loading one more entry of distinct, emptied tables keeps the earlier ones and the untouched ones. */
  lemma LoadStep(before: Tables, now: Tables, data: seq<Entry>, f: nat, loaded: seq<Row>)
    requires Distinct(data) && f < |data|
    requires now.Keys == before.Keys
    requires forall j :: 0 <= j < |data| ==> data[j].table in now
    requires forall j :: f <= j < |data| ==> now[data[j].table] == []
    requires forall t :: t in before && t !in TableNames(data) ==> now[t] == before[t]
    ensures var next := now[data[f].table := loaded];
      && next.Keys == before.Keys
      && (forall j :: 0 <= j < f ==> next[data[j].table] == now[data[j].table])
      && (forall j :: f < j < |data| ==> next[data[j].table] == [])
      && (forall t :: t in before && t !in TableNames(data) ==> next[t] == before[t])
  {
    assert data[f].table in TableNames(data);
  }

  lemma FirstIndexFailing(data: seq<Entry>, d: Driver, f: nat)
    requires f <= |data|
    requires forall j :: 0 <= j < f ==> EntryFailure(data[j], d).None?
    requires f < |data| ==> EntryFailure(data[f], d).Some?
    ensures FirstFailingEntry(data, d) == f
  {
  }

  // ---------------------------------------------------------------- the server

  /** The database as the two actions of backup_restore.php see it. */
  class Server {
    var tables: Tables
    var savepoint: Option<Tables>

    /** The backup action: check every allow-listed table first, then dump each one. */
    method Backup() returns (r: BackupResult)
      ensures r == BackupOf(tables)
    {
      var i := 0;
      while i < |AllowList|
        invariant i <= |AllowList|
        invariant forall j :: 0 <= j < i ==> AllowList[j] in tables
      {
        if AllowList[i] !in tables {
          return BackupFailed(AllowList[i]);
        }
        i := i + 1;
      }
      var backup: map<string, seq<Row>> := map[];
      i := 0;
      while i < |AllowList|
        invariant i <= |AllowList|
        invariant backup == map t | t in AllowList[..i] && t in tables :: tables[t]
      {
        var tbl := AllowList[i];
        assert AllowList[..i + 1] == AllowList[..i] + [tbl];
        backup := backup[tbl := tables[tbl]];
        i := i + 1;
      }
      assert AllowList[..i] == AllowList;
      return BackedUp(backup);
    }

    /** The rows of one entry inserted under the columns of its first row. */
    method InsertEntry(table: string, rows: seq<Row>, d: Driver) returns (failure: Option<RestoreFailure>)
      requires table in tables && tables[table] == []
      modifies this
      ensures savepoint == old(savepoint)
      ensures failure == EntryFailure(Entry(table, rows), d)
      ensures failure.None? ==> tables == old(tables)[table := Reload(rows)]
      ensures tables.Keys == old(tables).Keys
    {
      if rows == [] {
        return None;
      }
      var columns := Columns(rows[0]);
      var sql := InsertSql(table, columns);
      var j := 0;
      while j < |rows|
        invariant j <= |rows|
        invariant forall i :: 0 <= i < j ==> !RowFails(table, columns, rows[i], d)
        invariant tables == old(tables)[table := RebindAll(columns, rows[..j])]
        invariant savepoint == old(savepoint)
      {
        var row := rows[j];
        if |row| != |columns| {
          FirstIndexRow(table, columns, rows, d, j);
          return Some(WrongValueCount(table));
        }
        if !d.inserts(sql, Values(row)) {
          FirstIndexRow(table, columns, rows, d, j);
          return Some(InsertRefused(table));
        }
        RebindAllStep(columns, rows, j);
        tables := tables[table := tables[table] + [Rebind(columns, Values(row))]];
        j := j + 1;
      }
      assert rows[..j] == rows;
      FirstIndexRow(table, columns, rows, d, j);
      return None;
    }

    /** The validation loop: the index of the first key outside the allow-list. */
    method CheckTables(data: seq<Entry>) returns (u: nat)
      ensures u == FirstUnknown(data)
    {
      u := 0;
      while u < |data|
        invariant u <= |data|
        invariant forall j :: 0 <= j < u ==> data[j].table in AllowList
      {
        if data[u].table !in AllowList {
          FirstIndexUnknown(data, u);
          return;
        }
        u := u + 1;
      }
      FirstIndexUnknown(data, u);
    }

    /** The delete loop: empties the named tables up to the first delete that fails. */
    method DeleteTables(data: seq<Entry>, d: Driver) returns (x: nat)
      modifies this
      ensures savepoint == old(savepoint)
      ensures x == FirstUndeletable(old(tables), data, d)
      ensures x == |data| ==> Emptied(old(tables), tables, data)
    {
      ghost var before := tables;
      x := 0;
      while x < |data|
        invariant x <= |data|
        invariant savepoint == old(savepoint)
        invariant forall j :: 0 <= j < x ==> Deletable(before, data[j].table, d)
        invariant Emptied(before, tables, data[..x])
      {
        var tbl := data[x].table;
        if !(tbl in tables && d.deletes(tbl)) {
          FirstIndexUndeletable(before, data, d, x);
          return;
        }
        EmptiedStep(before, tables, data, x);
        tables := tables[tbl := []];
        x := x + 1;
      }
      assert data[..x] == data;
      FirstIndexUndeletable(before, data, d, x);
    }

    /** The insert loop: loads every entry up to the first that fails. */
    method InsertEntries(data: seq<Entry>, d: Driver) returns (f: nat)
      requires Distinct(data)
      requires forall j :: 0 <= j < |data| ==> data[j].table in tables && tables[data[j].table] == []
      modifies this
      ensures savepoint == old(savepoint)
      ensures f == FirstFailingEntry(data, d)
      ensures f == |data| ==> Loaded(old(tables), tables, data)
    {
      ghost var before := tables;
      f := 0;
      while f < |data|
        invariant f <= |data|
        invariant savepoint == old(savepoint)
        invariant tables.Keys == before.Keys
        invariant forall j :: 0 <= j < f ==> EntryFailure(data[j], d).None? && tables[data[j].table] == Reload(data[j].rows)
        invariant forall j :: f <= j < |data| ==> tables[data[j].table] == []
        invariant forall t :: t in before && t !in TableNames(data) ==> tables[t] == before[t]
      {
        LoadStep(before, tables, data, f, Reload(data[f].rows));
        var failure := InsertEntry(data[f].table, data[f].rows, d);
        if failure.Some? {
          FirstIndexFailing(data, d, f);
          return;
        }
        f := f + 1;
      }
      FirstIndexFailing(data, d, f);
    }

    /** The restore action from the allow-list check to the commit, for an uploaded object already decoded. */
    method Restore(data: seq<Entry>, d: Driver) returns (r: RestoreResult)
      requires savepoint == None
      requires Distinct(data)
      modifies this
      ensures savepoint == None
      ensures r == RestoreOutcome(old(tables), data, d)
      ensures r.Restored? ==> RestoredAs(old(tables), tables, data)
      ensures !r.Restored? ==> tables == old(tables)
    {
      var u := CheckTables(data);
      if u < |data| {
        return InvalidTable(data[u].table);
      }
      savepoint := Some(tables);
      var x := DeleteTables(data, d);
      if x < |data| {
        tables := savepoint.value;
        savepoint := None;
        return RestoreFailed(CannotDelete(data[x].table));
      }
      ghost var emptied := tables;
      var f := InsertEntries(data, d);
      if f < |data| {
        tables := savepoint.value;
        savepoint := None;
        return RestoreFailed(EntryFailure(data[f], d).value);
      }
      LoadedIsRestored(savepoint.value, emptied, tables, data);
      savepoint := None;
      return Restored;
    }
  }
}
