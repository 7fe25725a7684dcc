/** internal/database/mysql/mysql.go: a MySQL connection and the per-table
    checksums dbsync compares.

    The database is an oracle. `sql.Open` becomes a function from the
    connection settings to a pool handle (or an error), and `db.Query` becomes
    a function from a handle and a query text to the rows it yields: the column
    names `rows.Columns()` reports and the outcome of each `rows.Scan`, in
    iteration order. MD5 and the server's row order stay inside that oracle.
 */
module MysqlConn {
  import opened Results
  import opened Text

  /** Where and as whom to connect (mysql.go:14-20). */
  datatype ConnectionConfig = ConnectionConfig(
    username: string,
    password: string,
    port: int,
    host: string,
    schema: string)

  /** Table name to the hash of its contents, for one collection pass. */
  type ChecksumMap = map<string, string>

  /** A connection: its settings and, once opened, the handle `sql.Open` gave. */
  datatype Connection = Connection(cfg: ConnectionConfig, db: Option<nat>)

  /** What one query yields: the column names and the outcome of each row scan. */
  datatype Rows = Rows(columns: Result<seq<string>>, scans: seq<Result<string>>)

  /** `sql.Open` on the settings of a connection. */
  type SqlOpen = ConnectionConfig -> Result<nat>

  /** `db.Query(text)` on the pool behind a handle. */
  type Query = (nat, string) -> Result<Rows>

  /** `db.Close()` on the pool behind a handle. */
  type DbClose = nat -> Outcome

  /** `New`: a connection that has not been opened yet. */
  function NewConnection(cfg: ConnectionConfig): (c: Connection)
    ensures c.cfg == cfg && !IsOpened(c)
  {
    Connection(cfg, None)
  }

  /** `isOpened`: a pool handle is held. */
  predicate IsOpened(c: Connection) {
    c.db.Some?
  }

  /** `Open`: a no-op on an opened connection; otherwise stores what `sql.Open`
      returns. `sql.Open` hands back a nil pool together with its error, so a
      failed open leaves the connection unopened. */
  function Open(conn: Connection, sqlOpen: SqlOpen): (r: (Connection, Outcome))
    ensures IsOpened(conn) ==> r == (conn, Pass)
    ensures r.0.cfg == conn.cfg
    ensures r.1.Pass? <==> IsOpened(r.0)
    ensures !IsOpened(conn) && sqlOpen(conn.cfg).Err? ==> r.1 == Fail(sqlOpen(conn.cfg).error)
    ensures !IsOpened(conn) && sqlOpen(conn.cfg).Ok? ==> r.0.db == Some(sqlOpen(conn.cfg).value)
  {
    if IsOpened(conn) then (conn, Pass)
    else
      match sqlOpen(conn.cfg)
      case Ok(h) => (conn.(db := Some(h)), Pass)
      case Err(e) => (conn, Fail(e))
  }

  /** `Close`: succeeds on a never-opened connection without touching the
      pool; otherwise reports what closing the pool reports. The handle is not
      cleared, so the connection still counts as opened afterwards. */
  function Close(conn: Connection, dbClose: DbClose): (r: Outcome)
    ensures !IsOpened(conn) ==> r == Pass
    ensures IsOpened(conn) ==> r == dbClose(conn.db.value)
  {
    match conn.db
    case None => Pass
    case Some(h) => dbClose(h)
  }

  /** Opening twice is the same as opening once, whatever `sql.Open` would do
      the second time. */
  lemma OpenIdempotent(conn: Connection, sqlOpen: SqlOpen, again: SqlOpen)
    ensures var (c1, _) := Open(conn, sqlOpen);
            Open(c1, again) == (c1, Open(conn, sqlOpen).1) || !IsOpened(c1)
    ensures var (c1, o1) := Open(conn, sqlOpen);
            o1.Pass? ==> Open(c1, again) == (c1, Pass)
  {
  }

  /** `Close` leaves the handle in place, so a later `Open` is a no-op and the
      closed pool is never reopened. */
  lemma ReopenAfterCloseIsNoOp(conn: Connection, sqlOpen: SqlOpen, dbClose: DbClose)
    requires IsOpened(conn)
    ensures Close(conn, dbClose) == dbClose(conn.db.value)
    ensures Open(conn, sqlOpen) == (conn, Pass)
  {
  }

  // ---------------------------------------------------------------------------
  // Row scanning
  // ---------------------------------------------------------------------------

  /** Reads every row into a list; the first failing scan aborts (TableNames). */
  function ScanAll(scans: seq<Result<string>>): (r: Result<seq<string>>)
    ensures r.Ok? <==> FirstFailure(scans) == |scans|
    ensures r.Ok? ==> |r.value| == |scans|
                      && forall i :: 0 <= i < |scans| ==> scans[i] == Ok(r.value[i])
    ensures r.Err? ==> r.error == scans[FirstFailure(scans)].error
  {
    if |scans| == 0 then Ok([])
    else
      match scans[0]
      case Err(e) => Err(e)
      case Ok(v) =>
        match ScanAll(scans[1..])
        case Err(e) => Err(e)
        case Ok(vs) => Ok([v] + vs)
  }

  /** Scans every row into the same variable, starting from `current`; the
      first failing scan aborts (TableChecksum). What is left is the first scan
      error, otherwise the value of the last row, otherwise `current`. */
  function ScanLast(scans: seq<Result<string>>, current: string): (r: Result<string>)
    ensures var k := FirstFailure(scans);
      && (k < |scans| ==> r == Err(scans[k].error))
      && (k == |scans| && |scans| == 0 ==> r == Ok(current))
      && (k == |scans| && |scans| > 0 ==> r == Ok(scans[|scans| - 1].value))
  {
    if |scans| == 0 then Ok(current)
    else
      match scans[0]
      case Err(e) => Err(e)
      case Ok(v) =>
        assert FirstFailure(scans) == 1 + FirstFailure(scans[1..]);
        ScanLast(scans[1..], v)
  }

  // ---------------------------------------------------------------------------
  // Queries
  // ---------------------------------------------------------------------------

  /** The query `TableNames` issues. */
  const ShowTables := "show tables"

  /** `TableNames`: one row per table of the schema. */
  function TableNames(conn: Connection, query: Query): (r: Result<seq<string>>)
    requires IsOpened(conn)
    ensures query(conn.db.value, ShowTables).Err? ==> r == Err(query(conn.db.value, ShowTables).error)
    ensures query(conn.db.value, ShowTables).Ok? ==>
      var scans := query(conn.db.value, ShowTables).value.scans;
      && (r.Ok? <==> FirstFailure(scans) == |scans|)
      && (r.Err? ==> r.error == scans[FirstFailure(scans)].error)
    ensures r.Ok? ==> query(conn.db.value, ShowTables).Ok?
                      && var scans := query(conn.db.value, ShowTables).value.scans;
                         |r.value| == |scans| && forall i :: 0 <= i < |scans| ==> scans[i] == Ok(r.value[i])
  {
    match query(conn.db.value, ShowTables)
    case Err(e) => Err(e)
    case Ok(rows) => ScanAll(rows.scans)
  }

  /** A backquoted MySQL identifier. */
  function Quote(name: string): string {
    "`" + name + "`"
  }

  function QuoteAll(names: seq<string>): (r: seq<string>)
    ensures |r| == |names|
    ensures forall i :: 0 <= i < |names| ==> r[i] == Quote(names[i])
  {
    if |names| == 0 then [] else [Quote(names[0])] + QuoteAll(names[1..])
  }

  /** The text around the table name of the probe query. */
  const ProbeSelect := "select * from "
  const ProbeLimit := " limit 1"

  /** The query that reads one row of a table to learn its columns (mysql.go:95).
      The table name is not quoted here, but it can still be read back. */
  function ProbeQuery(table: string): (q: string)
    ensures ProbedTable(q) == Some(table)
  {
    var q := ProbeSelect + table + ProbeLimit;
    assert q[..|ProbeSelect|] == ProbeSelect;
    assert q[|q| - |ProbeLimit|..] == ProbeLimit;
    assert q[|ProbeSelect|..|q| - |ProbeLimit|] == table;
    q
  }

  /** The table a probe query reads from: the text between its fixed prefix and suffix. */
  function ProbedTable(q: string): Option<string>
  {
    if |q| >= |ProbeSelect| + |ProbeLimit| && q[..|ProbeSelect|] == ProbeSelect
       && q[|q| - |ProbeLimit|..] == ProbeLimit
    then Some(q[|ProbeSelect|..|q| - |ProbeLimit|])
    else None
  }

  /** The text around the column list of the hash query. */
  const HashSelect := "select ifnull(md5(group_concat("
  const HashFrom := ")), '') as `hash` from "

  /** The query whose single row is the table's hash (mysql.go:106-110): the
      columns, each backquoted and separated by ", ", concatenated and hashed
      over the backquoted table, or '' for an empty table. */
  function HashQuery(cols: seq<string>, table: string): (q: string)
    ensures |cols| >= 1 ==> q == HashSelect + Join(QuoteAll(cols), ", ") + HashFrom + Quote(table)
    ensures |cols| == 0 ==> q == HashSelect + "``" + HashFrom + Quote(table)
  {
    var q := HashSelect + "`" + Join(cols, "`, `") + "`" + HashFrom + "`" + table + "`";
    if |cols| >= 1 then
      QuotedColumnList(cols);
      RegroupQuotes(Join(cols, "`, `"), Join(QuoteAll(cols), ", "), table);
      q
    else q
  }

  /** Joining column names with "`, `" inside one pair of backquotes is the
      comma-separated list of the individually quoted names. */
  lemma {:induction false} QuotedColumnList(cols: seq<string>)
    requires |cols| >= 1
    ensures "`" + Join(cols, "`, `") + "`" == Join(QuoteAll(cols), ", ")
  {
    if |cols| > 1 {
      QuotedColumnList(cols[1..]);
      assert QuoteAll(cols)[1..] == QuoteAll(cols[1..]);
      calc {
        "`" + Join(cols, "`, `") + "`";
        "`" + (cols[0] + "`, `" + Join(cols[1..], "`, `")) + "`";
        Quote(cols[0]) + ", " + ("`" + Join(cols[1..], "`, `") + "`");
        Quote(cols[0]) + ", " + Join(QuoteAll(cols[1..]), ", ");
        Join(QuoteAll(cols), ", ");
      }
    }
  }

  lemma RegroupQuotes(list: string, quoted: string, table: string)
    requires "`" + list + "`" == quoted
    ensures HashSelect + "`" + list + "`" + HashFrom + "`" + table + "`"
         == HashSelect + quoted + HashFrom + Quote(table)
  {
    assert HashSelect + "`" + list + "`" == HashSelect + ("`" + list + "`");
  }

  /** The prefix of every error `TableChecksum` reports. */
  function ChecksumErrorPrefix(table: string): string {
    "Table Checksum (" + table + "): "
  }

  /** `TableChecksum`: learn the columns, hash them, keep the last row read.
      Each failure is the underlying error behind the table's prefix; the
      checksum is the last row of the hash query, or "" when it returns none. */
  function TableChecksum(conn: Connection, query: Query, table: string): (r: Result<string>)
    requires IsOpened(conn)
    ensures r.Err? ==> HasPrefix(r.error, ChecksumErrorPrefix(table))
    ensures
      var h := conn.db.value;
      var p := ChecksumErrorPrefix(table);
      var probe := query(h, ProbeQuery(table));
      && (probe.Err? ==> r == Err(p + probe.error))
      && (probe.Ok? && probe.value.columns.Err? ==> r == Err(p + probe.value.columns.error))
      && (probe.Ok? && probe.value.columns.Ok? ==>
            var hashed := query(h, HashQuery(probe.value.columns.value, table));
            && (hashed.Err? ==> r == Err(p + hashed.error))
            && (hashed.Ok? ==>
                  var scans := hashed.value.scans;
                  var k := FirstFailure(scans);
                  && (k < |scans| ==> r == Err(p + scans[k].error))
                  && (k == |scans| ==> r == Ok(if |scans| == 0 then "" else scans[|scans| - 1].value))))
    ensures r.Ok? ==>
      var h := conn.db.value;
      var probe := query(h, ProbeQuery(table));
      && probe.Ok? && probe.value.columns.Ok?
      && var hashed := query(h, HashQuery(probe.value.columns.value, table));
      && hashed.Ok?
      && FirstFailure(hashed.value.scans) == |hashed.value.scans|
      && r.value == (if |hashed.value.scans| == 0 then "" else hashed.value.scans[|hashed.value.scans| - 1].value)
  {
    var h := conn.db.value;
    var prefix := ChecksumErrorPrefix(table);
    match query(h, ProbeQuery(table))
    case Err(e) => Err(prefix + e)
    case Ok(rows) =>
      match rows.columns
      case Err(e) => Err(prefix + e)
      case Ok(cols) =>
        match query(h, HashQuery(cols, table))
        case Err(e) => Err(prefix + e)
        case Ok(hashed) =>
          match ScanLast(hashed.scans, "")
          case Err(e) => Err(prefix + e)
          case Ok(c) => Ok(c)
  }

  /** The loop of `TableChecksums` over the listed names, in list order. */
  function CollectChecksums(conn: Connection, query: Query, names: seq<string>): (r: Result<ChecksumMap>)
    requires IsOpened(conn)
    ensures r.Ok? <==> forall i :: 0 <= i < |names| ==> TableChecksum(conn, query, names[i]).Ok?
    ensures r.Ok? ==> forall t :: t in r.value <==> t in names
    ensures r.Ok? ==> forall t :: t in r.value ==> TableChecksum(conn, query, t) == Ok(r.value[t])
  {
    if |names| == 0 then Ok(map[])
    else
      match TableChecksum(conn, query, names[0])
      case Err(e) => Err(e)
      case Ok(c) =>
        match CollectChecksums(conn, query, names[1..])
        case Err(e) => Err(e)
        case Ok(m) => Ok(m[names[0] := c])
  }

  /** A failed collection reports the error of the first table, in list order,
      whose checksum failed. */
  lemma {:induction false} CollectChecksumsFirstError(conn: Connection, query: Query, names: seq<string>)
    requires IsOpened(conn)
    requires CollectChecksums(conn, query, names).Err?
    ensures exists i :: (0 <= i < |names|
      && TableChecksum(conn, query, names[i]) == Err(CollectChecksums(conn, query, names).error)
      && forall j :: 0 <= j < i ==> TableChecksum(conn, query, names[j]).Ok?)
  {
    if TableChecksum(conn, query, names[0]).Ok? {
      CollectChecksumsFirstError(conn, query, names[1..]);
      var i :| 0 <= i < |names[1..]|
        && TableChecksum(conn, query, names[1..][i]) == Err(CollectChecksums(conn, query, names[1..]).error)
        && forall j :: 0 <= j < i ==> TableChecksum(conn, query, names[1..][j]).Ok?;
      assert names[i + 1] == names[1..][i];
      forall j | 0 <= j < i + 1
        ensures TableChecksum(conn, query, names[j]).Ok?
      {
        if j > 0 {
          assert names[j] == names[1..][j - 1];
        }
      }
    }
  }

  /** `TableChecksums`: all tables or nothing. */
  function TableChecksums(conn: Connection, query: Query): (r: Result<ChecksumMap>)
    requires IsOpened(conn)
    ensures TableNames(conn, query).Err? ==> r == Err(TableNames(conn, query).error)
    ensures r.Ok? ==> TableNames(conn, query).Ok?
                      && forall t :: t in r.value <==> t in TableNames(conn, query).value
    ensures r.Ok? ==> forall t :: t in r.value ==> TableChecksum(conn, query, t) == Ok(r.value[t])
    ensures TableNames(conn, query).Ok? ==>
              (r.Ok? <==> forall t :: t in TableNames(conn, query).value ==> TableChecksum(conn, query, t).Ok?)
    ensures TableNames(conn, query).Ok? && r.Err? ==>
              var names := TableNames(conn, query).value;
              exists i :: (0 <= i < |names|
                && TableChecksum(conn, query, names[i]) == Err(r.error)
                && forall j :: 0 <= j < i ==> TableChecksum(conn, query, names[j]).Ok?)
  {
    match TableNames(conn, query)
    case Err(e) => Err(e)
    case Ok(names) =>
      var r := CollectChecksums(conn, query, names);
      if r.Err? then
        CollectChecksumsFirstError(conn, query, names);
        r
      else r
  }

  /** Every error `TableChecksums` reports after listing the tables names, in
      its prefix, the first listed table whose checksum failed. */
  lemma TableChecksumsErrorNamesTable(conn: Connection, query: Query)
    requires IsOpened(conn)
    requires TableNames(conn, query).Ok? && TableChecksums(conn, query).Err?
    ensures var names := TableNames(conn, query).value;
      exists i :: (0 <= i < |names|
        && TableChecksum(conn, query, names[i]).Err?
        && HasPrefix(TableChecksums(conn, query).error, ChecksumErrorPrefix(names[i]))
        && forall j :: 0 <= j < i ==> TableChecksum(conn, query, names[j]).Ok?)
  {
    var names := TableNames(conn, query).value;
    var i :| 0 <= i < |names|
      && TableChecksum(conn, query, names[i]) == Err(TableChecksums(conn, query).error)
      && forall j :: 0 <= j < i ==> TableChecksum(conn, query, names[j]).Ok?;
    assert HasPrefix(TableChecksum(conn, query, names[i]).error, ChecksumErrorPrefix(names[i]));
  }
}
