/** internal/database/mysql/diff.go: what the master has that the slave lacks,
    and the SQL script that makes the slave catch up.

    `GenerateDiff` ranges over two Go maps, whose iteration order is
    unspecified; the model receives each order as a list that visits every key
    once, and every property below holds for every such order.
 */
module MysqlDiff {
  import opened Results
  import opened Text
  import opened Lists
  import opened MysqlConn
  import opened MysqlUtil

  /** Tables to (re)create from the master and entries for tables to drop. */
  datatype Diff = Diff(create: seq<string>, delete: seq<string>)

  /** `Diff.Empty`: nothing to create and nothing to drop. */
  predicate Empty(d: Diff)
    ensures Empty(d) <==> d == Diff([], [])
  {
    |d.create| == 0 && |d.delete| == 0
  }

  // ---------------------------------------------------------------------------
  // GenerateSQL
  // ---------------------------------------------------------------------------

  /** Produces the create script for a list of tables (`Dumper.DumpTables`). */
  type Dumper = seq<string> -> Result<string>

  /** The characters `GenerateSQL` trims from both ends of its script. */
  const ScriptTrim: set<char> := {' ', '\n'}

  /** The text the drop loop appends: one drop statement per table, in order,
      the statements separated and terminated by ";\n". */
  function DropScript(tables: seq<string>): (r: string)
    ensures |tables| == 0 ==> r == ""
    ensures |tables| >= 1 ==> r == Join(DropStatements(tables), ";\n") + ";\n"
  {
    if |tables| == 0 then ""
    else
      var rest := DropScript(tables[1..]);
      assert |tables| > 1 ==> DropStatements(tables)[1..] == DropStatements(tables[1..]);
      DropTableStatement(tables[0]) + ";\n" + rest
  }

  function DropStatements(tables: seq<string>): (r: seq<string>)
    ensures |r| == |tables|
    ensures forall i :: 0 <= i < |tables| ==> r[i] == DropTableStatement(tables[i])
  {
    if |tables| == 0 then [] else [DropTableStatement(tables[0])] + DropStatements(tables[1..])
  }

  /** `Diff.GenerateSQL`: the dump of the tables to create, then one drop
      statement per delete entry, trimmed of spaces and newlines. */
  function GenerateSql(d: Diff, dumper: Dumper): (r: Result<string>)
    ensures Empty(d) ==> r == Err("diff empty")
    ensures |d.create| > 0 && dumper(d.create).Err? ==> r == Err("Generate SQL: " + dumper(d.create).error)
    ensures r.Ok? ==> !Empty(d) && (|d.create| > 0 ==> dumper(d.create).Ok?)
    ensures r.Ok? ==> r.value == [] || (r.value[0] !in ScriptTrim && r.value[|r.value| - 1] !in ScriptTrim)
  {
    if Empty(d) then Err("diff empty")
    else if |d.create| > 0 then
      match dumper(d.create)
      case Err(e) => Err("Generate SQL: " + e)
      case Ok(dump) => Ok(Trim(dump + "\n" + DropScript(d.delete), ScriptTrim))
    else Ok(Trim(DropScript(d.delete), ScriptTrim))
  }

  /** The dumper is consulted only for a non-empty create list, and only about
      that list: two dumpers that agree on it give the same script, and with
      nothing to create the dumper does not matter at all. */
  lemma GenerateSqlDumperUse(d: Diff, dumper1: Dumper, dumper2: Dumper)
    ensures |d.create| == 0 ==> GenerateSql(d, dumper1) == GenerateSql(d, dumper2)
    ensures dumper1(d.create) == dumper2(d.create) ==> GenerateSql(d, dumper1) == GenerateSql(d, dumper2)
  {
  }

  /** The joined drop statements start with the letter of "drop". */
  lemma {:induction false} DropListStart(tables: seq<string>)
    requires |tables| >= 1
    ensures var j := Join(DropStatements(tables), ";\n"); |j| > 0 && j[0] == 'd'
  {
    var stmts := DropStatements(tables);
    assert stmts[0] == DropTableStatement(tables[0]);
    if |tables| > 1 {
      assert Join(stmts, ";\n") == stmts[0] + ";\n" + Join(stmts[1..], ";\n");
    }
  }

  /** Trimming a text that ends with a drop list: whatever precedes it is
      trimmed on the left, and the final newline goes. */
  lemma {:induction false} TrimBeforeDrops(x: string, tables: seq<string>)
    requires |tables| >= 1
    ensures Trim(x + DropScript(tables), ScriptTrim)
         == TrimLeft(x, ScriptTrim) + Join(DropStatements(tables), ";\n") + ";"
  {
    var j := Join(DropStatements(tables), ";\n");
    DropListStart(tables);
    assert x + DropScript(tables) == x + (j + ";") + "\n";
    TrimAroundBody(x, j + ";", ScriptTrim);
  }

  /** The drop loop's text alone, trimmed: the statements joined by ";\n" and closed by ";". */
  lemma {:induction false} TrimDropsAlone(tables: seq<string>)
    requires |tables| >= 1
    ensures Trim(DropScript(tables), ScriptTrim) == Join(DropStatements(tables), ";\n") + ";"
  {
    var j := Join(DropStatements(tables), ";\n");
    DropListStart(tables);
    TrimClosedStatements(j, ScriptTrim);
  }

  /** Without tables to create, the script is the drop statements separated
      by ";\n" and closed by ";". */
  lemma GenerateSqlDropsOnly(d: Diff, dumper: Dumper)
    requires |d.create| == 0 && |d.delete| > 0
    ensures GenerateSql(d, dumper) == Ok(Join(DropStatements(d.delete), ";\n") + ";")
  {
    TrimDropsAlone(d.delete);
  }

  /** Without entries to drop, the script is the dump trimmed of spaces and
      newlines at both ends. */
  lemma GenerateSqlCreatesOnly(d: Diff, dumper: Dumper)
    requires |d.create| > 0 && |d.delete| == 0 && dumper(d.create).Ok?
    ensures GenerateSql(d, dumper) == Ok(Trim(dumper(d.create).value, ScriptTrim))
  {
    var dump := dumper(d.create).value;
    assert dump + "\n" + DropScript(d.delete) == dump + "\n";
    if k :| 0 <= k < |dump| && dump[k] !in ScriptTrim {
      TrimLeftAppend(dump, "\n", ScriptTrim, k);
      var l := TrimLeft(dump, ScriptTrim);
      assert (l + "\n")[..|l|] == l;
    } else {
      TrimLeftSkips(dump, "\n", ScriptTrim);
      TrimLeftSkips(dump, "", ScriptTrim);
      assert dump + "" == dump;
    }
  }

  /** With both lists non-empty, the script is the left-trimmed dump and its
      newline, followed by the drop statements in delete order. */
  lemma GenerateSqlCreatesAndDrops(d: Diff, dumper: Dumper)
    requires |d.create| > 0 && |d.delete| > 0 && dumper(d.create).Ok?
    ensures GenerateSql(d, dumper)
         == Ok(TrimLeft(dumper(d.create).value + "\n", ScriptTrim) + Join(DropStatements(d.delete), ";\n") + ";")
  {
    TrimBeforeDrops(dumper(d.create).value + "\n", d.delete);
  }

  /** With the real dumper, a successful script is the compressed
      `mysqldump` output, a newline, and the drop statements. */
  lemma SyncScript(cfg: ConnectionConfig, exec: Exec, d: Diff)
    requires |d.create| > 0 && |d.delete| > 0
    requires GenerateSql(d, t => DumpTables(cfg, exec, t)).Ok?
    requires DumpTables(cfg, exec, d.create).Ok? && DumpTables(cfg, exec, d.create).value != ""
    ensures GenerateSql(d, t => DumpTables(cfg, exec, t))
         == Ok(DumpTables(cfg, exec, d.create).value + "\n" + Join(DropStatements(d.delete), ";\n") + ";")
  {
    var dumper: Dumper := t => DumpTables(cfg, exec, t);
    var dump := DumpTables(cfg, exec, d.create).value;
    assert CompressMySqlDump(dump) == dump;
    CompressedShape(dump);
    GenerateSqlCreatesAndDrops(d, dumper);
    TrimLeftKeeps(dump + "\n", ScriptTrim);
  }

  // ---------------------------------------------------------------------------
  // GenerateDiff
  // ---------------------------------------------------------------------------

  /** `getTableChecksums`: open the connection (a no-op when already open),
      then collect every table's checksum. */
  function GetTableChecksums(conn: Connection, sqlOpen: SqlOpen, query: Query): (r: (Connection, Result<ChecksumMap>))
    ensures r.0 == Open(conn, sqlOpen).0
    ensures Open(conn, sqlOpen).1.Fail? ==> r.1 == Err(Open(conn, sqlOpen).1.error)
    ensures Open(conn, sqlOpen).1.Pass? ==> IsOpened(r.0) && r.1 == TableChecksums(r.0, query)
  {
    var (c, outcome) := Open(conn, sqlOpen);
    match outcome
    case Fail(e) => (c, Err(e))
    case Pass => (c, TableChecksums(c, query))
  }

  /** The master loop: tables missing on the slave or with another checksum there. */
  function CreateList(master: ChecksumMap, slave: ChecksumMap, order: seq<string>): (r: seq<string>)
    requires forall t :: t in order ==> t in master
    ensures forall t :: t in r <==> t in order && (t !in slave || slave[t] != master[t])
    ensures NoDups(order) ==> NoDups(r)
  {
    if |order| == 0 then []
    else
      var t := order[0];
      var rest := CreateList(master, slave, order[1..]);
      if t in slave && slave[t] == master[t] then rest else [t] + rest
  }

  /** Go's `m[k]`: the stored value, or the zero value "" for a missing key. */
  function Lookup(m: ChecksumMap, k: string): string {
    if k in m then m[k] else ""
  }

  /** The slave loop as written: for every slave table absent from the master
      it appends the master lookup `mc`, which is always "". */
  function DeleteListAsWritten(master: ChecksumMap, order: seq<string>): (r: seq<string>)
    ensures |r| == |Absent(master, order)|
    ensures forall i :: 0 <= i < |r| ==> r[i] == ""
  {
    if |order| == 0 then []
    else
      var t := order[0];
      var rest := DeleteListAsWritten(master, order[1..]);
      if t in master then rest else [Lookup(master, t)] + rest
  }

  const MasterPrefix := "master table checksums: "
  const SlavePrefix := "slave table checksums: "

  /** Which collections must come with an iteration order. */
  predicate OrdersFit(master: Result<ChecksumMap>, slave: Result<ChecksumMap>,
                      masterOrder: seq<string>, slaveOrder: seq<string>) {
    && (master.Ok? ==> Enumerates(masterOrder, master.value.Keys))
    && (master.Ok? && slave.Ok? ==> Enumerates(slaveOrder, slave.value.Keys))
  }

  /** `GenerateDiff` as written, given what `getTableChecksums` returned for
      the master and then for the slave. A master failure is reported before
      the slave's result is looked at. */
  function GenerateDiff(master: Result<ChecksumMap>, slave: Result<ChecksumMap>,
                        masterOrder: seq<string>, slaveOrder: seq<string>): (r: Result<Diff>)
    requires OrdersFit(master, slave, masterOrder, slaveOrder)
    ensures master.Err? ==> r == Err(MasterPrefix + master.error)
    ensures master.Ok? && slave.Err? ==> r == Err(SlavePrefix + slave.error)
    ensures r.Ok? <==> master.Ok? && slave.Ok?
    ensures r.Ok? ==> var m, s := master.value, slave.value;
      && (forall t :: t in r.value.create <==> t in m && (t !in s || s[t] != m[t]))
      && NoDups(r.value.create)
      && |r.value.delete| == |s.Keys - m.Keys|
      && (forall i :: 0 <= i < |r.value.delete| ==> r.value.delete[i] == "")
  {
    match master
    case Err(e) => Err(MasterPrefix + e)
    case Ok(m) =>
      match slave
      case Err(e) => Err(SlavePrefix + e)
      case Ok(s) =>
        AbsentCount(m, s, slaveOrder);
        Ok(Diff(CreateList(m, s, masterOrder), DeleteListAsWritten(m, slaveOrder)))
  }

  /** The connections after `GenerateDiff`, and its result. */
  datatype DiffRun = DiffRun(master: Connection, slave: Connection, diff: Result<Diff>)

  /** `GenerateDiff` on the two connections: collect the master's checksums,
      and only if that worked the slave's, then compare. A master failure
      leaves the slave connection untouched. */
  function GenerateDiffOnConnections(masterConn: Connection, slaveConn: Connection, sqlOpen: SqlOpen, query: Query,
                                     masterOrder: seq<string>, slaveOrder: seq<string>): (r: DiffRun)
    requires OrdersFit(GetTableChecksums(masterConn, sqlOpen, query).1, GetTableChecksums(slaveConn, sqlOpen, query).1,
                       masterOrder, slaveOrder)
    ensures var (m, chks) := GetTableChecksums(masterConn, sqlOpen, query);
      && r.master == m
      && (chks.Err? ==> r.slave == slaveConn && r.diff == Err(MasterPrefix + chks.error))
      && (chks.Ok? ==> r.slave == GetTableChecksums(slaveConn, sqlOpen, query).0)
    ensures r.diff == GenerateDiff(GetTableChecksums(masterConn, sqlOpen, query).1,
                                   GetTableChecksums(slaveConn, sqlOpen, query).1, masterOrder, slaveOrder)
  {
    var (m, masterChks) := GetTableChecksums(masterConn, sqlOpen, query);
    match masterChks
    case Err(e) => DiffRun(m, slaveConn, Err(MasterPrefix + e))
    case Ok(_) =>
      var (s, slaveChks) := GetTableChecksums(slaveConn, sqlOpen, query);
      DiffRun(m, s, GenerateDiff(masterChks, slaveChks, masterOrder, slaveOrder))
  }

  /** `GenerateDiff` as intended: the delete list names the slave-only tables. */
  function GenerateDiffFixed(master: Result<ChecksumMap>, slave: Result<ChecksumMap>,
                             masterOrder: seq<string>, slaveOrder: seq<string>): (r: Result<Diff>)
    requires OrdersFit(master, slave, masterOrder, slaveOrder)
    ensures master.Err? ==> r == Err(MasterPrefix + master.error)
    ensures master.Ok? && slave.Err? ==> r == Err(SlavePrefix + slave.error)
    ensures r.Ok? <==> master.Ok? && slave.Ok?
    ensures r.Ok? ==> var m, s := master.value, slave.value;
      && (forall t :: t in r.value.create <==> t in m && (t !in s || s[t] != m[t]))
      && (forall t :: t in r.value.delete <==> t in s && t !in m)
      && NoDups(r.value.create) && NoDups(r.value.delete)
  {
    match master
    case Err(e) => Err(MasterPrefix + e)
    case Ok(m) =>
      match slave
      case Err(e) => Err(SlavePrefix + e)
      case Ok(s) => Ok(Diff(CreateList(m, s, masterOrder), Absent(m, slaveOrder)))
  }

  /** The diff is empty exactly when master and slave hold the same tables
      with the same checksums. */
  lemma GenerateDiffEmptyIff(m: ChecksumMap, s: ChecksumMap, masterOrder: seq<string>, slaveOrder: seq<string>)
    requires Enumerates(masterOrder, m.Keys) && Enumerates(slaveOrder, s.Keys)
    ensures Empty(GenerateDiff(Ok(m), Ok(s), masterOrder, slaveOrder).value) <==> m == s
  {
    var d := GenerateDiff(Ok(m), Ok(s), masterOrder, slaveOrder).value;
    MapsEqualIff(m, s);
    EmptyWhenNoMember(d.create);
    if m == s {
      assert forall t :: t !in d.create;
      assert s.Keys - m.Keys == {};
    }
    if Empty(d) {
      assert forall t :: t in m ==> t in s && s[t] == m[t] by {
        forall t | t in m ensures t in s && s[t] == m[t] {
          assert t !in d.create;
        }
      }
      assert s.Keys - m.Keys == {} by {
        assert |s.Keys - m.Keys| == 0;
      }
      assert forall t :: t in s ==> t in m by {
        forall t | t in s ensures t in m {
          assert t !in s.Keys - m.Keys;
        }
      }
    }
  }

  /** The same holds for the corrected diff. */
  lemma GenerateDiffFixedEmptyIff(m: ChecksumMap, s: ChecksumMap, masterOrder: seq<string>, slaveOrder: seq<string>)
    requires Enumerates(masterOrder, m.Keys) && Enumerates(slaveOrder, s.Keys)
    ensures Empty(GenerateDiffFixed(Ok(m), Ok(s), masterOrder, slaveOrder).value) <==> m == s
  {
    var d := GenerateDiffFixed(Ok(m), Ok(s), masterOrder, slaveOrder).value;
    MapsEqualIff(m, s);
    EmptyWhenNoMember(d.create);
    EmptyWhenNoMember(d.delete);
    if m == s {
      assert forall t :: t !in d.create;
      assert forall t :: t !in d.delete;
    }
    if Empty(d) {
      assert forall t :: t in m ==> t in s && s[t] == m[t] by {
        forall t | t in m ensures t in s && s[t] == m[t] {
          assert t !in d.create;
        }
      }
      assert forall t :: t in s ==> t in m by {
        forall t | t in s ensures t in m {
          assert t !in d.delete;
        }
      }
    }
  }

  /** As written, a slave-only table "users" yields a delete entry "" and the
      script drops the table with the empty name instead of "users". */
  lemma DeleteEntryLosesTableName(dumper: Dumper)
    ensures GenerateDiff(Ok(map[]), Ok(map["users" := "x"]), [], ["users"]) == Ok(Diff([], [""]))
    ensures GenerateSql(Diff([], [""]), dumper) == Ok("drop table if exists ``;")
  {
    assert ["users"][1..] == [];
    assert DeleteListAsWritten(map[], ["users"]) == [""];
    GenerateSqlDropsOnly(Diff([], [""]), dumper);
    assert [""][1..] == [];
    assert DropStatements([""]) == [DropTableStatement("")];
    assert DropTableStatement("") == "drop table if exists ``";
    assert Join(DropStatements([""]), ";\n") == "drop table if exists ``";
    assert "drop table if exists ``" + ";" == "drop table if exists ``;";
  }

  /** Corrected, the same inputs drop the table "users". */
  lemma DeleteEntryNamesTable(dumper: Dumper)
    ensures GenerateDiffFixed(Ok(map[]), Ok(map["users" := "x"]), [], ["users"]) == Ok(Diff([], ["users"]))
    ensures GenerateSql(Diff([], ["users"]), dumper) == Ok("drop table if exists `users`;")
  {
    assert ["users"][1..] == [];
    var none: ChecksumMap := map[];
    assert Absent(none, ["users"]) == ["users"];
    GenerateSqlDropsOnly(Diff([], ["users"]), dumper);
    UsersDropList();
  }

  /** The drop list for the single table "users". */
  lemma UsersDropList()
    ensures Join(DropStatements(["users"]), ";\n") + ";" == "drop table if exists `users`;"
  {
    var stmt := DropTableStatement("users");
    assert DropStatements(["users"]) == [stmt];
    assert stmt == "drop table if exists `users`";
  }
}
