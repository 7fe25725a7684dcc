/** internal/database/mysql/util.go, with the two thin wrappers that use it
    (dump.go and importer.go): drop statements, the argument vectors handed to
    the `mysqldump` and `mysql` clients, and the dump compressor.

    Running a client is an oracle from its argument vector (and, for `mysql`,
    its standard input) to its standard output or an error message; locating
    the executable is part of that oracle.
 */
module MysqlUtil {
  import opened Results
  import opened Text
  import opened MysqlConn

  // ---------------------------------------------------------------------------
  // Drop statements
  // ---------------------------------------------------------------------------

  const DropPrefix := "drop table if exists "

  /** `generateDropTableStatement`: drop a table by its backquoted name, which
      can be read back from the statement. */
  function DropTableStatement(table: string): (r: string)
    ensures r == DropPrefix + Quote(table)
    ensures DroppedTable(r) == Some(table)
  {
    var stmt := "drop table if exists `" + table + "`";
    var n := |DropPrefix| + 1;
    assert stmt == (DropPrefix + "`") + table + "`";
    assert stmt[..n] == DropPrefix + "`";
    assert stmt[n..|stmt| - 1] == table;
    stmt
  }

  /** Reads the table name back out of a drop statement. */
  function DroppedTable(stmt: string): Option<string>
  {
    var n := |DropPrefix| + 1;
    if |stmt| > n && stmt[..n] == DropPrefix + "`" && stmt[|stmt| - 1] == '`'
    then Some(stmt[n..|stmt| - 1])
    else None
  }

  /** The drop statement names exactly the table it was built for. */
  lemma DropTableRoundTrip(table: string)
    ensures DroppedTable(DropTableStatement(table)) == Some(table)
  {
  }

  // ---------------------------------------------------------------------------
  // Client argument vectors
  // ---------------------------------------------------------------------------

  /** The eight arguments both clients receive: host, port, user, password and
      schema, the password glued to its `-p` flag. */
  function ConnectionArgs(username: string, password: string, host: string, port: int, schema: string): seq<string>
  {
    ["-h", host, "-P", Itoa(port), "-u", username, "-p" + password, schema]
  }

  /** The argument vector of `mysqldump` in `mysqlDump`: the connection
      arguments followed by the tables to dump. */
  function DumpArgs(username: string, password: string, host: string, port: int, schema: string,
                    tables: seq<string>): (r: seq<string>)
    ensures |r| == 8 + |tables|
    ensures r[..8] == ImportArgs(username, password, host, port, schema)
    ensures r[8..] == tables
  {
    ConnectionArgs(username, password, host, port, schema) + tables
  }

  /** The argument vector of `mysql` in `mysqlImport`: no tables. */
  function ImportArgs(username: string, password: string, host: string, port: int, schema: string): (r: seq<string>)
    ensures |r| == 8
  {
    ConnectionArgs(username, password, host, port, schema)
  }

  /** What a client learns from its argument vector. */
  datatype Invocation = Invocation(
    username: string, password: string, host: string, port: int, schema: string, tables: seq<string>)

  /** Reads a client argument vector the way the clients do for these flags. */
  function ParseArgs(args: seq<string>): Option<Invocation>
  {
    if |args| >= 8 && args[0] == "-h" && args[2] == "-P" && args[4] == "-u" && HasPrefix(args[6], "-p")
    then
      match ParseInt(args[3])
      case None => None
      case Some(port) => Some(Invocation(args[5], args[6][2..], args[1], port, args[7], args[8..]))
    else None
  }

  /** `mysqldump` reads back every setting and exactly the requested tables. */
  lemma DumpArgsRoundTrip(username: string, password: string, host: string, port: int, schema: string,
                          tables: seq<string>)
    ensures ParseArgs(DumpArgs(username, password, host, port, schema, tables))
         == Some(Invocation(username, password, host, port, schema, tables))
  {
    ItoaRoundTrip(port);
    var args := DumpArgs(username, password, host, port, schema, tables);
    assert args[6] == "-p" + password;
    assert args[6][2..] == password;
  }

  /** `mysql` reads back every setting and no table names. */
  lemma ImportArgsRoundTrip(username: string, password: string, host: string, port: int, schema: string)
    ensures ParseArgs(ImportArgs(username, password, host, port, schema))
         == Some(Invocation(username, password, host, port, schema, []))
  {
    ItoaRoundTrip(port);
    var args := ImportArgs(username, password, host, port, schema);
    assert args[6] == "-p" + password;
    assert args[6][2..] == password;
    assert args[8..] == [];
  }

  // ---------------------------------------------------------------------------
  // compressMySQLDump
  // ---------------------------------------------------------------------------

  const Spaces: set<char> := {' '}

  /** A trimmed line that the compressor throws away: blank or a `--` comment. */
  predicate Discarded(line: string) {
    HasPrefix(line, "--") || line == ""
  }

  /** A line as the compressor emits it. */
  predicate CleanLine(line: string) {
    && !Discarded(line)
    && '\n' !in line
    && line[0] != ' ' && line[|line| - 1] != ' '
  }

  /** The compressor's loop over the input lines: trim spaces, drop blanks and
      comments, keep the rest in order. */
  function KeptLines(lines: seq<string>): (r: seq<string>)
    requires forall i :: 0 <= i < |lines| ==> '\n' !in lines[i]
    ensures |r| <= |lines|
    ensures forall i :: 0 <= i < |r| ==> CleanLine(r[i])
  {
    if |lines| == 0 then []
    else
      var line := Trim(lines[0], Spaces);
      assert '\n' !in line by {
        var k := TrimIsSlice(lines[0], Spaces);
      }
      if Discarded(line) then KeptLines(lines[1..])
      else [line] + KeptLines(lines[1..])
  }

  /** `compressMySQLDump`. The lines of the result are exactly the kept lines
      of the input, and a dump with nothing to keep compresses to "". */
  function CompressMySqlDump(sql: string): (r: string)
    ensures KeptLines(Split(sql, '\n')) == [] ==> r == ""
    ensures KeptLines(Split(sql, '\n')) != [] ==> Split(r, '\n') == KeptLines(Split(sql, '\n'))
  {
    var kept := KeptLines(Split(sql, '\n'));
    if kept == [] then Join(kept, "\n")
    else
      SplitJoin(kept, '\n');
      Join(kept, "\n")
  }

  /** The kept lines of one input line: its trimmed text unless that is blank
      or a comment. */
  lemma KeptLinesOne(line: string)
    requires '\n' !in line
    ensures KeptLines([line]) == (if Discarded(Trim(line, Spaces)) then [] else [Trim(line, Spaces)])
  {
    assert [line][1..] == [];
  }

  /** The compressor handles each line on its own, in order: the kept lines of
      a concatenation are the concatenation of the kept lines. */
  lemma {:induction false} KeptLinesAppend(a: seq<string>, b: seq<string>)
    requires forall i :: 0 <= i < |a| ==> '\n' !in a[i]
    requires forall i :: 0 <= i < |b| ==> '\n' !in b[i]
    ensures KeptLines(a + b) == KeptLines(a) + KeptLines(b)
  {
    if |a| == 0 {
      assert a + b == b;
    } else {
      assert (a + b)[0] == a[0];
      assert (a + b)[1..] == a[1..] + b;
      KeptLinesAppend(a[1..], b);
    }
  }

  /** A clean line survives trimming unchanged. */
  lemma CleanLineTrim(line: string)
    requires CleanLine(line)
    ensures Trim(line, Spaces) == line
  {
  }

  /** Lines that are already clean are kept as they are. */
  lemma {:induction false} KeptLinesOfClean(lines: seq<string>)
    requires forall i :: 0 <= i < |lines| ==> '\n' !in lines[i]
    requires forall i :: 0 <= i < |lines| ==> CleanLine(lines[i])
    ensures KeptLines(lines) == lines
  {
    if |lines| > 0 {
      CleanLineTrim(lines[0]);
      KeptLinesOfClean(lines[1..]);
    }
  }

  /** Joining clean lines with single newlines: no empty line, no line that
      begins or ends with a space, no newline at either end. */
  lemma {:induction false} JoinCleanShape(lines: seq<string>)
    requires forall i :: 0 <= i < |lines| ==> CleanLine(lines[i])
    ensures var r := Join(lines, "\n");
      && (r == "" <==> lines == [])
      && (r != "" ==> r[0] !in {' ', '\n'} && r[|r| - 1] !in {' ', '\n'})
      && (forall i :: 0 <= i < |r| && r[i] == '\n' ==>
            0 < i < |r| - 1 && r[i - 1] !in {' ', '\n'} && r[i + 1] !in {' ', '\n'})
  {
    if |lines| > 1 {
      JoinCleanShape(lines[1..]);
      var head := lines[0];
      var rest := Join(lines[1..], "\n");
      var r := Join(lines, "\n");
      assert r == head + "\n" + rest;
      forall i | 0 <= i < |r| && r[i] == '\n'
        ensures 0 < i < |r| - 1 && r[i - 1] !in {' ', '\n'} && r[i + 1] !in {' ', '\n'}
      {
        if i < |head| {
          assert false;
        } else if i == |head| {
          assert r[i + 1] == rest[0];
          assert r[i - 1] == head[|head| - 1];
        } else {
          assert r[i] == rest[i - |head| - 1];
          if i - |head| - 1 > 0 {
            assert r[i - 1] == rest[i - |head| - 2];
          }
          assert r[i + 1] == rest[i - |head|];
        }
      }
    } else if |lines| == 1 {
      var r := lines[0];
      assert Join(lines, "\n") == r;
    }
  }

  /** The compressed dump never holds a blank line, never starts or ends with
      a newline or a space, and no line in it starts or ends with a space. */
  lemma CompressedShape(sql: string)
    ensures var r := CompressMySqlDump(sql);
      && (r != "" ==> r[0] !in {' ', '\n'} && r[|r| - 1] !in {' ', '\n'})
      && (forall i :: 0 <= i < |r| && r[i] == '\n' ==>
            0 < i < |r| - 1 && r[i - 1] !in {' ', '\n'} && r[i + 1] !in {' ', '\n'})
  {
    JoinCleanShape(KeptLines(Split(sql, '\n')));
  }

  /** Only spaces are trimmed: a tab before and a carriage return after the
      text of a line survive compression. */
  lemma TabsAndCarriageReturnsSurvive(text: string)
    requires CleanLine(text)
    ensures CompressMySqlDump("\t" + text + "\r") == "\t" + text + "\r"
  {
    var line := "\t" + text + "\r";
    assert CleanLine(line) by {
      assert line[0] == '\t' && line[|line| - 1] == '\r';
      assert '\n' !in line by {
        assert forall i :: 0 <= i < |line| ==> line[i] == '\t' || line[i] == '\r' || line[i] in text;
      }
      assert !HasPrefix(line, "--");
    }
    SplitNoSeparator(line, '\n');
    KeptLinesOfClean([line]);
  }

  /** Compressing a compressed dump changes nothing. */
  lemma CompressIdempotent(sql: string)
    ensures CompressMySqlDump(CompressMySqlDump(sql)) == CompressMySqlDump(sql)
  {
    var kept := KeptLines(Split(sql, '\n'));
    if kept == [] {
      assert Split("", '\n') == [""];
      assert KeptLines([""]) == [];
    } else {
      KeptLinesOfClean(kept);
    }
  }

  // ---------------------------------------------------------------------------
  // Dumper and Importer (dump.go, importer.go)
  // ---------------------------------------------------------------------------

  /** Running a client without input: its standard output or an error message. */
  type Exec = seq<string> -> Result<string>

  /** Running a client with the given standard input. */
  type ExecWithInput = (seq<string>, string) -> Result<string>

  /** `Dumper.DumpTables`: run `mysqldump` for the tables and compress its output. */
  function DumpTables(cfg: ConnectionConfig, exec: Exec, tables: seq<string>): (r: Result<string>)
    ensures var run := exec(DumpArgs(cfg.username, cfg.password, cfg.host, cfg.port, cfg.schema, tables));
      && (run.Err? ==> r == run)
      && (run.Ok? ==> r == Ok(CompressMySqlDump(run.value)))
      && (run.Ok? ==> r.Ok? && CompressMySqlDump(r.value) == r.value)
  {
    match exec(DumpArgs(cfg.username, cfg.password, cfg.host, cfg.port, cfg.schema, tables))
    case Err(e) => Err(e)
    case Ok(out) =>
      CompressIdempotent(out);
      Ok(CompressMySqlDump(out))
  }

  /** `Importer.Import`: feed the script to `mysql`; only its failure matters. */
  function Import(cfg: ConnectionConfig, exec: ExecWithInput, dump: string): (r: Outcome)
    ensures var run := exec(ImportArgs(cfg.username, cfg.password, cfg.host, cfg.port, cfg.schema), dump);
      r.Pass? <==> run.Ok?
    ensures r.Fail? ==> r.error == exec(ImportArgs(cfg.username, cfg.password, cfg.host, cfg.port, cfg.schema), dump).error
  {
    match exec(ImportArgs(cfg.username, cfg.password, cfg.host, cfg.port, cfg.schema), dump)
    case Err(e) => Fail(e)
    case Ok(_) => Pass
  }
}
