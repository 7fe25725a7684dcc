/** cmd/root.go: the server configuration, its validation, the selection of
    master and slave before a command runs, and the wiring of an SSH tunnel in
    front of a MySQL server.

    Reading the configuration file, name resolution, the SSH agent, the
    private-key loader, home-directory expansion and port allocation are
    inputs. What `Validate` prints to standard error is returned as the list
    of lines it would print.
 */
module Root {
  import opened Results
  import opened MysqlConn
  import opened Tunnel

  datatype SshConfig = SshConfig(host: string, user: string, port: int, key: string)

  datatype ServerConfig = ServerConfig(
    ssh: SshConfig,
    username: string,
    password: string,
    host: string,
    schema: string,
    port: int)

  /** The configuration file's servers and the two chosen for this run. */
  datatype Config = Config(servers: map<string, ServerConfig>, master: ServerConfig, slave: ServerConfig)

  /** `SlaveSSHTunnelIsRequired`: user, host and a positive port are all set,
      so a required tunnel is one the slave's SSH settings mention. */
  predicate SlaveSshTunnelIsRequired(cfg: Config)
    ensures SlaveSshTunnelIsRequired(cfg) ==> SlaveSshMentioned(cfg)
  {
    cfg.slave.ssh.user != "" && cfg.slave.ssh.host != "" && cfg.slave.ssh.port > 0
  }

  /** `MasterSSHTunnelIsRequired`, the same test on the master. */
  predicate MasterSshTunnelIsRequired(cfg: Config)
    ensures MasterSshTunnelIsRequired(cfg) <==> SlaveSshTunnelIsRequired(cfg.(slave := cfg.master))
  {
    cfg.master.ssh.user != "" && cfg.master.ssh.host != "" && cfg.master.ssh.port > 0
  }

  // ---------------------------------------------------------------------------
  // Validate
  // ---------------------------------------------------------------------------

  /** Whether the slave names any SSH setting, which makes all of them required. */
  predicate SlaveSshMentioned(cfg: Config) {
    cfg.slave.ssh.user != "" || cfg.slave.ssh.host != "" || cfg.slave.ssh.port > 0
  }

  /** A server the tool can connect to: credentials, host and schema given, port positive. */
  predicate ServerComplete(s: ServerConfig) {
    s.username != "" && s.password != "" && s.host != "" && s.port > 0 && s.schema != ""
  }

  /** The configuration the tool accepts: both servers complete, and the
      slave's SSH settings either all absent or all present. */
  predicate WellFormed(cfg: Config) {
    && ServerComplete(cfg.master)
    && ServerComplete(cfg.slave)
    && (SlaveSshMentioned(cfg) ==> SlaveSshTunnelIsRequired(cfg))
  }

  /** Whether the configuration passed, and the lines printed on the way. */
  datatype Validation = Validation(valid: bool, messages: seq<string>)

  /** One `if` of `Validate`: when the test fails, print and clear `valid`. */
  function Check(acc: Validation, failing: bool, message: string): Validation {
    if failing then Validation(false, acc.messages + [message]) else acc
  }

  /** The five master tests of `Validate`. */
  function CheckMaster(acc: Validation, m: ServerConfig): Validation {
    var v := Check(acc, m.username == "", "Error: Master username is required");
    var v := Check(v, m.password == "", "Error: Master password is required");
    var v := Check(v, m.host == "", "Error: Master host is required");
    var v := Check(v, m.port <= 0, "Error: Master port is invalid");
    Check(v, m.schema == "", "Error: Master schema is required")
  }

  /** The five slave tests of `Validate`; the first three print the master's messages. */
  function CheckSlave(acc: Validation, s: ServerConfig): Validation {
    var v := Check(acc, s.username == "", "Error: Master username is required");
    var v := Check(v, s.password == "", "Error: Master password is required");
    var v := Check(v, s.host == "", "Error: Master host is required");
    var v := Check(v, s.port <= 0, "Error: Slave port is invalid");
    Check(v, s.schema == "", "Error: Slave schema is required")
  }

  /** The slave SSH tests of `Validate`, run only when some SSH setting is given. */
  function CheckSlaveSsh(acc: Validation, ssh: SshConfig): Validation {
    if ssh.user != "" || ssh.host != "" || ssh.port > 0 then
      var v := Check(acc, ssh.user == "", "Error: Slave SSH user is required");
      var v := Check(v, ssh.host == "", "Error: Slave SSH host is required");
      Check(v, ssh.port <= 0, "Error: Slave SSH port is invalid")
    else acc
  }

  /** `Config.Validate` as written: every test in source order, none skipped. */
  function Validate(cfg: Config): (r: Validation)
    ensures r.valid <==> r.messages == []
    ensures r.valid <==> WellFormed(cfg)
  {
    CheckSlaveSsh(CheckSlave(CheckMaster(Validation(true, []), cfg.master), cfg.slave), cfg.slave.ssh)
  }

  /** The tests of `Validate`, named after what they look at. */
  datatype Field =
    | MasterUsername | MasterPassword | MasterHost | MasterPort | MasterSchema
    | SlaveUsername | SlavePassword | SlaveHost | SlavePort | SlaveSchema
    | SlaveSshUser | SlaveSshHost | SlaveSshPort

  const MasterFields: seq<Field> := [MasterUsername, MasterPassword, MasterHost, MasterPort, MasterSchema]
  const SlaveFields: seq<Field> := [SlaveUsername, SlavePassword, SlaveHost, SlavePort, SlaveSchema]
  const SlaveSshFields: seq<Field> := [SlaveSshUser, SlaveSshHost, SlaveSshPort]

  /** The tests in the order `Validate` runs them. */
  const Fields: seq<Field> := MasterFields + SlaveFields + SlaveSshFields

  /** Whether the test of `f` fails on `cfg`. */
  predicate Fails(cfg: Config, f: Field) {
    match f
    case MasterUsername => cfg.master.username == ""
    case MasterPassword => cfg.master.password == ""
    case MasterHost => cfg.master.host == ""
    case MasterPort => cfg.master.port <= 0
    case MasterSchema => cfg.master.schema == ""
    case SlaveUsername => cfg.slave.username == ""
    case SlavePassword => cfg.slave.password == ""
    case SlaveHost => cfg.slave.host == ""
    case SlavePort => cfg.slave.port <= 0
    case SlaveSchema => cfg.slave.schema == ""
    case SlaveSshUser => SlaveSshMentioned(cfg) && cfg.slave.ssh.user == ""
    case SlaveSshHost => SlaveSshMentioned(cfg) && cfg.slave.ssh.host == ""
    case SlaveSshPort => SlaveSshMentioned(cfg) && cfg.slave.ssh.port <= 0
  }

  /** The message printed for each failing test, naming the server it is about. */
  function Message(f: Field): string {
    match f
    case MasterUsername => "Error: Master username is required"
    case MasterPassword => "Error: Master password is required"
    case MasterHost => "Error: Master host is required"
    case MasterPort => "Error: Master port is invalid"
    case MasterSchema => "Error: Master schema is required"
    case SlaveUsername => "Error: Slave username is required"
    case SlavePassword => "Error: Slave password is required"
    case SlaveHost => "Error: Slave host is required"
    case SlavePort => "Error: Slave port is invalid"
    case SlaveSchema => "Error: Slave schema is required"
    case SlaveSshUser => "Error: Slave SSH user is required"
    case SlaveSshHost => "Error: Slave SSH host is required"
    case SlaveSshPort => "Error: Slave SSH port is invalid"
  }

  /** The message `Validate` prints: `Message`, except that the slave
      username, password and host tests reuse the master's wording. */
  function MessageAsWritten(f: Field): string {
    match f
    case SlaveUsername => Message(MasterUsername)
    case SlavePassword => Message(MasterPassword)
    case SlaveHost => Message(MasterHost)
    case _ => Message(f)
  }

  /** The tests of `fields` that fail on `cfg`, in their order. */
  function Failing(cfg: Config, fields: seq<Field>): (r: seq<Field>)
    ensures |r| <= |fields|
    ensures forall f :: f in r <==> f in fields && Fails(cfg, f)
  {
    if |fields| == 0 then []
    else if Fails(cfg, fields[0]) then [fields[0]] + Failing(cfg, fields[1..])
    else Failing(cfg, fields[1..])
  }

  /** The line printed for each test of `fs`, in order. */
  function Messages(fs: seq<Field>, message: Field -> string): (r: seq<string>)
    ensures |r| == |fs|
    ensures forall i :: 0 <= i < |fs| ==> r[i] == message(fs[i])
  {
    if |fs| == 0 then [] else [message(fs[0])] + Messages(fs[1..], message)
  }

  /** Runs the tests `fields` in order after `acc`, printing `message` of
      each failing one. Nothing is skipped: exactly one line is added per
      failing test, in test order (`RunPrintsEveryFailure`). */
  function Run(acc: Validation, cfg: Config, fields: seq<Field>, message: Field -> string): (r: Validation)
    ensures r.valid <==> acc.valid && forall i :: 0 <= i < |fields| ==> !Fails(cfg, fields[i])
    ensures r.messages == [] <==> acc.messages == [] && forall i :: 0 <= i < |fields| ==> !Fails(cfg, fields[i])
    ensures |acc.messages| <= |r.messages| <= |acc.messages| + |fields|
    decreases |fields|
  {
    if |fields| == 0 then acc
    else Run(Check(acc, Fails(cfg, fields[0]), message(fields[0])), cfg, fields[1..], message)
  }

  /** No test is skipped: the lines printed are those of the failing tests,
      one each, in test order, after the ones already printed. */
  lemma {:induction false} RunPrintsEveryFailure(acc: Validation, cfg: Config, fields: seq<Field>, message: Field -> string)
    ensures Run(acc, cfg, fields, message).messages == acc.messages + Messages(Failing(cfg, fields), message)
    decreases |fields|
  {
    if |fields| > 0 {
      var f := fields[0];
      var rest := fields[1..];
      RunPrintsEveryFailure(Check(acc, Fails(cfg, f), message(f)), cfg, rest, message);
      if Fails(cfg, f) {
        assert Messages(Failing(cfg, fields), message) == [message(f)] + Messages(Failing(cfg, rest), message);
      }
    }
  }

  /** Running the test `f` and then `rest` is running `[f] + rest`. */
  lemma RunCons(acc: Validation, cfg: Config, f: Field, rest: seq<Field>, message: Field -> string)
    ensures Run(acc, cfg, [f] + rest, message) == Run(Check(acc, Fails(cfg, f), message(f)), cfg, rest, message)
  {
    assert ([f] + rest)[1..] == rest;
  }

  /** Tests that all pass print nothing. */
  lemma {:induction false} RunPassing(acc: Validation, cfg: Config, fields: seq<Field>, message: Field -> string)
    requires forall i :: 0 <= i < |fields| ==> !Fails(cfg, fields[i])
    ensures Run(acc, cfg, fields, message) == acc
    decreases |fields|
  {
    if |fields| > 0 {
      RunPassing(acc, cfg, fields[1..], message);
    }
  }

  /** Running `a + b` is running `a`, then `b`. */
  lemma {:induction false} RunAppend(acc: Validation, cfg: Config, a: seq<Field>, b: seq<Field>, message: Field -> string)
    ensures Run(acc, cfg, a + b, message) == Run(Run(acc, cfg, a, message), cfg, b, message)
    decreases |a|
  {
    if |a| > 0 {
      RunCons(acc, cfg, a[0], a[1..] + b, message);
      assert a + b == [a[0]] + (a[1..] + b);
      RunAppend(Check(acc, Fails(cfg, a[0]), message(a[0])), cfg, a[1..], b, message);
    } else {
      assert a + b == b;
    }
  }

  lemma CheckMasterIsRun(acc: Validation, cfg: Config)
    ensures CheckMaster(acc, cfg.master) == Run(acc, cfg, MasterFields, MessageAsWritten)
  {
    var m := MessageAsWritten;
    var v := acc;
    RunCons(v, cfg, MasterUsername, [MasterPassword, MasterHost, MasterPort, MasterSchema], m);
    v := Check(v, Fails(cfg, MasterUsername), m(MasterUsername));
    RunCons(v, cfg, MasterPassword, [MasterHost, MasterPort, MasterSchema], m);
    v := Check(v, Fails(cfg, MasterPassword), m(MasterPassword));
    RunCons(v, cfg, MasterHost, [MasterPort, MasterSchema], m);
    v := Check(v, Fails(cfg, MasterHost), m(MasterHost));
    RunCons(v, cfg, MasterPort, [MasterSchema], m);
    v := Check(v, Fails(cfg, MasterPort), m(MasterPort));
    RunCons(v, cfg, MasterSchema, [], m);
  }

  lemma CheckSlaveIsRun(acc: Validation, cfg: Config)
    ensures CheckSlave(acc, cfg.slave) == Run(acc, cfg, SlaveFields, MessageAsWritten)
  {
    var m := MessageAsWritten;
    var v := acc;
    RunCons(v, cfg, SlaveUsername, [SlavePassword, SlaveHost, SlavePort, SlaveSchema], m);
    v := Check(v, Fails(cfg, SlaveUsername), m(SlaveUsername));
    RunCons(v, cfg, SlavePassword, [SlaveHost, SlavePort, SlaveSchema], m);
    v := Check(v, Fails(cfg, SlavePassword), m(SlavePassword));
    RunCons(v, cfg, SlaveHost, [SlavePort, SlaveSchema], m);
    v := Check(v, Fails(cfg, SlaveHost), m(SlaveHost));
    RunCons(v, cfg, SlavePort, [SlaveSchema], m);
    v := Check(v, Fails(cfg, SlavePort), m(SlavePort));
    RunCons(v, cfg, SlaveSchema, [], m);
  }

  lemma CheckSlaveSshIsRun(acc: Validation, cfg: Config)
    ensures CheckSlaveSsh(acc, cfg.slave.ssh) == Run(acc, cfg, SlaveSshFields, MessageAsWritten)
  {
    var m := MessageAsWritten;
    var v := acc;
    RunCons(v, cfg, SlaveSshUser, [SlaveSshHost, SlaveSshPort], m);
    v := Check(v, Fails(cfg, SlaveSshUser), m(SlaveSshUser));
    RunCons(v, cfg, SlaveSshHost, [SlaveSshPort], m);
    v := Check(v, Fails(cfg, SlaveSshHost), m(SlaveSshHost));
    RunCons(v, cfg, SlaveSshPort, [], m);
  }

  /** `Validate` is the table of tests run in order with the as-written
      messages: it prints the message of every failing test, in source order. */
  lemma ValidateIsRun(cfg: Config)
    ensures Validate(cfg) == Run(Validation(true, []), cfg, Fields, MessageAsWritten)
  {
    var m := MessageAsWritten;
    var v0 := Validation(true, []);
    CheckMasterIsRun(v0, cfg);
    var v1 := CheckMaster(v0, cfg.master);
    CheckSlaveIsRun(v1, cfg);
    var v2 := CheckSlave(v1, cfg.slave);
    CheckSlaveSshIsRun(v2, cfg);
    RunAppend(v0, cfg, MasterFields, SlaveFields, m);
    RunAppend(v0, cfg, MasterFields + SlaveFields, SlaveSshFields, m);
  }

  /** `Validate` prints one line per failing test, in source order, with the
      as-written wording. */
  lemma ValidateMessages(cfg: Config)
    ensures Validate(cfg).messages == Messages(Failing(cfg, Fields), MessageAsWritten)
  {
    ValidateIsRun(cfg);
    RunPrintsEveryFailure(Validation(true, []), cfg, Fields, MessageAsWritten);
  }

  /** `Validate` never looks at the master's SSH settings. */
  lemma ValidateIgnoresMasterSsh(cfg: Config, ssh: SshConfig)
    ensures Validate(cfg.(master := cfg.master.(ssh := ssh))) == Validate(cfg)
  {
  }

  /** A master with only some SSH settings is accepted, and no master tunnel
      is asked for: the master's SSH settings are never validated. */
  lemma PartialMasterSshAccepted(cfg: Config, user: string)
    requires Validate(cfg).valid && user != ""
    ensures var partial := cfg.(master := cfg.master.(ssh := SshConfig("", user, 0, "")));
      Validate(partial).valid && !MasterSshTunnelIsRequired(partial)
  {
    ValidateIgnoresMasterSsh(cfg, SshConfig("", user, 0, ""));
  }

  /** In a valid configuration the slave tunnel is required exactly when any
      slave SSH setting is mentioned. */
  lemma ValidSlaveSshRequiresTunnel(cfg: Config)
    requires Validate(cfg).valid
    ensures SlaveSshTunnelIsRequired(cfg) <==> SlaveSshMentioned(cfg)
  {
  }

  /** How many lines are printed, and the verdict, do not depend on the wording. */
  lemma {:induction false} RunWordingIrrelevant(acc1: Validation, acc2: Validation, cfg: Config,
                                                 fields: seq<Field>, m1: Field -> string, m2: Field -> string)
    requires acc1.valid == acc2.valid && |acc1.messages| == |acc2.messages|
    ensures Run(acc1, cfg, fields, m1).valid == Run(acc2, cfg, fields, m2).valid
    ensures |Run(acc1, cfg, fields, m1).messages| == |Run(acc2, cfg, fields, m2).messages|
    decreases |fields|
  {
    if |fields| > 0 {
      RunWordingIrrelevant(Check(acc1, Fails(cfg, fields[0]), m1(fields[0])),
                           Check(acc2, Fails(cfg, fields[0]), m2(fields[0])), cfg, fields[1..], m1, m2);
    }
  }

  /** `Validate` with each message naming the server it is about: the same
      verdict and one line per failing test. */
  function ValidateFixed(cfg: Config): (r: Validation)
    ensures r.valid <==> r.messages == []
    ensures r.valid <==> WellFormed(cfg)
    ensures r.valid == Validate(cfg).valid
    ensures |r.messages| == |Validate(cfg).messages|
    ensures r.messages == Messages(Failing(cfg, Fields), Message)
  {
    ValidateIsRun(cfg);
    RunWordingIrrelevant(Validation(true, []), Validation(true, []), cfg, Fields, Message, MessageAsWritten);
    RunPrintsEveryFailure(Validation(true, []), cfg, Fields, Message);
    Run(Validation(true, []), cfg, Fields, Message)
  }

  /** Every test is among those `Validate` runs. */
  lemma EveryFieldChecked(f: Field)
    ensures f in Fields
  {
    assert Fields == [MasterUsername, MasterPassword, MasterHost, MasterPort, MasterSchema,
                      SlaveUsername, SlavePassword, SlaveHost, SlavePort, SlaveSchema,
                      SlaveSshUser, SlaveSshHost, SlaveSshPort];
  }

  /** A line is printed for the tests whose message it is. */
  lemma {:induction false} MessageInMessages(fs: seq<Field>, message: Field -> string, g: Field)
    ensures message(g) in Messages(fs, message) <==> exists f :: f in fs && message(f) == message(g)
    decreases |fs|
  {
    if |fs| > 0 {
      MessageInMessages(fs[1..], message, g);
      assert Messages(fs, message) == [message(fs[0])] + Messages(fs[1..], message);
      assert forall f :: f in fs <==> f == fs[0] || f in fs[1..];
    }
  }

  /** The corrected messages are all different. */
  lemma MessageInjective(f: Field, g: Field)
    requires Message(f) == Message(g)
    ensures f == g
  {
  }

  /** Corrected, a line names a test exactly when that test fails: in
      particular a "Master ..." line appears only when the master's own
      setting is at fault. */
  lemma FixedMessageIffFails(cfg: Config, f: Field)
    ensures Message(f) in ValidateFixed(cfg).messages <==> Fails(cfg, f)
  {
    MessageInMessages(Failing(cfg, Fields), Message, f);
    EveryFieldChecked(f);
    forall g | g in Failing(cfg, Fields) && Message(g) == Message(f)
      ensures g == f
    {
      MessageInjective(g, f);
    }
  }

  /** The slave username, password and host tests whose line is the master's. */
  predicate SharesMasterLine(m: Field, sl: Field) {
    || (m == MasterUsername && sl == SlaveUsername)
    || (m == MasterPassword && sl == SlavePassword)
    || (m == MasterHost && sl == SlaveHost)
  }

  /** As written, exactly two tests print the master's line for a shared setting. */
  lemma AsWrittenLineOwners(m: Field, sl: Field, f: Field)
    requires SharesMasterLine(m, sl)
    ensures MessageAsWritten(f) == MessageAsWritten(m) <==> f == m || f == sl
  {
    var h := if f == SlaveUsername then MasterUsername
             else if f == SlavePassword then MasterPassword
             else if f == SlaveHost then MasterHost
             else f;
    assert MessageAsWritten(f) == Message(h);
    if MessageAsWritten(f) == MessageAsWritten(m) {
      MessageInjective(h, m);
    }
  }

  /** As written, the master's username, password or host line is printed
      when the master's setting is missing and also when only the slave's is. */
  lemma MasterLineAsWritten(cfg: Config, m: Field, sl: Field)
    requires SharesMasterLine(m, sl)
    ensures Message(m) in Validate(cfg).messages <==> Fails(cfg, m) || Fails(cfg, sl)
  {
    ValidateMessages(cfg);
    var fs := Failing(cfg, Fields);
    MessageInMessages(fs, MessageAsWritten, m);
    EveryFieldChecked(m);
    EveryFieldChecked(sl);
    forall f | f in fs
      ensures MessageAsWritten(f) == MessageAsWritten(m) <==> f == m || f == sl
    {
      AsWrittenLineOwners(m, sl, f);
    }
  }

  /** The configurations whose only fault is a slave without a username. */
  predicate OnlySlaveUsernameMissing(cfg: Config) {
    && ServerComplete(cfg.master)
    && cfg.slave.username == ""
    && ServerComplete(cfg.slave.(username := "u"))
    && !SlaveSshMentioned(cfg)
  }

  /** A slave without a username is reported as a master without one. */
  lemma SlaveUsernameReportedAsMaster(cfg: Config)
    requires OnlySlaveUsernameMissing(cfg)
    ensures Validate(cfg).messages == ["Error: Master username is required"]
  {
  }

  lemma MasterFieldsPass(acc: Validation, cfg: Config, message: Field -> string)
    requires ServerComplete(cfg.master)
    ensures Run(acc, cfg, MasterFields, message) == acc
  {
    assert forall i :: 0 <= i < |MasterFields| ==> !Fails(cfg, MasterFields[i]);
    RunPassing(acc, cfg, MasterFields, message);
  }

  lemma SlaveSshFieldsPass(acc: Validation, cfg: Config, message: Field -> string)
    requires !SlaveSshMentioned(cfg)
    ensures Run(acc, cfg, SlaveSshFields, message) == acc
  {
    assert forall i :: 0 <= i < |SlaveSshFields| ==> !Fails(cfg, SlaveSshFields[i]);
    RunPassing(acc, cfg, SlaveSshFields, message);
  }

  lemma SlaveFieldsOnlyUsername(acc: Validation, cfg: Config, message: Field -> string)
    requires cfg.slave.username == "" && ServerComplete(cfg.slave.(username := "u"))
    ensures Run(acc, cfg, SlaveFields, message) == Check(acc, true, message(SlaveUsername))
  {
    var rest := [SlavePassword, SlaveHost, SlavePort, SlaveSchema];
    assert forall i :: 0 <= i < |rest| ==> !Fails(cfg, rest[i]);
    assert SlaveFields == [SlaveUsername] + rest;
    RunCons(acc, cfg, SlaveUsername, rest, message);
    RunPassing(Check(acc, true, message(SlaveUsername)), cfg, rest, message);
  }

  /** With the corrected wording, the same run prints the slave's message. */
  lemma FixedRunOnSlaveUsername(cfg: Config)
    requires OnlySlaveUsernameMissing(cfg)
    ensures Run(Validation(true, []), cfg, Fields, Message) == Validation(false, ["Error: Slave username is required"])
  {
    var v0 := Validation(true, []);
    MasterFieldsPass(v0, cfg, Message);
    SlaveFieldsOnlyUsername(v0, cfg, Message);
    var v1 := Check(v0, true, Message(SlaveUsername));
    SlaveSshFieldsPass(v1, cfg, Message);
    RunAppend(v0, cfg, MasterFields, SlaveFields, Message);
    RunAppend(v0, cfg, MasterFields + SlaveFields, SlaveSshFields, Message);
  }

  /** The corrected messages tell the slave's missing username apart from the master's. */
  lemma SlaveUsernameReportedAsSlave(cfg: Config)
    requires OnlySlaveUsernameMissing(cfg)
    ensures ValidateFixed(cfg).messages == ["Error: Slave username is required"]
  {
    FixedRunOnSlaveUsername(cfg);
  }

  // ---------------------------------------------------------------------------
  // PersistentPreRunE
  // ---------------------------------------------------------------------------

  /** The configuration after the pre-run hook, what it printed, and its error. */
  datatype PreRun = PreRun(config: Config, printed: seq<string>, outcome: Outcome)

  /** The root command's `PersistentPreRunE` with master and slave names
      `masterName` and `slaveName`: look up the master, then the slave,
      storing each as it is found, then validate. */
  function PersistentPreRun(cfg: Config, masterName: string, slaveName: string): (r: PreRun)
    ensures masterName !in cfg.servers ==>
      r == PreRun(cfg, [], Fail("master server name not found in config file"))
    ensures masterName in cfg.servers ==> r.config.master == cfg.servers[masterName]
    ensures masterName in cfg.servers && slaveName !in cfg.servers ==>
      r == PreRun(cfg.(master := cfg.servers[masterName]), [], Fail("slave server name not found in config file"))
    ensures masterName in cfg.servers && slaveName in cfg.servers ==>
      && r.config == cfg.(master := cfg.servers[masterName], slave := cfg.servers[slaveName])
      && (r.outcome == Pass <==> WellFormed(r.config))
      && (r.outcome.Fail? ==> r.outcome.error == "invalid config")
      && r.printed == Validate(r.config).messages
    ensures r.config.servers == cfg.servers
  {
    if masterName !in cfg.servers then
      PreRun(cfg, [], Fail("master server name not found in config file"))
    else
      var cfg := cfg.(master := cfg.servers[masterName]);
      if slaveName !in cfg.servers then
        PreRun(cfg, [], Fail("slave server name not found in config file"))
      else
        var cfg := cfg.(slave := cfg.servers[slaveName]);
        var v := Validate(cfg);
        if !v.valid then PreRun(cfg, v.messages, Fail("invalid config"))
        else PreRun(cfg, v.messages, Pass)
  }

  /** A successful pre-run leaves master and slave set to the named servers,
      both complete, having printed nothing. */
  lemma PreRunSuccess(cfg: Config, masterName: string, slaveName: string)
    requires PersistentPreRun(cfg, masterName, slaveName).outcome == Pass
    ensures var r := PersistentPreRun(cfg, masterName, slaveName);
      && masterName in cfg.servers && slaveName in cfg.servers
      && r.config.master == cfg.servers[masterName]
      && r.config.slave == cfg.servers[slaveName]
      && WellFormed(r.config)
      && r.printed == []
  {
  }

  // ---------------------------------------------------------------------------
  // Authentication and tunnels
  // ---------------------------------------------------------------------------

  /** `SSHConfig.CreateAuthMethod`. Without a key file the SSH agent is used
      (`agent` is what creating the agent method gave); otherwise the key
      path is home-expanded and the key loaded. Each failure gets its own
      prefix. */
  function CreateAuthMethod(ssh: SshConfig, agent: Result<AuthMethod>,
                            expandHome: string -> Result<string>,
                            loadKey: string -> Result<AuthMethod>): (r: Result<AuthMethod>)
    ensures ssh.key == "" ==>
      r == (if agent.Ok? then Ok(agent.value) else Err("ssh agent auth method: " + agent.error))
    ensures ssh.key != "" && expandHome(ssh.key).Err? ==>
      r == Err("error expanding home dir: " + expandHome(ssh.key).error)
    ensures ssh.key != "" && expandHome(ssh.key).Ok? ==>
      var file := expandHome(ssh.key).value;
      r == (if loadKey(file).Ok? then Ok(loadKey(file).value)
            else Err("public key auth method: " + loadKey(file).error))
  {
    if ssh.key == "" then
      match agent
      case Err(e) => Err("ssh agent auth method: " + e)
      case Ok(a) => Ok(a)
    else
      match expandHome(ssh.key)
      case Err(e) => Err("error expanding home dir: " + e)
      case Ok(file) =>
        match loadKey(file)
        case Err(e) => Err("public key auth method: " + e)
        case Ok(a) => Ok(a)
  }

  /** The agent is consulted exactly when no key file is configured. */
  lemma AuthMethodSources(ssh: SshConfig, agent1: Result<AuthMethod>, agent2: Result<AuthMethod>,
                          expand1: string -> Result<string>, expand2: string -> Result<string>,
                          load1: string -> Result<AuthMethod>, load2: string -> Result<AuthMethod>)
    ensures ssh.key == "" ==>
      CreateAuthMethod(ssh, agent1, expand1, load1) == CreateAuthMethod(ssh, agent1, expand2, load2)
    ensures ssh.key != "" ==>
      CreateAuthMethod(ssh, agent1, expand1, load1) == CreateAuthMethod(ssh, agent2, expand1, load1)
  {
  }

  /** The tunnel `startSSHTunnel` builds, and the MySQL settings after it. */
  datatype Started = Started(mysqlCfg: ConnectionConfig, tunnel: Result<SshTunnel>)

  /** `startSSHTunnel(mysqlCfg, sshCfg)` as written: the SSH server's host
      comes from `sshCfg`, but its port and user always come from the slave's
      SSH settings in the global configuration `cfg`. Once the tunnel is up,
      the MySQL settings point at its local port. */
  function StartTunnel(cfg: Config, mysqlCfg: ConnectionConfig, sshCfg: SshConfig,
                       agent: Result<AuthMethod>, expandHome: string -> Result<string>,
                       loadKey: string -> Result<AuthMethod>, freePort: Result<int>): (r: Started)
    ensures CreateAuthMethod(sshCfg, agent, expandHome, loadKey).Err? ==>
      r == Started(mysqlCfg, Err(CreateAuthMethod(sshCfg, agent, expandHome, loadKey).error))
    ensures CreateAuthMethod(sshCfg, agent, expandHome, loadKey).Ok? && freePort.Err? ==>
      r == Started(mysqlCfg, Err(freePort.error))
    ensures CreateAuthMethod(sshCfg, agent, expandHome, loadKey).Ok? && freePort.Ok? ==>
      r.tunnel.Ok? && r.mysqlCfg == mysqlCfg.(port := freePort.value)
    ensures r.tunnel.Ok? ==>
      var t := r.tunnel.value;
      && t.server == Endpoint(sshCfg.host, cfg.slave.ssh.port, cfg.slave.ssh.user)
      && t.remote == Endpoint(mysqlCfg.host, mysqlCfg.port, "")
      && LocalHost(t) == "localhost"
      && LocalPort(t) == freePort.value
      && r.mysqlCfg == mysqlCfg.(port := LocalPort(t))
      && t.cfg.user == cfg.slave.ssh.user
      && t.cfg.auth == [CreateAuthMethod(sshCfg, agent, expandHome, loadKey).value]
  {
    TunnelFrom(mysqlCfg, Endpoint(sshCfg.host, cfg.slave.ssh.port, cfg.slave.ssh.user),
               CreateAuthMethod(sshCfg, agent, expandHome, loadKey), freePort)
  }

  /** The shared tail of `startSSHTunnel`: authenticate, start, repoint. */
  function TunnelFrom(mysqlCfg: ConnectionConfig, server: Endpoint, auth: Result<AuthMethod>,
                      freePort: Result<int>): (r: Started)
    ensures auth.Err? ==> r == Started(mysqlCfg, Err(auth.error))
    ensures auth.Ok? && freePort.Err? ==> r == Started(mysqlCfg, Err(freePort.error))
    ensures r.tunnel.Ok? <==> auth.Ok? && freePort.Ok?
    ensures r.tunnel.Ok? ==>
      var t := r.tunnel.value;
      && t.server == server
      && t.remote == Endpoint(mysqlCfg.host, mysqlCfg.port, "")
      && LocalHost(t) == "localhost"
      && LocalPort(t) == freePort.value
      && r.mysqlCfg == mysqlCfg.(port := LocalPort(t))
      && t.cfg.user == server.user
      && t.cfg.auth == [auth.value]
  {
    var local := Endpoint("localhost", 0, "");
    var remote := Endpoint(mysqlCfg.host, mysqlCfg.port, "");
    match auth
    case Err(e) => Started(mysqlCfg, Err(e))
    case Ok(a) =>
      match StartSshTunnel(local, server, remote, a, freePort)
      case Err(e) => Started(mysqlCfg, Err(e))
      case Ok(t) => Started(mysqlCfg.(port := LocalPort(t)), Ok(t))
  }

  /** The master's tunnel logs in to the master's SSH host on the slave's SSH
      port as the slave's SSH user. */
  lemma MasterTunnelUsesSlaveAccount(mysqlCfg: ConnectionConfig, expandHome: string -> Result<string>,
                                     loadKey: string -> Result<AuthMethod>)
    ensures var master := ServerConfig(SshConfig("bastion-m", "alice", 22, ""), "u", "p", "db-m", "s", 3306);
            var slave := ServerConfig(SshConfig("bastion-s", "bob", 2222, ""), "u", "p", "db-s", "s", 3306);
            var cfg := Config(map[], master, slave);
            var r := StartTunnel(cfg, mysqlCfg, cfg.master.ssh, Ok(AgentAuth), expandHome, loadKey, Ok(40000));
            && r.tunnel.Ok?
            && r.tunnel.value.server == Endpoint("bastion-m", 2222, "bob")
            && r.tunnel.value.cfg.user == "bob"
  {
  }

  /** `startSSHTunnel` taking the whole SSH server endpoint from `sshCfg`. */
  function StartTunnelFixed(mysqlCfg: ConnectionConfig, sshCfg: SshConfig,
                            agent: Result<AuthMethod>, expandHome: string -> Result<string>,
                            loadKey: string -> Result<AuthMethod>, freePort: Result<int>): (r: Started)
    ensures r.tunnel.Ok? <==> CreateAuthMethod(sshCfg, agent, expandHome, loadKey).Ok? && freePort.Ok?
    ensures r.tunnel.Ok? ==>
      && r.tunnel.value.server == Endpoint(sshCfg.host, sshCfg.port, sshCfg.user)
      && r.tunnel.value.cfg.user == sshCfg.user
      && r.mysqlCfg == mysqlCfg.(port := freePort.value)
  {
    TunnelFrom(mysqlCfg, Endpoint(sshCfg.host, sshCfg.port, sshCfg.user),
               CreateAuthMethod(sshCfg, agent, expandHome, loadKey), freePort)
  }

  /** For the slave's own tunnel the written and corrected versions agree. */
  lemma SlaveTunnelUnaffected(cfg: Config, mysqlCfg: ConnectionConfig,
                              agent: Result<AuthMethod>, expandHome: string -> Result<string>,
                              loadKey: string -> Result<AuthMethod>, freePort: Result<int>)
    ensures var a := StartTunnel(cfg, mysqlCfg, cfg.slave.ssh, agent, expandHome, loadKey, freePort);
            var b := StartTunnelFixed(mysqlCfg, cfg.slave.ssh, agent, expandHome, loadKey, freePort);
            a.mysqlCfg == b.mysqlCfg && a.tunnel.Ok? == b.tunnel.Ok?
            && (a.tunnel.Ok? ==> a.tunnel.value.server == b.tunnel.value.server)
  {
  }

  // ---------------------------------------------------------------------------
  // Connection settings
  // ---------------------------------------------------------------------------

  /** `CreateMasterConnectionConfig` / `CreateSlaveConnectionConfig` for
      `server`, given what resolving its host gave; a resolution error is the
      panic. */
  function CreateConnectionConfig(server: ServerConfig, ip: Result<string>): (r: Result<ConnectionConfig>)
    ensures r.Err? <==> ip.Err?
    ensures r.Err? ==> r.error == ip.error
    ensures r.Ok? ==>
      && r.value.host == ip.value
      && r.value.username == server.username
      && r.value.password == server.password
      && r.value.port == server.port
      && r.value.schema == server.schema
  {
    match ip
    case Err(e) => Err(e)
    case Ok(addr) => Ok(ConnectionConfig(server.username, server.password, server.port, addr, server.schema))
  }
}
