# dbsync in Dafny

dbsync keeps a MySQL "slave" schema in step with a "master" schema. For each
server it computes a checksum per table, compares the two maps, and builds a
script that re-creates changed tables from a `mysqldump` of the master and drops
tables the master no longer has. A separate watcher samples one server's
checksums periodically and reports created, updated and deleted tables. The
command layer reads a configuration of named servers and validates it.
Optionally it reaches a server through an SSH tunnel.

This project models the deterministic core of that program as pure Dafny
functions and proves properties about it:

- `Watcher` (internal/watcher/watcher.go): the three-way diff of two checksum
  maps, and one iteration of the watch loop as a step function.
- `MysqlDiff` (internal/database/mysql/diff.go): the master/slave diff and the
  assembly of the synchronisation script.
- `MysqlUtil` (internal/database/mysql/util.go, dump.go, importer.go): the
  dump compressor, the drop statement, and the argument vectors given to
  `mysqldump` and `mysql`.
- `MysqlConn` (internal/database/mysql/mysql.go): the open/close state of a
  connection, the checksum query text, and the all-or-nothing collection of
  table checksums.
- `Tunnel` (internal/tunnel/ssh.go): endpoint formatting and how a tunnel's
  endpoints and client configuration are wired together.
- `Root` (cmd/root.go): configuration validation, the pre-run server lookup,
  the choice of SSH authentication method, and the rewiring of MySQL settings
  onto a tunnel.
- Shared helpers: `Results` (Go's `(value, error)` pairs as `Result`,
  `Outcome` and `Option`), `Text` (the `strings` functions used, decimal
  formatting and parsing), and `Lists` (duplicate-free lists, map iteration
  orders).

Go errors are modelled by their message text. Everything the program gets
from outside is a parameter of the function that uses it:

- the database: `sql.Open`, `db.Query` with its row scans, and `db.Close`;
- the external `mysqldump` and `mysql` processes;
- the free local port;
- the SSH agent, home-directory expansion and key loading;
- the resolved IP address of a server.

Go ranges over maps in an unspecified order. Every function that loops over a
map therefore takes the iteration order as a list. It requires only that the
list visits each key exactly once, and every property is proved for all such
orders.

Where the code departs from what it evidently intends, the model follows the code:

- the watcher never updates its baseline;
- the delete list of the master/slave diff holds empty strings;
- the slave checks print "Master" messages;
- the master tunnel uses the slave's SSH port and user.

Each of these is logged under "## Findings", next to a corrected twin that is
proved to have the intended property. For the slave messages the corrected
wording is proved for every check: a message is printed exactly when its own
check fails (`Root.FixedMessageIffFails`).

## Model

| member | source | states |
|---|---|---|
| Lists.Absent | internal/watcher/watcher.go:64-69 | the loop that skips keys another map has: an entry of the order is kept exactly when the other map lacks it, and no entry is kept twice; it gives the watcher's created and deleted lists and the corrected delete list |
| Watcher.UpdatedIn | internal/watcher/watcher.go:58-61 | a table is listed as updated exactly when both samples have it with different checksums; no table is listed twice |
| Lists.AbsentFromEmpty | internal/watcher/watcher.go:52-57 | against an empty map nothing is skipped: every table of the new sample is created, in iteration order |
| Watcher.NewDiff | internal/watcher/watcher.go:45-72 | for every iteration order, the created, updated and deleted lists are exactly the set differences and changed keys of the two maps, each without duplicates |
| Watcher.NewDiffPartition | internal/watcher/watcher.go:52-69 | a table in either sample lands in exactly one of the three lists, or in none when its checksum is unchanged |
| Watcher.NewDiffEmptyIff | internal/watcher/watcher.go:75-77 | the diff is empty if and only if the two checksum maps are equal |
| Watcher.NewDiffSelf | internal/watcher/watcher.go:75-77 | diffing a map with itself gives an empty diff, whatever the two iteration orders |
| Watcher.Empty | internal/watcher/watcher.go:75-77 | a diff is empty exactly when it is the diff with no updated, created or deleted table |
| Watcher.UpdatedInNone | internal/watcher/watcher.go:58-61 | against an empty old sample nothing is updated |
| Watcher.NewDiffColdStart | internal/watcher/watcher.go:45-72 | against an empty old sample the diff lists all new tables as created and nothing as updated or deleted |
| Watcher.ExampleUpdateAndCreate | internal/watcher/watcher.go:45-72 | a changed checksum is an update and a new table is a creation, while an unchanged table is not reported |
| Watcher.ExampleDelete | internal/watcher/watcher.go:64-69 | a table that disappears is reported as deleted |
| Watcher.Tick | internal/watcher/watcher.go:87-103 | one iteration as written: the baseline is never replaced; a failed collection sends exactly its error; a diff is sent exactly when the sample differs from the baseline |
| Watcher.TickAsWritten | internal/watcher/watcher.go:87-103 | from the initial state a failure sends its error, an empty schema sends nothing, and any other schema is sent with every table as created |
| Watcher.UnchangedTablesReportedEveryTick | internal/watcher/watcher.go:87-103 | sampling the same non-empty schema twice sends the same all-created diff both times |
| Watcher.TickFixed | internal/watcher/watcher.go:87-103 | one iteration with the baseline replaced by every successful sample and kept on a failure; it sends the diff against the previous sample when there is a difference |
| Watcher.RepeatedSampleIsQuiet | internal/watcher/watcher.go:98-103 | with the baseline kept up to date, sampling the same checksums twice sends nothing the second time |
| Watcher.FailedTickKeepsBaseline | internal/watcher/watcher.go:92-96 | a failed collection sends its error and the next successful tick behaves as if the failure had not happened |
| Watcher.FixedColdStart | internal/watcher/watcher.go:87-103 | the first successful tick reports every table as created and stores the sample as the baseline |
| MysqlDiff.DropStatements | internal/database/mysql/diff.go:37-39 | one drop statement per table, in order, each naming its table |
| MysqlDiff.GenerateSql | internal/database/mysql/diff.go:21-42 | an empty diff fails with "diff empty"; a dumper failure is returned with the "Generate SQL: " prefix; a successful script neither starts nor ends with a space or newline |
| MysqlDiff.GenerateSqlDumperUse | internal/database/mysql/diff.go:27-35 | the dumper is consulted only when there are tables to create, and only with the create list |
| MysqlDiff.Empty | internal/database/mysql/diff.go:16-18 | a diff is empty exactly when it has nothing to create and nothing to drop |
| MysqlDiff.DropScript | internal/database/mysql/diff.go:37-39 | the drop loop's output is one drop statement per delete entry, in order, separated and terminated by ";\n", and "" for no entries |
| MysqlDiff.GenerateSqlDropsOnly | internal/database/mysql/diff.go:37-41 | with nothing to create, the script is the drop statements joined by ";\n" and ending in ";" |
| MysqlDiff.GenerateSqlCreatesOnly | internal/database/mysql/diff.go:27-41 | with nothing to drop, the script is the trimmed dump |
| MysqlDiff.GenerateSqlCreatesAndDrops | internal/database/mysql/diff.go:27-41 | with both, the script is the dump and its newline, trimmed on the left, then the drop statements in delete order ending in ";" |
| MysqlDiff.SyncScript | internal/database/mysql/diff.go:21-42 | with the real dumper and a non-empty dump, the script is exactly the compressed dump, a newline, and the drop statements |
| MysqlDiff.GetTableChecksums | internal/database/mysql/diff.go:79-85 | the connection is opened first; an open failure is returned as the error, otherwise the checksums come from the opened connection |
| MysqlDiff.CreateList | internal/database/mysql/diff.go:58-65 | a master table is in the create list exactly when the slave lacks it or has a different checksum; no duplicates |
| Lists.AbsentCount | internal/database/mysql/diff.go:67-74 | over an iteration order of the slave map, one delete entry per slave-only table |
| MysqlDiff.DeleteListAsWritten | internal/database/mysql/diff.go:67-74 | as written, the delete list has one entry per slave-only table, and every entry is the empty string |
| MysqlDiff.GenerateDiff | internal/database/mysql/diff.go:45-77 | a master failure is reported with "master table checksums: ", then a slave failure with "slave table checksums: "; on success the create list holds exactly the master tables the slave lacks or holds with another checksum, once each, and the delete list has one empty entry per slave-only table |
| MysqlDiff.GenerateDiffOnConnections | internal/database/mysql/diff.go:45-54 | the master's checksums are collected first, and when that fails the slave connection is left untouched and the master error is returned |
| MysqlDiff.GenerateDiffFixed | internal/database/mysql/diff.go:45-77 | the same errors, with a delete list that names exactly the slave-only tables, without duplicates |
| MysqlDiff.GenerateDiffEmptyIff | internal/database/mysql/diff.go:16-18 | as written, the diff is empty if and only if the master and slave maps are equal |
| MysqlDiff.GenerateDiffFixedEmptyIff | internal/database/mysql/diff.go:16-18 | corrected, the diff is empty if and only if the maps are equal |
| MysqlDiff.DeleteEntryLosesTableName | internal/database/mysql/diff.go:73 | a slave-only table "users" yields the delete entry "" and the statement "drop table if exists ``;" |
| MysqlDiff.DeleteEntryNamesTable | internal/database/mysql/diff.go:67-74 | corrected, the same input yields "drop table if exists `users`;" |
| MysqlUtil.DropTableRoundTrip | internal/database/mysql/util.go:39-41 | the drop statement is the fixed prefix followed by the backquoted table name, and the name can be read back from it |
| MysqlUtil.DropTableStatement | internal/database/mysql/util.go:39-41 | the statement is the fixed "drop table if exists " prefix followed by the backquoted table name, and the table name can be read back from it |
| MysqlUtil.DumpArgs | internal/database/mysql/util.go:43-54 | the dump arguments are the eight connection arguments followed by the tables |
| MysqlUtil.ImportArgs | internal/database/mysql/util.go:78-88 | the import arguments are exactly eight |
| MysqlUtil.DumpArgsRoundTrip | internal/database/mysql/util.go:43-54 | a client reading the dump arguments recovers host, port, user, password, schema and tables |
| MysqlUtil.ImportArgsRoundTrip | internal/database/mysql/util.go:78-88 | a client reading the import arguments recovers the same settings and no tables |
| MysqlUtil.KeptLines | internal/database/mysql/util.go:116-127 | every kept line is non-blank, not a comment, has no leading or trailing space, and there are no more kept lines than input lines |
| MysqlUtil.KeptLinesOne | internal/database/mysql/util.go:119-125 | a single line is kept, space-trimmed, exactly when its trimmed text is neither empty nor starts with "--" |
| MysqlUtil.KeptLinesAppend | internal/database/mysql/util.go:118-126 | the lines are filtered one by one in input order |
| MysqlUtil.KeptLinesOfClean | internal/database/mysql/util.go:118-126 | a list of clean lines is kept unchanged |
| MysqlUtil.CompressMySqlDump | internal/database/mysql/util.go:116-128 | the output lines are exactly the kept input lines, in order, and input with only blank or comment lines compresses to "" |
| MysqlUtil.JoinCleanShape | internal/database/mysql/util.go:127 | clean lines joined by newlines never start or end with a space or newline, and no newline follows a newline or a space |
| MysqlUtil.CompressedShape | internal/database/mysql/util.go:116-128 | the compressor's output never starts or ends with a space or newline and never holds an empty line |
| MysqlUtil.TabsAndCarriageReturnsSurvive | internal/database/mysql/util.go:119 | only spaces are trimmed: a leading tab and a trailing carriage return survive |
| MysqlUtil.CompressIdempotent | internal/database/mysql/util.go:116-128 | compressing twice is the same as compressing once |
| MysqlUtil.DumpTables | internal/database/mysql/dump.go:16-30 | runs the dump client with DumpArgs; its failure is returned as is, and its output is returned exactly as compressed by CompressMySqlDump |
| MysqlUtil.Import | internal/database/mysql/importer.go:16-27 | runs the import client with ImportArgs and the script as input, and fails exactly when the client fails |
| MysqlConn.NewConnection | internal/database/mysql/mysql.go:29-35 | a new connection keeps its settings and is not opened |
| MysqlConn.Open | internal/database/mysql/mysql.go:42-61 | opening an opened connection succeeds without change; otherwise the connection is opened exactly when sql.Open succeeds, and its error is returned |
| MysqlConn.Close | internal/database/mysql/mysql.go:64-70 | closing a never-opened connection succeeds; otherwise the pool's close result is returned |
| MysqlConn.OpenIdempotent | internal/database/mysql/mysql.go:42-45 | after a successful open, opening again succeeds and changes nothing |
| MysqlConn.ScanAll | internal/database/mysql/mysql.go:80-90 | the rows are read in order; the first scan error aborts, otherwise every row value is returned |
| MysqlConn.ScanLast | internal/database/mysql/mysql.go:116-123 | the first scan error aborts; otherwise the result is the last scanned value, or the value it started from when no row is scanned |
| MysqlConn.TableNames | internal/database/mysql/mysql.go:73-91 | a failed "show tables" query is returned; otherwise the result is Ok exactly when every row scans, with the names being exactly the scanned rows, and the first failing scan's error otherwise |
| MysqlConn.QuoteAll | internal/database/mysql/mysql.go:106-110 | every column name is backquoted, in order |
| MysqlConn.QuotedColumnList | internal/database/mysql/mysql.go:106-110 | joining names with "`, `" inside one pair of backquotes is the comma-separated list of quoted names |
| MysqlConn.ProbeQuery | internal/database/mysql/mysql.go:95 | the probe query names the table unquoted, and the table can be read back from it |
| MysqlConn.HashQuery | internal/database/mysql/mysql.go:106-110 | the hash query is group_concat over the comma-separated backquoted columns of the backquoted table; with no columns it still sends group_concat(``) |
| MysqlConn.TableChecksum | internal/database/mysql/mysql.go:94-124 | each failure of the probe, the column list, the hash query or a row scan is returned as "Table Checksum (<table>): " followed by that error; otherwise the result is Ok with the last row of the hash query over the probed columns, or "" |
| MysqlConn.CollectChecksums | internal/database/mysql/mysql.go:127-143 | succeeds exactly when every table's checksum does; the keys are exactly the names, each mapped to its own checksum |
| MysqlConn.CollectChecksumsFirstError | internal/database/mysql/mysql.go:133-138 | the error returned is that of the first failing table in name order |
| MysqlConn.TableChecksums | internal/database/mysql/mysql.go:127-144 | a TableNames failure aborts; otherwise the result is Ok exactly when every table's checksum is, the keys are exactly the table names and each value is that table's checksum, and a failure is the error of the first failing table in name order |
| MysqlConn.TableChecksumsErrorNamesTable | internal/database/mysql/mysql.go:127-144 | a checksum failure names in its prefix the first table, in name order, whose checksum failed |
| Tunnel.EndpointString | internal/tunnel/ssh.go:19-21 | the text is the host, a colon, then a colon-free port number |
| Tunnel.EndpointStringRoundTrip | internal/tunnel/ssh.go:19-21 | host and port are read back exactly from the formatted endpoint, even when the host holds colons |
| Tunnel.LocalPort | internal/tunnel/ssh.go:30-32 | the reported port is the one read back from the address the tunnel listens on |
| Tunnel.LocalHost | internal/tunnel/ssh.go:34-36 | the reported host is the one read back from the address the tunnel listens on |
| Tunnel.CreateSshTunnel | internal/tunnel/ssh.go:113-137 | a port failure is returned as is; otherwise only the local port changes, the other endpoints are stored unchanged, and the client logs in as the server's user with the one given method, accepting any host key |
| Tunnel.StartSshTunnel | internal/tunnel/ssh.go:139-150 | a port failure is returned as is; otherwise the local port is the allocated one and the server and remote are as given |
| Root.Validate | cmd/root.go:120-190 | as written, valid exactly when no message is printed, and exactly when both servers are complete and the slave's SSH settings are all-or-nothing |
| Root.Run | cmd/root.go:121-189 | the checks in a list run in order: at most one message each, and the result is valid exactly when none fails |
| Root.Failing | cmd/root.go:121-189 | the failing checks of a list: exactly the listed fields whose check fails |
| Root.Messages | cmd/root.go:121-189 | one message per field, in order, each the message of its field |
| Root.RunPrintsEveryFailure | cmd/root.go:121-189 | every check runs: the messages printed are exactly the messages of the failing checks, in check order, after those already printed |
| Root.RunPassing | cmd/root.go:121-189 | passing checks print nothing and change nothing |
| Root.RunAppend | cmd/root.go:121-189 | running two lists of checks is running one after the other |
| Root.CheckMasterIsRun | cmd/root.go:122-145 | the master block is the five master checks in source order |
| Root.CheckSlaveIsRun | cmd/root.go:147-170 | the slave block is the five slave checks in source order, with the messages as printed |
| Root.CheckSlaveSshIsRun | cmd/root.go:172-187 | the slave-SSH block is the three SSH checks |
| Root.ValidateIsRun | cmd/root.go:120-190 | Validate is all thirteen checks in source order |
| Root.ValidateMessages | cmd/root.go:120-190 | as written, Validate prints one message per failing check, in source order, with the as-written wording |
| Root.ValidateIgnoresMasterSsh | cmd/root.go:120-190 | the master's SSH settings never affect validation |
| Root.ValidSlaveSshRequiresTunnel | cmd/root.go:104-106 | in a valid configuration the slave tunnel is required exactly when any slave SSH setting is given |
| Root.SlaveSshTunnelIsRequired | cmd/root.go:104-106 | a required slave tunnel is one the slave's SSH settings mention |
| Root.MasterSshTunnelIsRequired | cmd/root.go:108-110 | the master test is the slave test applied to the master's settings |
| Root.PartialMasterSshAccepted | cmd/root.go:108-110 | a master with only an SSH user set is still valid and asks for no tunnel, because the master's SSH settings are never validated |
| Root.RunWordingIrrelevant | cmd/root.go:121-189 | the verdict and message count do not depend on the wording of the messages |
| Root.ValidateFixed | cmd/root.go:147-170 | validation with the slave messages naming the slave: same verdict and message count as Validate, valid exactly for well-formed configurations, and the messages are those of the failing checks in source order |
| Root.SlaveUsernameReportedAsMaster | cmd/root.go:147-150 | as written, a configuration missing only the slave username prints "Error: Master username is required" |
| Root.SlaveUsernameReportedAsSlave | cmd/root.go:147-150 | corrected, the same configuration prints "Error: Slave username is required" |
| Root.MessageInjective | cmd/root.go:122-187 | with the corrected wording no two checks print the same message |
| Root.FixedMessageIffFails | cmd/root.go:147-160 | corrected, a check's message is printed exactly when that check fails, so a "Master ..." message names a failing master field |
| Root.AsWrittenLineOwners | cmd/root.go:122-160 | as written, a master check's message is shared by exactly that check and the slave check on the same field |
| Root.MasterLineAsWritten | cmd/root.go:122-160 | as written, a master username, password or host message is printed exactly when the master check or the slave check on that field fails |
| Root.PersistentPreRun | cmd/root.go:26-46 | a missing master name fails first, then a missing slave name, with the master stored; with both found, success exactly when the configuration is well formed, else "invalid config" with exactly Validate's messages printed |
| Root.PreRunSuccess | cmd/root.go:26-46 | a successful pre-run stores the named servers, both complete, and prints nothing |
| Root.CreateAuthMethod | cmd/root.go:192-216 | without a key file the agent is used; otherwise the home-expanded key file is loaded; each failure gets its own prefix |
| Root.AuthMethodSources | cmd/root.go:192-216 | the agent is consulted exactly when no key file is configured |
| Root.TunnelFrom | cmd/root.go:228-244 | the tunnel listens on localhost, forwards to the MySQL host and port, and afterwards the MySQL settings use the tunnel's local port |
| Root.StartTunnel | cmd/root.go:218-245 | as written, the SSH server has the given host but the slave's SSH port and user, and the client logs in as the slave's SSH user; errors are passed through; when the authentication method and the free port are both found the tunnel starts and the MySQL settings take its port |
| Root.MasterTunnelUsesSlaveAccount | cmd/root.go:222-226 | the master tunnel dials the master's SSH host on the slave's SSH port and logs in as the slave's SSH user |
| Root.StartTunnelFixed | cmd/root.go:218-245 | corrected, the SSH server endpoint is entirely the given SSH settings |
| Root.SlaveTunnelUnaffected | cmd/root.go:222-226 | for the slave's own tunnel the written and corrected versions agree |
| Root.CreateConnectionConfig | cmd/root.go:74-87 | a resolution error is the failure; otherwise the server's credentials, port and schema are copied and the host is the resolved address |
| Text.TrimIsSlice | internal/database/mysql/diff.go:41 | trimming removes only cut characters, from both ends |
| Text.JoinSplit | internal/database/mysql/util.go:117-127 | joining the pieces of a split gives back the original text |
| Text.SplitJoin | internal/database/mysql/util.go:117-127 | splitting separator-free pieces that were joined gives back the pieces |
| Text.ItoaRoundTrip | internal/database/mysql/util.go:48 | decimal formatting of a port can be parsed back |

## Left out

- The tunnel's accept loop, `forward`, the `io.Copy` goroutines and `log.Panicf` (internal/tunnel/ssh.go:38-96, 145-147): network I/O and concurrency. Starting a tunnel is modelled as creating it.
- `getFreePort` (internal/tunnel/ssh.go:98-111) binds a socket. Its result, a port or an error, is an input to `Tunnel.CreateSshTunnel`.
- Tunnel.StartSshTunnel: its contract repeats only the port, server and remote facts of `Tunnel.CreateSshTunnel`, which it returns unchanged. The background goroutine is not modelled.
- internal/tunnel/auth_method.go (agent socket, key file reading, key parsing) is not part of this model. An authentication method is an opaque value, and the agent, home expansion and key loading are inputs of `Root.CreateAuthMethod`.
- Process execution in `mysqlDump` and `mysqlImport` is an input function: `exec.LookPath`, the `bin/` fallback, and the combination of the error with stderr (internal/database/mysql/util.go:56-75, 90-113). Only the argument vectors and what is done with the output are modelled.
- `generateDSN` (internal/database/mysql/util.go:14-37) reads a `Timezone` field that `ConnectionConfig` does not have, and its call site passes five arguments. `sql.Open` is therefore an input applied to the whole `ConnectionConfig`.
- MysqlConn.Open: when `sql.Open` fails, the model assumes the handle it returns is nil, so the connection stays unopened. The Go code stores whatever handle comes back.
- SQL execution, row iteration and MD5 are inputs: each query yields its column names and the outcome of each row scan. `rows.Close` and `rows.Err` are not modelled, and the code never checks them.
- internal/net/ip.go (DNS lookup) is not part of this model. The resolved address is an input of `Root.CreateConnectionConfig`. The lookup swallows its own error and returns "" (internal/net/ip.go:11-13), which is then seen as a successful empty address. The panic on a resolution error is modelled as `Err`.
- cmd/sync.go and cmd/watch.go (orchestration, `log.Fatal`, a stub), `initConfig`, `Execute`, and the cobra and viper plumbing are left out. The lines `Validate` prints to stderr are modelled as a list of messages.
- The watcher's `log.Println("Checking for changes...")` (internal/watcher/watcher.go:91), its `time.Sleep`, its channels and their blocking, the endless loop, the `Open` and deferred `Close` around it, and `Watcher.Hostname` and `DBName` are left out. The last two reference fields the connection does not have. One loop iteration is modelled as `Watcher.Tick`, with the collected checksums as an input.
- The log lines of `CreateAuthMethod` (cmd/root.go:198, 213) say "slave server" whichever server the method is for. Logging is not modelled, so this wording slip is not represented.
- Integer widths are not modelled: ports are unbounded integers, and nothing in the modelled code does arithmetic on them.

## Findings

| source | as written | input that shows it | evidently intended | confidence | as-written member | corrected member |
|---|---|---|---|---|---|---|
| internal/watcher/watcher.go:87-103 | `lastChks` is declared but never assigned, so every tick diffs against the nil map | the same non-empty schema sampled twice: both ticks send a diff listing every table as created | the baseline becomes each successful sample, so an unchanged schema is quiet | not executed | Watcher.UnchangedTablesReportedEveryTick | Watcher.RepeatedSampleIsQuiet |
| internal/database/mysql/diff.go:73 | the delete list gets `mc`, the zero value of the failed master lookup, instead of the slave table name `st` | master `{}`, slave `{"users": "x"}`: the delete list is `[""]` and the script is "drop table if exists ``;" | the delete list names the slave-only tables | not executed | MysqlDiff.DeleteEntryLosesTableName | MysqlDiff.GenerateDiffFixed, with the example MysqlDiff.DeleteEntryNamesTable |
| cmd/root.go:147-160 | the slave username, password and host checks print "Master ..." messages | a configuration complete except for an empty slave username prints "Error: Master username is required" | the messages name the slave | not executed | Root.MasterLineAsWritten | Root.FixedMessageIffFails |
| cmd/root.go:222-226 | `startSSHTunnel` takes the SSH server's port and user from the slave's SSH settings, whichever server the tunnel is for | master SSH `bastion-m`/`alice`/22, slave SSH `bastion-s`/`bob`/2222: the master tunnel dials `bastion-m` on port 2222 as `bob` | the whole server endpoint comes from the `sshCfg` argument | not executed | Root.MasterTunnelUsesSlaveAccount | Root.StartTunnelFixed |
