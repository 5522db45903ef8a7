# DALiuGE cluster launcher and CWL translator, modelled in Dafny

This project models three parts of DALiuGE, a framework that runs data-flow
graphs on clusters:

- **The cluster launcher** (`dlg/deploy/pawsey/start_dfms_cluster.py`).
  - It filters hosts by health check, with a retry budget.
  - It reads a node's address out of `ifconfig` text.
  - It builds the command lines of the node, island and master managers.
  - It parses and applies the PG modifiers (functions that change the
    physical graph before submission) and assembles that graph (`get_pg`).
  - It monitors a deployed graph, writing its two JSON-lines logs, and waits
    for an execution to finish.
  - It validates the command line and decides what each process does in its
    role (node manager host, single-island owner or proxy, multi-island
    highest manager or island member).
- **The CWL translator** (`daliuge-translator/dlg/dropmake/cwl.py`). It turns
  a physical graph into a Common Workflow Language workflow, with one step
  and one command-line tool per `BashShellApp` drop.
- **Two helpers from `dfms/utils.py`**: `escapeQuotes` for shell command
  lines, and the runtime directory layout (`getDfmsDir`, `getDfmsPidDir`,
  `getDfmsLogsDir`).

One Dafny module per concern:

- `Common` holds Option/Result and Python's `split`, `join`, `str(n)`,
  `os.path.join` and `os.path.dirname`.
- `DfmsUtils`, `HostProbe`, `Ifconfig`, `LaunchArgs`, `GraphAssembly`,
  `ExecutionMonitor` and `Coordinator` cover the launcher and the helpers.
- `PhysicalGraph` and `CwlTranslator` cover the translator.

Everything outside these parts enters as a parameter:

- a health check is a `check(host, port, withSession, attempt)` oracle;
  `get_pg` checks the node managers on the node manager port, with a session
  when `--check_with_session` is given, once each; the highest manager
  checks the island managers on the island manager port, without a
  session, up to ten times each;
- the partitioner, the graph loader, the pipeline-name function and the
  resource mapper are the `Services` record;
- `utils.get_symbol` is a `Registry` map;
- the island manager's answers are the polls a monitor is given;
- the clock is the time each turn took, as an integer number of milliseconds.

Processes, threads and blocking waits are recorded as a list of `Action`s.
An exception is a `Result` failure.

The code is followed as written, including these behaviours:

- `monitor_execution_finished` returns at the FIRST session whose nodes have
  all finished, without looking at the other sessions. A session that
  reports no node counts as finished.
- The command line is refused when a monitor host is given together with
  more than one island. The process's proxy role plays no part in that
  check.
- The multi-island highest manager starts the master manager over ALL island
  hosts, including those that did not answer the health check.
- An empty physical graph (`if pg:`) is not submitted. The island manager is
  still started and awaited.
- A negative `--sleep-after-execution` makes `time.sleep` raise, and the
  island manager is then never stopped.
- `check_hosts([])` raises, because a thread pool of size 0 is refused.
- `[ip for ip in up if ip]` also drops empty-string addresses.

## Model

| member | source | states |
|---|---|---|
| `DfmsUtils.EscapeQuotes` | dfms/utils.py:153-162 | with both flags off the text is unchanged; a kind of quote whose flag is off keeps its count |
| `DfmsUtils.EscapeQuotesIsPerCharacter` | dfms/utils.py:158-161 | with both passes on, the result equals an independent character-by-character escaping: `'` becomes `'\''`, `"` becomes `\"`, every other character is kept in order, so the second pass never touches text inserted by the first |
| `DfmsUtils.EscapeSingleOnly` | dfms/utils.py:158-159 | the single-quote pass alone replaces each `'` by `'\''` and grows the text by 3 per quote |
| `DfmsUtils.EscapeDoubleOnly` | dfms/utils.py:160-161 | the double-quote pass alone replaces each `"` by `\"`, grows the text by 1 per quote and adds no single quote |
| `DfmsUtils.EscapeQuotesLength` | dfms/utils.py:153-162 | the escaped length is the input length plus 3 per single quote plus 1 per double quote |
| `DfmsUtils.GetDfmsDir` | dfms/utils.py:114-121 | the root is the `dfms` entry of `$XDG_RUNTIME_DIR` when that is set, else the `.dfms` entry of the home directory |
| `DfmsUtils.GetDfmsPidDir` | dfms/utils.py:123-132 | the PID directory is the `pid` entry of the root, whatever the create flag |
| `DfmsUtils.GetDfmsLogsDir` | dfms/utils.py:134-143 | the log directory is the `logs` entry of the root, whatever the create flag |
| `DfmsUtils.PidAndLogsDirsDiffer` | dfms/utils.py:123-143 | the PID and log directories are never the same path |
| `HostProbe.PoolSize` | dlg/deploy/pawsey/start_dfms_cluster.py:102 | the pool has at most 50 workers and no more than there are hosts, and at least one exactly when there is a host |
| `HostProbe.KeepTruthy` | dlg/deploy/pawsey/start_dfms_cluster.py:107 | the filter keeps at most the outcomes it is given and never keeps an empty address |
| `HostProbe.Healthy` | dlg/deploy/pawsey/start_dfms_cluster.py:85-107 | reference list of the hosts reported up: no longer than the input, each non-empty and answering within the retry budget; nothing with a zero budget |
| `HostProbe.AnswersWithinMeans` | dlg/deploy/pawsey/start_dfms_cluster.py:91-99 | a host answers within a budget exactly when one of its first `budget` checks succeeds |
| `HostProbe.CheckAndAdd` | dlg/deploy/pawsey/start_dfms_cluster.py:91-99 | corrected retry loop: returns the IP exactly when one of the first `retry` checks succeeds; stops at the first success; every earlier check failed; at most `retry` checks are made |
| `HostProbe.CheckAndAddAsWritten` | dlg/deploy/pawsey/start_dfms_cluster.py:91-99 | the loop as written, run for a bounded number of iterations: when it returns a host it is the one checked, and it returns None only for a zero retry count |
| `HostProbe.CheckHosts` | dlg/deploy/pawsey/start_dfms_cluster.py:85-107 | fails exactly on an empty host list; otherwise returns the reference list of healthy hosts |
| `HostProbe.HealthyIsSubsequence` | dlg/deploy/pawsey/start_dfms_cluster.py:101-107 | the result only removes hosts and never reorders them |
| `HostProbe.HealthyMembership` | dlg/deploy/pawsey/start_dfms_cluster.py:101-107 | a host is reported exactly when it is in the input, is non-empty and answers within the retry budget |
| `HostProbe.ThreeHostScenario` | dlg/deploy/pawsey/start_dfms_cluster.py:85-107 | with a dead middle host and the two others answering on some attempt within the budget, `[h1, h2, h3]` gives `[h1, h3]` |
| `HostProbe.AsWrittenNeverGivesUp` | dlg/deploy/pawsey/start_dfms_cluster.py:92-98 | the loop as written (`ntries -= 0`) keeps checking a dead host forever, however many iterations are allowed |
| `Ifconfig.Fields` | dlg/deploy/pawsey/start_dfms_cluster.py:122 | `str.split()` yields non-empty fields that hold no whitespace |
| `Ifconfig.AddressOfLine` | dlg/deploy/pawsey/start_dfms_cluster.py:122 | a line gives no address exactly when it has fewer than two fields or its second field holds no `:`; an address holds no `:` and no whitespace |
| `Ifconfig.AddressAtLine` | dlg/deploy/pawsey/start_dfms_cluster.py:121-125 | a line number past the end gives `"None"`; the result never holds `:` or whitespace |
| `Ifconfig.SiteLine` | dlg/deploy/pawsey/start_dfms_cluster.py:114-119 | exactly Pawsey and Tianhe2 have an address line |
| `Ifconfig.IpViaIfconfig` | dlg/deploy/pawsey/start_dfms_cluster.py:109-125 | exactly the sites other than Pawsey and Tianhe2 fail; Pawsey reads line 1 and Tianhe2 line 18; the returned text never holds `:` or whitespace |
| `Ifconfig.AddressRoundTrip` | dlg/deploy/pawsey/start_dfms_cluster.py:120-122 | a line `<indent><iface> <key>:<address>` followed by whitespace gives back exactly that address |
| `Ifconfig.PawseyReadsSecondLine` | dlg/deploy/pawsey/start_dfms_cluster.py:114-122 | at Pawsey the address is the one on the second line of the output |
| `LaunchArgs.ClampVerbosity` | dlg/deploy/pawsey/start_dfms_cluster.py:400 | the log level is forced into 1..3 and kept when already there |
| `LaunchArgs.VerbosityFlag` | dlg/deploy/pawsey/start_dfms_cluster.py:136-137 | the flag is `-` followed by `logv` letters `v` |
| `LaunchArgs.BindAddress` | dlg/deploy/pawsey/start_dfms_cluster.py:135 | a non-empty host is kept; a missing or empty host gives `0.0.0.0`; the bind address is never empty |
| `LaunchArgs.NodeManagerArgs` | dlg/deploy/pawsey/start_dfms_cluster.py:130-140 | an option parser reading the vector gets the log dir, bind address, 1024 MB, thread count and event listeners, the verbosity switch and `--no-dlm` |
| `LaunchArgs.IslandManagerArgs` | dlg/deploy/pawsey/start_dfms_cluster.py:142-152 | the parser gets the log dir, the comma-joined node managers, `0.0.0.0`, 2048 MB and the verbosity switch |
| `LaunchArgs.MasterManagerArgs` | dlg/deploy/pawsey/start_dfms_cluster.py:154-164 | the same bindings for the master manager, over the island hosts |
| `LaunchArgs.IslandMembershipRoundTrip` | dlg/deploy/pawsey/start_dfms_cluster.py:142-164 | splitting the `-N` value on `,` gives back the node list, for a non-empty list of comma-free addresses |
| `LaunchArgs.RankLogDir` | dlg/deploy/pawsey/start_dfms_cluster.py:390 | the rank's log directory is a sub-directory of the log directory |
| `LaunchArgs.RankLogDirsDistinct` | dlg/deploy/pawsey/start_dfms_cluster.py:390 | different ranks never share a log directory |
| `Common.Split` | dlg/deploy/pawsey/start_dfms_cluster.py:255 | `str.split(sep)` always gives at least one part, no part holds the separator, and there are two parts or more exactly when the separator occurs |
| `Common.NatToStringInjective` | daliuge-translator/dlg/dropmake/cwl.py:82 | `str(n)` is injective on natural numbers, so different indices give different texts |
| `Common.SplitJoin` | dlg/deploy/pawsey/start_dfms_cluster.py:148 | splitting a join of separator-free pieces gives back the pieces |
| `Common.JoinSplit` | dlg/deploy/pawsey/start_dfms_cluster.py:284 | joining the parts of a split gives back the text |
| `Common.DirnameOfJoin` | dlg/deploy/pawsey/start_dfms_cluster.py:199 | the directory of `dir/name` is `dir` |
| `GraphAssembly.Positional` | dlg/deploy/pawsey/start_dfms_cluster.py:257 | positional arguments never hold `=` |
| `GraphAssembly.PositionalMembership` | dlg/deploy/pawsey/start_dfms_cluster.py:257 | a text is a positional argument exactly when it is a part without `=` |
| `GraphAssembly.Keywords` | dlg/deploy/pawsey/start_dfms_cluster.py:258 | parsed keywords and values never hold `=`; a failure reports a malformed part holding `=` |
| `GraphAssembly.KeywordsFailure` | dlg/deploy/pawsey/start_dfms_cluster.py:258 | keyword parsing fails exactly when some `=` part does not split into two pieces, and it reports the first such part |
| `GraphAssembly.KeywordsLastWins` | dlg/deploy/pawsey/start_dfms_cluster.py:258 | a key is bound to the value of the last part naming it |
| `GraphAssembly.KeywordsDomain` | dlg/deploy/pawsey/start_dfms_cluster.py:258 | a key is bound exactly when some `=` part names it |
| `GraphAssembly.ParseModifier` | dlg/deploy/pawsey/start_dfms_cluster.py:254-259 | fails exactly when the first part is not registered or a later part is a malformed keyword; an unknown name is reported first, else the first malformed part; on success the name is the first part, the positional arguments and keywords are those of the remaining parts, the name is registered and comma-free |
| `GraphAssembly.ParseFormatted` | dlg/deploy/pawsey/start_dfms_cluster.py:254-259 | round trip: writing a call as `name,args...,k=v...` and parsing it back gives that call |
| `GraphAssembly.ParseOfParts` | dlg/deploy/pawsey/start_dfms_cluster.py:254-259 | a specification that splits into a registered name and well-formed rest parses to the name, the rest's positional arguments and its keywords |
| `GraphAssembly.ParseAll` | dlg/deploy/pawsey/start_dfms_cluster.py:284-285 | succeeds exactly when every specification parses, giving call i for specification i; otherwise fails with the error of the first specification that does not parse |
| `GraphAssembly.ApplyModifiers` | dlg/deploy/pawsey/start_dfms_cluster.py:283-285 | the loop fails with the first parse failure; otherwise the graph is the result of applying every modifier in order |
| `GraphAssembly.ApplyAllAppend` | dlg/deploy/pawsey/start_dfms_cluster.py:284-285 | applying two modifier lists in turn is applying their concatenation |
| `GraphAssembly.ParseAllFailsFrom` | dlg/deploy/pawsey/start_dfms_cluster.py:284-285 | a failure after a successful prefix is the failure of the whole list |
| `GraphAssembly.ModifierSpecsAsWritten` | dlg/deploy/pawsey/start_dfms_cluster.py:284 | as written: splitting fails exactly when the option is missing; otherwise the parts rejoin to the option |
| `GraphAssembly.ModifierSpecs` | dlg/deploy/pawsey/start_dfms_cluster.py:284 | corrected: no option means no modifiers; a given option is split on `:`, rejoins to itself and agrees with the as-written split |
| `GraphAssembly.NoModifiersKeepGraph` | dlg/deploy/pawsey/start_dfms_cluster.py:283-285 | with the correction, no option leaves the graph unchanged |
| `GraphAssembly.EmptyOptionNamesEmptyModifier` | dlg/deploy/pawsey/start_dfms_cluster.py:254-256 | an empty option still names one modifier, the empty name, which cannot be resolved |
| `GraphAssembly.AppFor` | dlg/deploy/pawsey/start_dfms_cluster.py:60-64 | `--app` is valid from -3 to 2, with negative values indexing from the end; 0 and -3 select no app |
| `GraphAssembly.PartitionRequestFor` | dlg/deploy/pawsey/start_dfms_cluster.py:270-278 | the partitioner is asked for one partition per node manager and island manager, one island per island manager, and as many template nodes as partitions |
| `GraphAssembly.TwoNodesOneIslandRequest` | dlg/deploy/pawsey/start_dfms_cluster.py:270-278 | two node managers and one island manager ask for three partitions, one island and three template nodes |
| `GraphAssembly.GraphFile` | dlg/deploy/pawsey/start_dfms_cluster.py:269 | the pipeline name comes from the logical graph when one is given, else from the physical graph, and is never empty when a graph is given |
| `GraphAssembly.SourceGraph` | dlg/deploy/pawsey/start_dfms_cluster.py:270-281 | fails exactly for a logical graph with an invalid app; a logical graph is partitioned with the counts of PartitionRequestFor, otherwise the physical graph file is loaded |
| `GraphAssembly.MappedNodes` | dlg/deploy/pawsey/start_dfms_cluster.py:287-291 | the mapped node list is every island host, in order, followed by the reference list of node managers that answered one check, so it is no longer than both lists together |
| `GraphAssembly.MappedNodesLaw` | dlg/deploy/pawsey/start_dfms_cluster.py:287-291 | the graph is mapped onto all island hosts first, then onto exactly the node managers that answered |
| `GraphAssembly.PgOf` | dlg/deploy/pawsey/start_dfms_cluster.py:261-294 | reference definition of `get_pg`: None exactly without a graph; a failure never comes from a missing `--pg-modifiers`; a graph is only produced with some node manager |
| `GraphAssembly.AsWrittenRejectsDefault` | dlg/deploy/pawsey/start_dfms_cluster.py:283-285 | as written, `get_pg` with a usable graph and no `--pg-modifiers` fails with the missing-option error, where the corrected reading does not |
| `GraphAssembly.AsWrittenAgreesWhenGiven` | dlg/deploy/pawsey/start_dfms_cluster.py:283-285 | when `--pg-modifiers` is given, the as-written and the corrected `get_pg` agree |
| `GraphAssembly.GetPg` | dlg/deploy/pawsey/start_dfms_cluster.py:261-294 | None without a graph; otherwise errors in the order bad app, bad modifier, no node manager; on success the source graph is modified, then mapped onto the island hosts and the node managers that answered one check on the node manager port, with a session when asked; the result is the reference PgOf |
| `CwlTranslator.FirstIndexOf` | daliuge-translator/dlg/dropmake/cwl.py:134 | `index(" ")` finds the first space and fails exactly when there is none |
| `CwlTranslator.DescribesTool` | daliuge-translator/dlg/dropmake/cwl.py:114-153 | a described drop has a name, an app and a command with a space, and its tool has one input per drop input, or one when there are none |
| `CwlTranslator.ToolProblem` | daliuge-translator/dlg/dropmake/cwl.py:115-138 | no problem exactly when the drop has a name, a command with a space and an app; a missing name is reported first, then a command without a space, then a missing app |
| `CwlTranslator.CreateCommandLineTool` | daliuge-translator/dlg/dropmake/cwl.py:114-153 | fails exactly on a missing name, a command without a space or a missing app, in that order; otherwise the tool has the app as id, the name as label and the command up to its first space, one positional File input per input (or one null `dummy` input), and one stdout output per output |
| `CwlTranslator.OutputFilesDomain` | daliuge-translator/dlg/dropmake/cwl.py:49-58 | an oid is registered exactly when it is some drop's first output |
| `CwlTranslator.OutputFilesLastWriter` | daliuge-translator/dlg/dropmake/cwl.py:49-58 | a registered oid points at the last drop producing it |
| `CwlTranslator.BashIndices` | daliuge-translator/dlg/dropmake/cwl.py:64-68 | every chosen index names a BashShellApp drop |
| `CwlTranslator.BashIndicesLaw` | daliuge-translator/dlg/dropmake/cwl.py:64-95 | the steps follow graph order, and every BashShellApp drop gets one |
| `CwlTranslator.StepNamesDistinct` | daliuge-translator/dlg/dropmake/cwl.py:82 | no two steps share a name |
| `CwlTranslator.FirstMissing` | daliuge-translator/dlg/dropmake/cwl.py:85-87 | the first input not found in the files dictionary, or none when all are found |
| `CwlTranslator.StepMatches` | daliuge-translator/dlg/dropmake/cwl.py:68-95 | a matching step runs `<step id>.cwl` from a path ending in that name, and every input of the drop is found in the files dictionary |
| `CwlTranslator.CollectOutputFiles` | daliuge-translator/dlg/dropmake/cwl.py:45-58 | the first loop builds the files dictionary of the whole graph |
| `CwlTranslator.CreateStep` | daliuge-translator/dlg/dropmake/cwl.py:68-95 | fails exactly with the drop's own problem (tool error first, then the first unknown input); otherwise the step `step<i>` runs `step<i>.cwl`, its inputs come from the producing steps, and its outputs are named in order |
| `CwlTranslator.CreateWorkflow` | daliuge-translator/dlg/dropmake/cwl.py:33-95 | succeeds exactly when no BashShellApp drop has a problem, else fails with the first one's; on success the header is empty with version v1.0, and the steps, tool files and tools match the BashShellApp drops one for one, in order |
| `ExecutionMonitor.PauseAfter` | dlg/deploy/pawsey/start_dfms_cluster.py:186-188 | a turn lasts at least the monitoring interval, and no sleep follows a turn that already took that long |
| `ExecutionMonitor.AwaitRound` | dlg/deploy/pawsey/start_dfms_cluster.py:177-188 | stops at the first session whose nodes have all finished; every earlier session is unfinished and is followed by its pause |
| `ExecutionMonitor.FirstFinishedRound` | dlg/deploy/pawsey/start_dfms_cluster.py:174-188 | the first round holding a finished session; no earlier round holds one |
| `ExecutionMonitor.MonitorExecutionFinished` | dlg/deploy/pawsey/start_dfms_cluster.py:166-188 | returns in exactly the first round with a finished session |
| `ExecutionMonitor.FinishedSessionEndsWait` | dlg/deploy/pawsey/start_dfms_cluster.py:181-184 | a session with no nodes counts as finished and ends the wait, whatever the other sessions say |
| `ExecutionMonitor.StatusOfKnownSession` | dlg/deploy/pawsey/start_dfms_cluster.py:230-233 | a status line about a session already seen keeps the logs consistent |
| `ExecutionMonitor.FirstSightOfSession` | dlg/deploy/pawsey/start_dfms_cluster.py:218-233 | logging a new session's graph, then its status, keeps the logs consistent |
| `ExecutionMonitor.GraphMonitor.constructor` | dlg/deploy/pawsey/start_dfms_cluster.py:202-204 | the log files are `<dump_path>_g.log` and `<dump_path>_s.log`, and nothing is recorded yet |
| `ExecutionMonitor.GraphMonitor.Visit` | dlg/deploy/pawsey/start_dfms_cluster.py:209-233 | one status line is always appended; the graph is recorded and logged only the first time a session is seen |
| `ExecutionMonitor.GraphMonitor.PollRound` | dlg/deploy/pawsey/start_dfms_cluster.py:209-237 | a poll appends one status line per session in order, records graphs per the reference, appends one graph line per session new to the monitor in the order first met, and pauses after each turn |
| `ExecutionMonitor.FirstSightsAreNew` | dlg/deploy/pawsey/start_dfms_cluster.py:218-227 | the graph lines of a poll name only sessions new to the monitor, each with its recorded graph, and every new session polled gets one |
| `ExecutionMonitor.RecordedKeys` | dlg/deploy/pawsey/start_dfms_cluster.py:218-221 | after a poll, the known sessions are the old ones plus those polled |
| `ExecutionMonitor.RecordedKeepsKnown` | dlg/deploy/pawsey/start_dfms_cluster.py:218-221 | a graph once recorded never changes |
| `ExecutionMonitor.RecordedFirstView` | dlg/deploy/pawsey/start_dfms_cluster.py:218-221 | a new session keeps the graph of its first view |
| `ExecutionMonitor.RecordedAllKeys` | dlg/deploy/pawsey/start_dfms_cluster.py:204-221 | after some polls the monitor knows exactly the sessions met in them |
| `ExecutionMonitor.RecordedAllKeepsKnown` | dlg/deploy/pawsey/start_dfms_cluster.py:218-221 | a graph kept after some polls is kept unchanged by every later poll |
| `ExecutionMonitor.MonitorKeepsFirstView` | dlg/deploy/pawsey/start_dfms_cluster.py:204-221 | across all polls, a session keeps the graph of the first view that met it |
| `ExecutionMonitor.MonitorGraph` | dlg/deploy/pawsey/start_dfms_cluster.py:190-237 | nothing is monitored exactly when the dump path has no directory part or that directory is missing; otherwise the monitor uses the two log files, and its graphs, graph lines and status lines are those of the reference over all polls |
| `Coordinator.RoleOf` | dlg/deploy/pawsey/start_dfms_cluster.py:402-461 | each of the five roles is chosen exactly under its own condition |
| `Coordinator.Validate` | dlg/deploy/pawsey/start_dfms_cluster.py:374-386 | the interface check comes first; a command line is accepted exactly when one graph is named, it exists and no monitor host is combined with several islands; an accepted line names a graph |
| `Coordinator.DumpPath` | dlg/deploy/pawsey/start_dfms_cluster.py:423 | the directory of the dump path is the log directory, when that is non-empty and has no trailing slash |
| `Coordinator.DumpDirectoryIsRankLogDir` | dlg/deploy/pawsey/start_dfms_cluster.py:419-425 | the monitor's dump directory is the rank's log directory, which main creates |
| `Coordinator.Launch` | dlg/deploy/pawsey/start_dfms_cluster.py:388-462 | the verdict of validation; nothing is done unless it accepts; then the exact actions of each role |
| `Coordinator.RunIslandOwner` | dlg/deploy/pawsey/start_dfms_cluster.py:416-437 | the island owner's run: optional submission, island manager over all node managers, wait, sleep, stop; or the error that interrupts it |
| `Coordinator.RunHighestManager` | dlg/deploy/pawsey/start_dfms_cluster.py:441-459 | the highest manager's run: send node lists, warn about missing islands, submit, master manager over all island hosts; or the error that interrupts it |
| `Coordinator.IslandOwnerStops` | dlg/deploy/pawsey/start_dfms_cluster.py:417-437 | the island manager is stopped exactly when the graph was assembled and the sleep is non-negative, and it is started whenever the graph was assembled |
| `Coordinator.HighestManagerStartsMaster` | dlg/deploy/pawsey/start_dfms_cluster.py:443-459 | the master manager is started exactly when the graph was assembled and some island host exists; the islands and the master get the same graph |
| `Coordinator.AcceptedRunHasGraph` | dlg/deploy/pawsey/start_dfms_cluster.py:379-383 | after validation accepts, `get_pg` never returns None |

## Left out

- Processes, threads, logging, printing, sockets and files are left out:
  starting the managers, the submission threads, the proxy server loop,
  the log files and the CWL, YAML and zip output. They are recorded as
  actions or as sequences of records.
- `check_host` and its session create/destroy are left out. A health check
  is the `check` oracle; its timeout is part of the oracle, and the ports
  are symbolic because their numbers come from dlg/manager/constants.py,
  which is not part of this model.
- The submission thread's own check of the master manager port and
  `tool.submit` are recorded as the `SubmitToMaster` action.
- `get_ip_via_netifaces`, `get_remote` and the MPI/Slurm remotes are left
  out. The cluster topology is the `Topology` parameter.
- Unrolling, partitioning (`--part-algo`, `-A`, `--ssid`, `--zerorun`),
  `json.load`, `fname_to_pipname` and `tool.resource_map` are other parts
  of DALiuGE. They are the `Services` oracles.
- Writing `pg.json` in `get_pg` is left out.
- PG modifiers change the graph in place. Here a modifier returns the
  changed graph, so aliasing between the modifier and its caller is not
  captured.
- The `while True` loops of the two monitors are not modelled as
  unbounded. They run the finite sequence of polls they are given.
- Time is integer milliseconds, and the `'%.3f'` stamps are a parameter.
  Floating-point time is not modelled.
- `SessionStates` comes from another file and is an enumeration here.
- Graphs and graph statuses returned by the island manager are opaque
  strings.
- Failures of the island manager client are left out.
- `os.makedirs` of the rank's log directory, and its failure when the
  directory exists, are left out.
- `get_ip_via_ifconfig` reads Python 2 text. Python 3 bytes from
  `check_output` are not modelled.
- `HostProbe.CheckAndAdd`: the retry count is a natural number. A negative
  count is truthy in Python and would retry forever even with the
  correction; the callers pass 1 and 10.
- `Coordinator.Launch`: the proxy role only records whether the island
  manager's port answered. The proxy itself is not modelled.

## Findings

| source | as written | input that shows it | evidently intended | confidence | as-written member | corrected member |
|---|---|---|---|---|---|---|
| dlg/deploy/pawsey/start_dfms_cluster.py:98 | `ntries -= 0` never lowers the retry counter | a host that never answers, with `retry=1`: `check_and_add` loops forever, so `check_hosts` never returns | lower the counter by one after each failed check and return None after `retry` failures | not executed | `HostProbe.AsWrittenNeverGivesUp` | `HostProbe.CheckAndAdd` |
| dlg/deploy/pawsey/start_dfms_cluster.py:284 | `opts.pg_modifiers.split(':')`, while `--pg-modifiers` has no default (lines 365-367) | a run with `-L graph.json` and no `--pg-modifiers`: `None.split` raises AttributeError | no option means no modifiers | not executed | `GraphAssembly.AsWrittenRejectsDefault` | `GraphAssembly.PgOf` |
