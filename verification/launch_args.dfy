/** The command lines the launcher hands to the node, island and master
    managers (`start_node_mgr`, `start_dim`, `start_mm` and the verbosity
    clamp in `main`, dlg/deploy/pawsey/start_dfms_cluster.py). Starting the
    processes is left out; what is modelled is the argument vector each one
    receives. Each vector is specified by what an option parser reading it
    recovers (`ReadOptions`). */
module LaunchArgs {
  import opened Common

  /** `max(min(3, verbose_level), 1)`: the requested level forced into 1..3. */
  function ClampVerbosity(level: int): (logv: int)
    ensures 1 <= logv <= 3
    ensures 1 <= level <= 3 ==> logv == level
    ensures level < 1 ==> logv == 1
    ensures level > 3 ==> logv == 3
  {
    if level > 3 then 3 else if level < 1 then 1 else level
  }

  /** `'-%s' % ('v' * logv)` */
  function VerbosityFlag(logv: nat): (flag: string)
    ensures |flag| == logv + 1 && flag[0] == '-'
    ensures forall i :: 1 <= i < |flag| ==> flag[i] == 'v'
  {
    "-" + seq(logv, _ => 'v')
  }

  /** The verbosity a flag of the form `-vvv` asks for: its number of `v`s. */
  function VerbosityOf(flag: string): Option<nat>
  {
    if |flag| >= 2 && flag[0] == '-' && forall i :: 1 <= i < |flag| ==> flag[i] == 'v'
    then Some(|flag| - 1) else None
  }

  /** Options of the managers' command lines that take a value. */
  const ValueOptions: set<string> := {"-l", "-H", "-m", "-t", "-N", "--event-listeners"}

  /** What an option parser reads from an argument vector: the value bound
      to each value-taking option (a later occurrence overrides an earlier
      one) and, in order, the switches that take no value. */
  datatype ReadOptions = ReadOptions(values: map<string, string>, switches: seq<string>)

  function ParseOptions(args: seq<string>): ReadOptions
    decreases |args|
  {
    if args == [] then ReadOptions(map[], [])
    else if args[0] in ValueOptions && |args| >= 2 then
      var rest := ParseOptions(args[2..]);
      if args[0] in rest.values then rest
      else rest.(values := rest.values[args[0] := args[1]])
    else
      var rest := ParseOptions(args[1..]);
      rest.(switches := [args[0]] + rest.switches)
  }

  /** A value-taking option in front of a vector binds its value, unless
      a later occurrence already did. */
  lemma ParseValue(flag: string, value: string, rest: seq<string>, r: ReadOptions)
    requires flag in ValueOptions && ParseOptions(rest) == r && flag !in r.values
    ensures ParseOptions([flag, value] + rest) == r.(values := r.values[flag := value])
  {
    assert ([flag, value] + rest)[2..] == rest;
  }

  /** A switch in front of a vector heads the list of switches. */
  lemma ParseSwitch(flag: string, rest: seq<string>, r: ReadOptions)
    requires flag !in ValueOptions && ParseOptions(rest) == r
    ensures ParseOptions([flag] + rest) == r.(switches := [flag] + r.switches)
  {
    assert ([flag] + rest)[1..] == rest;
  }

  /** The address the node manager binds to: `host or '0.0.0.0'`. */
  function BindAddress(host: Option<string>): (addr: string)
    ensures addr != ""
    ensures host.Some? && host.value != "" ==> addr == host.value
    ensures host.None? || host.value == "" ==> addr == "0.0.0.0"
  {
    if host.Some? && host.value != "" then host.value else "0.0.0.0"
  }

  /** start_node_mgr: the node manager's command line. */
  function NodeManagerArgs(logDir: string, logv: nat, maxThreads: int, host: Option<string>, eventListeners: string): (args: seq<string>)
    requires logv >= 1
    ensures ParseOptions(args) == ReadOptions(
      map["--event-listeners" := eventListeners, "-t" := IntToString(maxThreads),
          "-m" := "1024", "-H" := BindAddress(host), "-l" := logDir],
      [VerbosityFlag(logv), "--no-dlm"])
    ensures VerbosityOf(ParseOptions(args).switches[0]) == Some(logv)
  {
    var v := VerbosityFlag(logv);
    assert v !in ValueOptions by { assert v[1] == 'v'; }
    ReadNodeManagerVector(logDir, v, BindAddress(host), IntToString(maxThreads), eventListeners);
    ["-l", logDir, v, "-H", BindAddress(host), "-m", "1024", "-t",
     IntToString(maxThreads), "--no-dlm", "--event-listeners", eventListeners]
  }

  lemma ReadNodeManagerVector(logDir: string, v: string, bind: string, threads: string, eventListeners: string)
    requires v !in ValueOptions
    ensures ParseOptions(["-l", logDir, v, "-H", bind, "-m", "1024", "-t",
                          threads, "--no-dlm", "--event-listeners", eventListeners])
      == ReadOptions(map["--event-listeners" := eventListeners, "-t" := threads,
                         "-m" := "1024", "-H" := bind, "-l" := logDir], [v, "--no-dlm"])
  {
    var t5 := ["-H", bind, "-m", "1024", "-t", threads, "--no-dlm", "--event-listeners", eventListeners];
    ReadNodeManagerMiddle(bind, threads, eventListeners);
    var r5 := ReadOptions(map["--event-listeners" := eventListeners, "-t" := threads,
                              "-m" := "1024", "-H" := bind], ["--no-dlm"]);
    var t6 := [v] + t5;
    ParseSwitch(v, t5, r5);
    var r6 := r5.(switches := [v, "--no-dlm"]);
    ParseValue("-l", logDir, t6, r6);
    assert ["-l", logDir] + t6 == ["-l", logDir, v, "-H", bind, "-m", "1024", "-t",
                                   threads, "--no-dlm", "--event-listeners", eventListeners];
  }

  lemma ReadNodeManagerMiddle(bind: string, threads: string, eventListeners: string)
    ensures ParseOptions(["-H", bind, "-m", "1024", "-t", threads, "--no-dlm", "--event-listeners", eventListeners])
      == ReadOptions(map["--event-listeners" := eventListeners, "-t" := threads,
                         "-m" := "1024", "-H" := bind], ["--no-dlm"])
  {
    var t3 := ["-t", threads, "--no-dlm", "--event-listeners", eventListeners];
    ReadNodeManagerTail(threads, eventListeners);
    var r3 := ReadOptions(map["--event-listeners" := eventListeners, "-t" := threads], ["--no-dlm"]);
    var t4 := ["-m", "1024"] + t3;
    ParseValue("-m", "1024", t3, r3);
    var r4 := r3.(values := r3.values["-m" := "1024"]);
    ParseValue("-H", bind, t4, r4);
    assert ["-H", bind] + t4 == ["-H", bind, "-m", "1024", "-t", threads, "--no-dlm", "--event-listeners", eventListeners];
  }

  lemma ReadNodeManagerTail(threads: string, eventListeners: string)
    ensures ParseOptions(["-t", threads, "--no-dlm", "--event-listeners", eventListeners])
      == ReadOptions(map["--event-listeners" := eventListeners, "-t" := threads], ["--no-dlm"])
  {
    var t0: seq<string> := [];
    var r0 := ReadOptions(map[], []);
    var t1 := ["--event-listeners", eventListeners] + t0;
    ParseValue("--event-listeners", eventListeners, t0, r0);
    var r1 := ReadOptions(map["--event-listeners" := eventListeners], []);
    var t2 := ["--no-dlm"] + t1;
    ParseSwitch("--no-dlm", t1, r1);
    var r2 := r1.(switches := ["--no-dlm"]);
    ParseValue("-t", threads, t2, r2);
    assert ["-t", threads] + t2 == ["-t", threads, "--no-dlm", "--event-listeners", eventListeners];
  }

  /** start_dim: the island manager's command line, supervising the node
      managers in `nodeList`. */
  function IslandManagerArgs(nodeList: seq<string>, logDir: string, logv: nat): (args: seq<string>)
    requires logv >= 1
    ensures ParseOptions(args) == ReadOptions(
      map["-m" := "2048", "-H" := "0.0.0.0", "-N" := Join(nodeList, ','), "-l" := logDir],
      [VerbosityFlag(logv)])
    ensures VerbosityOf(ParseOptions(args).switches[0]) == Some(logv)
  {
    var v := VerbosityFlag(logv);
    assert v !in ValueOptions by { assert v[1] == 'v'; }
    ReadIslandVector(logDir, v, Join(nodeList, ','));
    ["-l", logDir, v, "-N", Join(nodeList, ','), "-H", "0.0.0.0", "-m", "2048"]
  }

  lemma ReadIslandVector(logDir: string, v: string, nodes: string)
    requires v !in ValueOptions
    ensures ParseOptions(["-l", logDir, v, "-N", nodes, "-H", "0.0.0.0", "-m", "2048"])
      == ReadOptions(map["-m" := "2048", "-H" := "0.0.0.0", "-N" := nodes, "-l" := logDir], [v])
  {
    var t0: seq<string> := [];
    var r0 := ReadOptions(map[], []);
    var t1 := ["-m", "2048"] + t0;
    ParseValue("-m", "2048", t0, r0);
    var r1 := ReadOptions(map["-m" := "2048"], []);
    var t2 := ["-H", "0.0.0.0"] + t1;
    ParseValue("-H", "0.0.0.0", t1, r1);
    var r2 := r1.(values := r1.values["-H" := "0.0.0.0"]);
    var t3 := ["-N", nodes] + t2;
    ParseValue("-N", nodes, t2, r2);
    var r3 := r2.(values := r2.values["-N" := nodes]);
    var t4 := [v] + t3;
    ParseSwitch(v, t3, r3);
    var r4 := r3.(switches := [v]);
    ParseValue("-l", logDir, t4, r4);
    assert ["-l", logDir] + t4 == ["-l", logDir, v, "-N", nodes, "-H", "0.0.0.0", "-m", "2048"];
  }

  /** start_mm: the master manager's command line, over the island hosts in
      `nodeList`. */
  function MasterManagerArgs(nodeList: seq<string>, logDir: string, logv: nat): (args: seq<string>)
    requires logv >= 1
    ensures ParseOptions(args) == ReadOptions(
      map["-m" := "2048", "-H" := "0.0.0.0", "-N" := Join(nodeList, ','), "-l" := logDir],
      [VerbosityFlag(logv)])
    ensures VerbosityOf(ParseOptions(args).switches[0]) == Some(logv)
  {
    var v := VerbosityFlag(logv);
    assert v !in ValueOptions by { assert v[1] == 'v'; }
    ReadMasterVector(logDir, v, Join(nodeList, ','));
    ["-l", logDir, "-N", Join(nodeList, ','), v, "-H", "0.0.0.0", "-m", "2048"]
  }

  lemma ReadMasterVector(logDir: string, v: string, nodes: string)
    requires v !in ValueOptions
    ensures ParseOptions(["-l", logDir, "-N", nodes, v, "-H", "0.0.0.0", "-m", "2048"])
      == ReadOptions(map["-m" := "2048", "-H" := "0.0.0.0", "-N" := nodes, "-l" := logDir], [v])
  {
    var t0: seq<string> := [];
    var r0 := ReadOptions(map[], []);
    var t1 := ["-m", "2048"] + t0;
    ParseValue("-m", "2048", t0, r0);
    var r1 := ReadOptions(map["-m" := "2048"], []);
    var t2 := ["-H", "0.0.0.0"] + t1;
    ParseValue("-H", "0.0.0.0", t1, r1);
    var r2 := r1.(values := r1.values["-H" := "0.0.0.0"]);
    var t3 := [v] + t2;
    ParseSwitch(v, t2, r2);
    var r3 := r2.(switches := [v]);
    var t4 := ["-N", nodes] + t3;
    ParseValue("-N", nodes, t3, r3);
    var r4 := r3.(values := r3.values["-N" := nodes]);
    ParseValue("-l", logDir, t4, r4);
    assert ["-l", logDir] + t4 == ["-l", logDir, "-N", nodes, v, "-H", "0.0.0.0", "-m", "2048"];
  }

  /** The island manager recovers exactly the node managers it was given:
      splitting its `-N` value on ',' gives back the list, as long as the
      list is non-empty and no address contains a comma. */
  lemma IslandMembershipRoundTrip(nodeList: seq<string>, logDir: string, logv: nat)
    requires logv >= 1 && nodeList != []
    requires forall i :: 0 <= i < |nodeList| ==> ',' !in nodeList[i]
    ensures Split(ParseOptions(IslandManagerArgs(nodeList, logDir, logv)).values["-N"], ',') == nodeList
    ensures Split(ParseOptions(MasterManagerArgs(nodeList, logDir, logv)).values["-N"], ',') == nodeList
  {
    SplitJoin(nodeList, ',');
  }

  /** `"{0}/{1}".format(log_dir, rank)`: each rank logs under its own
      sub-directory. */
  function RankLogDir(logDir: string, rank: nat): (dir: string)
    ensures |dir| > |logDir| + 1 && dir[..|logDir| + 1] == logDir + "/"
  {
    logDir + "/" + NatToString(rank)
  }

  /** Different ranks never share a log directory. */
  lemma RankLogDirsDistinct(logDir: string, r1: nat, r2: nat)
    requires r1 != r2
    ensures RankLogDir(logDir, r1) != RankLogDir(logDir, r2)
  {
    if RankLogDir(logDir, r1) == RankLogDir(logDir, r2) {
      var prefix := logDir + "/";
      assert RankLogDir(logDir, r1)[|prefix|..] == NatToString(r1);
      assert RankLogDir(logDir, r2)[|prefix|..] == NatToString(r2);
      NatToStringInjective(r1, r2);
    }
  }
}
