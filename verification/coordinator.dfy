/** The launcher's entry point (`main` in
    dlg/deploy/pawsey/start_dfms_cluster.py): command-line validation, the
    role each process plays, and what each role does, in order.

    The cluster topology (rank, peer lists, the island node lists a member
    receives) comes from MPI or Slurm and is the parameter `Topology`.
    Starting processes, the background submission thread, the proxy server
    and the blocking waits are recorded as `Action`s rather than run. */
module Coordinator {
  import opened Common
  import opened PhysicalGraph
  import HostProbe
  import LaunchArgs
  import GraphAssembly

  /** The part a process plays in the cluster. */
  datatype Role =
    | NodeManagerHost
    | SingleIslandOwner
    | SingleIslandProxy
    | MultiIslandHighest
    | MultiIslandMember

  /** The role is decided once from the topology: a node manager host is
      one whatever the number of islands; with exactly one island the other
      processes are the proxy or the island owner, with any other number the
      highest-level manager or an island member. */
  function RoleOf(isNm: bool, numIslands: int, isProxy: bool, isHighest: bool): (role: Role)
    ensures role == NodeManagerHost <==> isNm
    ensures role == SingleIslandProxy <==> !isNm && numIslands == 1 && isProxy
    ensures role == SingleIslandOwner <==> !isNm && numIslands == 1 && !isProxy
    ensures role == MultiIslandHighest <==> !isNm && numIslands != 1 && isHighest
    ensures role == MultiIslandMember <==> !isNm && numIslands != 1 && !isHighest
  {
    if isNm then NodeManagerHost
    else if numIslands == 1 then (if isProxy then SingleIslandProxy else SingleIslandOwner)
    else if isHighest then MultiIslandHighest
    else MultiIslandMember
  }

  /** The options main reads. */
  datatype Options = Options(
    logDir: string,
    monitorHost: Option<string>,
    monitorPort: int,
    verboseLevel: int,
    maxThreads: int,
    graph: GraphAssembly.GraphOptions,
    numIslands: int,
    dump: bool,
    loc: string,
    allNics: bool,
    checkInterfaces: bool,
    eventListeners: string,
    sleepAfterExecution: int)

  /** Why the command line is refused (`parser.error`). */
  datatype ValidationError =
    | GraphChoice                  // both or neither of -L and -P
    | GraphFileMissing(path: string)
    | MonitorWithIslands           // -m together with more than one island

  datatype Verdict = ShowInterfaces | Rejected(error: ValidationError) | Accepted

  /** The checks main makes before doing anything, in the order it makes
      them; `pathExists` stands for `os.path.exists`. */
  function Validate(opts: Options, pathExists: string -> bool): (v: Verdict)
    ensures v == ShowInterfaces <==> opts.checkInterfaces
    ensures v == Accepted <==>
      && !opts.checkInterfaces
      && HostProbe.Truthy(opts.graph.logicalGraph) != HostProbe.Truthy(opts.graph.physicalGraph)
      && (HostProbe.Truthy(opts.graph.logicalGraph) ==> pathExists(opts.graph.logicalGraph.value))
      && (HostProbe.Truthy(opts.graph.physicalGraph) ==> pathExists(opts.graph.physicalGraph.value))
      && !(opts.monitorHost.Some? && opts.numIslands > 1)
    ensures v == Rejected(GraphChoice) <==>
      !opts.checkInterfaces && HostProbe.Truthy(opts.graph.logicalGraph) == HostProbe.Truthy(opts.graph.physicalGraph)
    ensures v == Accepted ==> GraphAssembly.HasGraph(opts.graph)
  {
    var lg := opts.graph.logicalGraph;
    var pg := opts.graph.physicalGraph;
    if opts.checkInterfaces then ShowInterfaces
    else if HostProbe.Truthy(lg) == HostProbe.Truthy(pg) then Rejected(GraphChoice)
    else if HostProbe.Truthy(lg) && !pathExists(lg.value) then Rejected(GraphFileMissing(lg.value))
    else if HostProbe.Truthy(pg) && !pathExists(pg.value) then Rejected(GraphFileMissing(pg.value))
    else if opts.monitorHost.Some? && opts.numIslands > 1 then Rejected(MonitorWithIslands)
    else Accepted
  }

  /** What a process learns from the cluster topology. */
  datatype Topology = Topology(
    rank: nat,
    myIp: string,
    isNm: bool,
    isProxy: bool,
    isHighest: bool,
    nmIps: seq<string>,
    dimIps: seq<string>,
    hlMgrIp: string,
    receivedDimNodes: seq<string>)   // what recv_dim_nodes() returns

  /** A step of the launcher's run. */
  datatype Action =
    | StartNodeManager(args: seq<string>)
    | StartProxy(loc: string, islandHost: string, monitorHost: Option<string>, monitorPort: int)
    | ProxyNotStarted
    | SubmitAndMonitor(graph: Graph, dumpPath: Option<string>)   // background thread
    | StartIslandManager(args: seq<string>)
    | AwaitExecutionFinished
    | Sleep(seconds: int)
    | TerminateOrKill(timeout: nat)
    | SendIslandNodes(pg: Option<Graph>)
    | IslandsMissing(up: nat, total: nat)                     // a warning
    | SubmitToMaster(pg: Option<Graph>)                       // background thread
    | StartMasterManager(args: seq<string>)
    | WaitOrKill(period: nat)

  /** The exceptions that end a run. */
  datatype LaunchError =
    | GraphFailed(cause: GraphAssembly.AssemblyError)
    | NoIslandManagers     // check_hosts([]) on the island managers
    | NegativeSleep        // time.sleep of a negative interval

  /** Where the execution snapshots go: `<log_dir>/monitor`. */
  function DumpPath(logDir: string): (p: string)
    ensures logDir != "" && logDir[|logDir| - 1] != '/' ==> Dirname(p) == logDir
  {
    MonitorUnderDirectory(logDir);
    logDir + "/monitor"
  }

  lemma MonitorUnderDirectory(logDir: string)
    ensures logDir != "" && logDir[|logDir| - 1] != '/' ==> Dirname(logDir + "/monitor") == logDir
  {
    if logDir != "" && logDir[|logDir| - 1] != '/' {
      assert "monitor" == ['m', 'o', 'n', 'i', 't', 'o', 'r'];
      DirnameOfJoin(logDir, "monitor");
      assert PathJoin(logDir, "monitor") == logDir + "/monitor";
    }
  }

  /** The snapshot files are checked against the directory main creates for
      the rank's logs, so monitoring never stops for a missing directory. */
  lemma DumpDirectoryIsRankLogDir(logDir: string, rank: nat)
    ensures Dirname(DumpPath(LaunchArgs.RankLogDir(logDir, rank))) == LaunchArgs.RankLogDir(logDir, rank)
  {
    var dir := LaunchArgs.RankLogDir(logDir, rank);
    var digits := NatToString(rank);
    assert dir == (logDir + "/") + digits;
    assert dir[|dir| - 1] == digits[|digits| - 1];
    assert IsDigit(digits[|digits| - 1]);
  }

  /** main(), once the options are parsed: the verdict of the checks and,
      when they pass, what the process does in its role. A run that raises
      reports the error with the actions taken before it. */
  method Launch(opts: Options, topo: Topology, pathExists: string -> bool, islandPortOpen: bool,
                svc: GraphAssembly.Services, registry: GraphAssembly.Registry)
    returns (verdict: Verdict, actions: seq<Action>, failure: Option<LaunchError>)
    ensures verdict == Validate(opts, pathExists)
    ensures verdict != Accepted ==> actions == [] && failure == None
    ensures verdict == Accepted ==> (
      var logDir := LaunchArgs.RankLogDir(opts.logDir, topo.rank);
      var logv := LaunchArgs.ClampVerbosity(opts.verboseLevel);
      match RoleOf(topo.isNm, opts.numIslands, topo.isProxy, topo.isHighest)
      case NodeManagerHost =>
        failure == None
        && actions == [StartNodeManager(LaunchArgs.NodeManagerArgs(logDir, logv, opts.maxThreads,
                          if opts.allNics then None else Some(topo.myIp), opts.eventListeners))]
      case SingleIslandProxy =>
        failure == None
        && actions == (if islandPortOpen then [StartProxy(opts.loc, topo.hlMgrIp, opts.monitorHost, opts.monitorPort)]
                       else [ProxyNotStarted])
      case SingleIslandOwner =>
        IslandOwnerRun(opts, topo, logDir, logv, svc, registry, actions, failure)
      case MultiIslandHighest =>
        HighestManagerRun(opts, topo, logDir, logv, svc, registry, actions, failure)
      case MultiIslandMember =>
        failure == None
        && actions == [StartIslandManager(LaunchArgs.IslandManagerArgs(topo.receivedDimNodes, logDir, logv)), WaitOrKill(5)])
  {
    verdict := Validate(opts, pathExists);
    actions := [];
    failure := None;
    if verdict != Accepted {
      return;
    }
    var logDir := LaunchArgs.RankLogDir(opts.logDir, topo.rank);
    var logv := LaunchArgs.ClampVerbosity(opts.verboseLevel);

    match RoleOf(topo.isNm, opts.numIslands, topo.isProxy, topo.isHighest)
    case NodeManagerHost =>
      var host := if opts.allNics then None else Some(topo.myIp);
      actions := [StartNodeManager(LaunchArgs.NodeManagerArgs(logDir, logv, opts.maxThreads, host, opts.eventListeners))];
    case SingleIslandProxy =>
      // wait until the island manager is open
      if islandPortOpen {
        actions := [StartProxy(opts.loc, topo.hlMgrIp, opts.monitorHost, opts.monitorPort)];
      } else {
        actions := [ProxyNotStarted];
      }
    case SingleIslandOwner =>
      actions, failure := RunIslandOwner(opts, topo, logDir, logv, svc, registry);
    case MultiIslandHighest =>
      actions, failure := RunHighestManager(opts, topo, logDir, logv, svc, registry);
    case MultiIslandMember =>
      actions := [StartIslandManager(LaunchArgs.IslandManagerArgs(topo.receivedDimNodes, logDir, logv)), WaitOrKill(5)];
  }

  /** The single-island owner's run: assemble the graph, submit it in the
      background when there is one (monitoring it too with --dump), start
      the island manager over all node managers, wait for the execution to
      finish, sleep, then stop the island manager. */
  predicate IslandOwnerRun(opts: Options, topo: Topology, logDir: string, logv: nat,
                           svc: GraphAssembly.Services, registry: GraphAssembly.Registry,
                           actions: seq<Action>, failure: Option<LaunchError>)
    requires logv >= 1
  {
    var pg := GraphAssembly.PgOf(opts.graph, topo.nmIps, topo.dimIps, svc, registry);
    && (pg.Failure? ==> actions == [] && failure == Some(GraphFailed(pg.error)))
    && (pg.Success? ==>
          var submit := if pg.value.Some? && pg.value.value != []
                        then [SubmitAndMonitor(pg.value.value, if opts.dump then Some(DumpPath(logDir)) else None)]
                        else [];
          var started := submit + [StartIslandManager(LaunchArgs.IslandManagerArgs(topo.nmIps, logDir, logv)),
                                   AwaitExecutionFinished];
          if opts.sleepAfterExecution < 0 then actions == started && failure == Some(NegativeSleep)
          else actions == started + [Sleep(opts.sleepAfterExecution), TerminateOrKill(5)] && failure == None)
  }

  method RunIslandOwner(opts: Options, topo: Topology, logDir: string, logv: nat,
                        svc: GraphAssembly.Services, registry: GraphAssembly.Registry)
    returns (actions: seq<Action>, failure: Option<LaunchError>)
    requires logv >= 1
    ensures IslandOwnerRun(opts, topo, logDir, logv, svc, registry, actions, failure)
  {
    var pg := GraphAssembly.GetPg(opts.graph, topo.nmIps, topo.dimIps, svc, registry);
    if pg.Failure? {
      return [], Some(GraphFailed(pg.error));
    }
    actions := [];
    if pg.value.Some? && pg.value.value != [] {
      var dumpPath := if opts.dump then Some(DumpPath(logDir)) else None;
      actions := actions + [SubmitAndMonitor(pg.value.value, dumpPath)];
    }
    actions := actions + [StartIslandManager(LaunchArgs.IslandManagerArgs(topo.nmIps, logDir, logv))];
    // wait until the pipeline execution has finished
    actions := actions + [AwaitExecutionFinished];
    if opts.sleepAfterExecution < 0 {
      return actions, Some(NegativeSleep);
    }
    actions := actions + [Sleep(opts.sleepAfterExecution), TerminateOrKill(5)];
    failure := None;
  }

  /** The island-manager check of the highest-level manager: the island
      managers' REST port, without a session. */
  function IslandProbe(svc: GraphAssembly.Services): HostProbe.Probe
  {
    HostProbe.ProbeAt(svc.check, HostProbe.IslandDefaultRestPort, false)
  }

  /** The multi-island highest-level manager's run: assemble the graph,
      send the island node lists, check that the island managers are up
      (warning if some are not), submit in the background, then start the
      master manager over ALL island hosts, whether they answered or not. */
  predicate HighestManagerRun(opts: Options, topo: Topology, logDir: string, logv: nat,
                              svc: GraphAssembly.Services, registry: GraphAssembly.Registry,
                              actions: seq<Action>, failure: Option<LaunchError>)
    requires logv >= 1
  {
    var pg := GraphAssembly.PgOf(opts.graph, topo.nmIps, topo.dimIps, svc, registry);
    && (pg.Failure? ==> actions == [] && failure == Some(GraphFailed(pg.error)))
    && (pg.Success? && topo.dimIps == [] ==> actions == [SendIslandNodes(pg.value)] && failure == Some(NoIslandManagers))
    && (pg.Success? && topo.dimIps != [] ==>
          var up := |HostProbe.Healthy(IslandProbe(svc), topo.dimIps, 10)|;
          failure == None
          && actions == [SendIslandNodes(pg.value)]
               + (if up < |topo.dimIps| then [IslandsMissing(up, |topo.dimIps|)] else [])
               + [SubmitToMaster(pg.value), StartMasterManager(LaunchArgs.MasterManagerArgs(topo.dimIps, logDir, logv))])
  }

  method RunHighestManager(opts: Options, topo: Topology, logDir: string, logv: nat,
                           svc: GraphAssembly.Services, registry: GraphAssembly.Registry)
    returns (actions: seq<Action>, failure: Option<LaunchError>)
    requires logv >= 1
    ensures HighestManagerRun(opts, topo, logDir, logv, svc, registry, actions, failure)
  {
    var pg := GraphAssembly.GetPg(opts.graph, topo.nmIps, topo.dimIps, svc, registry);
    if pg.Failure? {
      return [], Some(GraphFailed(pg.error));
    }
    actions := [SendIslandNodes(pg.value)];
    // make sure all island managers are up and running
    var dimsUp := HostProbe.CheckHosts(IslandProbe(svc), topo.dimIps, 10);
    if dimsUp.Failure? {
      return actions, Some(NoIslandManagers);
    }
    if |dimsUp.value| < |topo.dimIps| {
      actions := actions + [IslandsMissing(|dimsUp.value|, |topo.dimIps|)];
    }
    // submit the graph in the background, then start the master manager
    actions := actions + [SubmitToMaster(pg.value)];
    actions := actions + [StartMasterManager(LaunchArgs.MasterManagerArgs(topo.dimIps, logDir, logv))];
    failure := None;
  }

  /** The island owner stops its island manager exactly when nothing went
      wrong, and it starts that manager over every node manager whenever
      the graph could be assembled. */
  lemma IslandOwnerStops(opts: Options, topo: Topology, logDir: string, logv: nat,
                         svc: GraphAssembly.Services, registry: GraphAssembly.Registry,
                         actions: seq<Action>, failure: Option<LaunchError>)
    requires logv >= 1
    requires IslandOwnerRun(opts, topo, logDir, logv, svc, registry, actions, failure)
    ensures failure == None <==> |actions| >= 1 && actions[|actions| - 1] == TerminateOrKill(5)
    ensures failure == None <==>
      GraphAssembly.PgOf(opts.graph, topo.nmIps, topo.dimIps, svc, registry).Success? && opts.sleepAfterExecution >= 0
    ensures GraphAssembly.PgOf(opts.graph, topo.nmIps, topo.dimIps, svc, registry).Success? ==>
      StartIslandManager(LaunchArgs.IslandManagerArgs(topo.nmIps, logDir, logv)) in actions
  {
    var pg := GraphAssembly.PgOf(opts.graph, topo.nmIps, topo.dimIps, svc, registry);
    if pg.Success? {
      var submit := if pg.value.Some? && pg.value.value != []
                    then [SubmitAndMonitor(pg.value.value, if opts.dump then Some(DumpPath(logDir)) else None)]
                    else [];
      var start := StartIslandManager(LaunchArgs.IslandManagerArgs(topo.nmIps, logDir, logv));
      assert actions[|submit|] == start;
    }
  }

  /** The master manager is started, over all island hosts, exactly when
      the graph could be assembled and there is at least one island host;
      the graph sent to the islands is the one submitted to the master. */
  lemma HighestManagerStartsMaster(opts: Options, topo: Topology, logDir: string, logv: nat,
                                   svc: GraphAssembly.Services, registry: GraphAssembly.Registry,
                                   actions: seq<Action>, failure: Option<LaunchError>)
    requires logv >= 1
    requires HighestManagerRun(opts, topo, logDir, logv, svc, registry, actions, failure)
    ensures failure == None <==> (|actions| >= 1
      && actions[|actions| - 1] == StartMasterManager(LaunchArgs.MasterManagerArgs(topo.dimIps, logDir, logv)))
    ensures failure == None <==>
      GraphAssembly.PgOf(opts.graph, topo.nmIps, topo.dimIps, svc, registry).Success? && topo.dimIps != []
    ensures failure == None ==>
      actions[0] == SendIslandNodes(GraphAssembly.PgOf(opts.graph, topo.nmIps, topo.dimIps, svc, registry).value)
      && actions[|actions| - 2] == SubmitToMaster(GraphAssembly.PgOf(opts.graph, topo.nmIps, topo.dimIps, svc, registry).value)
  {
  }

  /** An accepted command line always names a graph, so the processes that
      assemble one never get None from get_pg. */
  lemma AcceptedRunHasGraph(opts: Options, pathExists: string -> bool, topo: Topology,
                            svc: GraphAssembly.Services, registry: GraphAssembly.Registry)
    requires Validate(opts, pathExists) == Accepted
    ensures GraphAssembly.PgOf(opts.graph, topo.nmIps, topo.dimIps, svc, registry) != Success(None)
  {
  }
}
