/** Assembling the physical graph the launcher submits (`modify_pg` and
    `get_pg` in dlg/deploy/pawsey/start_dfms_cluster.py).

    Unrolling and partitioning a logical graph, loading a physical graph
    file, deriving the pipeline name and mapping drops to nodes are calls
    into other parts of DALiuGE; they are the oracle functions of
    `Services`. A PG modifier changes the graph it is handed in place; here
    it is a function returning the changed graph, and `Registry` stands for
    what `utils.get_symbol` can resolve. */
module GraphAssembly {
  import opened Common
  import opened PhysicalGraph
  import HostProbe

  /** A modifier called as `func(pgt, *args, **kwargs)`. */
  type Modifier = (Graph, seq<string>, map<string, string>) -> Graph

  /** The functions `utils.get_symbol` resolves, by name. */
  type Registry = map<string, Modifier>

  /** One parsed `<funcname>[,[arg=]val]...` specification. */
  datatype ModifierCall = ModifierCall(name: string, args: seq<string>, kwargs: map<string, string>)

  /** The exceptions get_pg lets escape. */
  datatype AssemblyError =
    | UnknownApp(app: int)              // apps[opts.app] is an IndexError
    | UnknownModifier(name: string)     // get_symbol cannot resolve the name
    | MalformedKeyword(part: string)    // `a=b=c`: dict() needs pairs
    | ModifiersMissing                  // None.split(':') is an AttributeError
    | NoNodeManagers                    // check_hosts([]) cannot build its pool

  // ---------------------------------------------------------------------
  // modify_pg: parsing one modifier specification
  // ---------------------------------------------------------------------

  /** `filter(lambda x: '=' not in x, parts)` */
  function Positional(parts: seq<string>): (args: seq<string>)
    ensures forall i :: 0 <= i < |args| ==> '=' !in args[i]
    decreases |parts|
  {
    if parts == [] then []
    else
      var last := parts[|parts| - 1];
      Positional(parts[..|parts| - 1]) + (if '=' !in last then [last] else [])
  }

  /** The positional arguments are exactly the parts without '='. */
  lemma {:induction false} PositionalMembership(parts: seq<string>, a: string)
    ensures a in Positional(parts) <==> a in parts && '=' !in a
    decreases |parts|
  {
    if parts != [] {
      PositionalMembership(parts[..|parts| - 1], a);
      assert parts == parts[..|parts| - 1] + [parts[|parts| - 1]];
    }
  }

  /** `dict(map(lambda x: x.split('='), filter(lambda x: '=' in x, parts)))`:
      each part holding '=' becomes a key and a value, a later key wins, and
      a part that splits into more than two pieces raises. */
  function Keywords(parts: seq<string>): (r: Result<map<string, string>, AssemblyError>)
    ensures r.Success? ==> forall k :: k in r.value ==> '=' !in k && '=' !in r.value[k]
    ensures r.Failure? ==> r.error.MalformedKeyword? && '=' in r.error.part
    decreases |parts|
  {
    if parts == [] then Success(map[])
    else
      var last := parts[|parts| - 1];
      var init := Keywords(parts[..|parts| - 1]);
      if init.Failure? || '=' !in last then init
      else
        var kv := Split(last, '=');
        if |kv| != 2 then Failure(MalformedKeyword(last)) else Success(init.value[kv[0] := kv[1]])
  }

  /** A part holding '=' that splits into exactly a key and a value. */
  predicate WellFormedKeyword(part: string)
  {
    '=' !in part || |Split(part, '=')| == 2
  }

  /** Keyword parsing fails exactly on a malformed part, and reports the
      first one. */
  lemma {:induction false} KeywordsFailure(parts: seq<string>)
    ensures Keywords(parts).Success? <==> forall i :: 0 <= i < |parts| ==> WellFormedKeyword(parts[i])
    ensures Keywords(parts).Failure? ==>
      exists i :: (0 <= i < |parts| && !WellFormedKeyword(parts[i])
        && Keywords(parts).error == MalformedKeyword(parts[i])
        && forall j :: 0 <= j < i ==> WellFormedKeyword(parts[j]))
    decreases |parts|
  {
    if parts != [] {
      var init := parts[..|parts| - 1];
      KeywordsFailure(init);
      assert forall i :: 0 <= i < |init| ==> init[i] == parts[i];
      if Keywords(init).Failure? {
        var i :| 0 <= i < |init| && !WellFormedKeyword(init[i])
          && Keywords(init).error == MalformedKeyword(init[i])
          && forall j :: 0 <= j < i ==> WellFormedKeyword(init[j]);
        assert parts[i] == init[i];
      }
    }
  }

  /** The key of a part holding '='. */
  function KeyOf(part: string): string { Split(part, '=')[0] }

  /** A key is bound exactly when some part names it, and it is bound to
      the value of the LAST part naming it. */
  lemma {:induction false} KeywordsLastWins(parts: seq<string>, i: nat)
    requires Keywords(parts).Success?
    requires i < |parts| && '=' in parts[i]
    requires forall j :: i < j < |parts| && '=' in parts[j] ==> KeyOf(parts[j]) != KeyOf(parts[i])
    ensures KeyOf(parts[i]) in Keywords(parts).value
    ensures Keywords(parts).value[KeyOf(parts[i])] == Split(parts[i], '=')[1]
    decreases |parts|
  {
    var init := parts[..|parts| - 1];
    if i < |parts| - 1 {
      assert Keywords(init).Success?;
      assert init[i] == parts[i];
      forall j | i < j < |init| && '=' in init[j] ensures KeyOf(init[j]) != KeyOf(init[i]) {
        assert init[j] == parts[j];
      }
      KeywordsLastWins(init, i);
    }
  }

  lemma {:induction false} KeywordsDomain(parts: seq<string>, k: string)
    requires Keywords(parts).Success?
    ensures k in Keywords(parts).value <==> exists i :: 0 <= i < |parts| && '=' in parts[i] && KeyOf(parts[i]) == k
    decreases |parts|
  {
    if parts != [] {
      var init := parts[..|parts| - 1];
      KeywordsDomain(init, k);
      assert forall i :: 0 <= i < |init| ==> init[i] == parts[i];
      var last := parts[|parts| - 1];
      if k in Keywords(parts).value && k !in Keywords(init).value {
        assert '=' in last && KeyOf(last) == k;
      }
    }
  }

  /** KeywordsFailure for the parts after the function name. */
  lemma KeywordsOfRest(parts: seq<string>)
    requires |parts| >= 1
    ensures Keywords(parts[1..]).Success? <==> forall i :: 1 <= i < |parts| ==> WellFormedKeyword(parts[i])
    ensures Keywords(parts[1..]).Failure? ==>
      exists i :: (1 <= i < |parts| && !WellFormedKeyword(parts[i])
        && Keywords(parts[1..]).error == MalformedKeyword(parts[i])
        && forall j :: 1 <= j < i ==> WellFormedKeyword(parts[j]))
  {
    var rest := parts[1..];
    KeywordsFailure(rest);
    assert forall i :: 0 <= i < |rest| ==> rest[i] == parts[i + 1];
    if Keywords(rest).Failure? {
      var i :| 0 <= i < |rest| && !WellFormedKeyword(rest[i])
        && Keywords(rest).error == MalformedKeyword(rest[i])
        && forall j :: 0 <= j < i ==> WellFormedKeyword(rest[j]);
      assert parts[i + 1] == rest[i];
      forall j | 1 <= j < i + 1 ensures WellFormedKeyword(parts[j]) {
        assert parts[j] == rest[j - 1];
      }
    } else {
      forall i | 1 <= i < |parts| ensures WellFormedKeyword(parts[i]) {
        assert parts[i] == rest[i - 1];
      }
    }
  }

  /** modify_pg's reading of a specification: the function name first (an
      unknown name raises before anything else is read), then the
      positional and keyword arguments. */
  function ParseModifier(spec: string, registry: Registry): (r: Result<ModifierCall, AssemblyError>)
    ensures r.Failure? <==>
      Split(spec, ',')[0] !in registry || exists i :: 1 <= i < |Split(spec, ',')| && !WellFormedKeyword(Split(spec, ',')[i])
    ensures Split(spec, ',')[0] !in registry ==> r == Failure(UnknownModifier(Split(spec, ',')[0]))
    ensures Split(spec, ',')[0] in registry && r.Failure? ==>
      exists i :: (1 <= i < |Split(spec, ',')| && !WellFormedKeyword(Split(spec, ',')[i])
        && r.error == MalformedKeyword(Split(spec, ',')[i])
        && forall j :: 1 <= j < i ==> WellFormedKeyword(Split(spec, ',')[j]))
    ensures r.Success? ==> r.value.name == Split(spec, ',')[0]
    ensures r.Success? ==> r.value.args == Positional(Split(spec, ',')[1..])
    ensures r.Success? ==> Keywords(Split(spec, ',')[1..]) == Success(r.value.kwargs)
    ensures r.Success? ==> r.value.name in registry && ',' !in r.value.name
    ensures r.Success? ==> forall i :: 0 <= i < |r.value.args| ==> '=' !in r.value.args[i]
  {
    var parts := Split(spec, ',');
    KeywordsOfRest(parts);
    if parts[0] !in registry then Failure(UnknownModifier(parts[0]))
    else match Keywords(parts[1..])
         case Failure(e) => Failure(e)
         case Success(kwargs) => Success(ModifierCall(parts[0], Positional(parts[1..]), kwargs))
  }

  /** A call written back as a specification, with keyword arguments as
      `key=value` parts after the positional ones. */
  function FormatModifier(name: string, args: seq<string>, pairs: seq<(string, string)>): string
  {
    Join([name] + args + KeywordParts(pairs), ',')
  }

  function KeywordParts(pairs: seq<(string, string)>): (parts: seq<string>)
    ensures |parts| == |pairs|
  {
    seq(|pairs|, i requires 0 <= i < |pairs| => pairs[i].0 + "=" + pairs[i].1)
  }

  /** The keyword arguments a list of pairs stands for: a later key wins. */
  function PairsMap(pairs: seq<(string, string)>): map<string, string>
    decreases |pairs|
  {
    if pairs == [] then map[]
    else PairsMap(pairs[..|pairs| - 1])[pairs[|pairs| - 1].0 := pairs[|pairs| - 1].1]
  }

  predicate PlainText(s: string) { ',' !in s && '=' !in s }

  lemma SplitKeyValue(k: string, v: string)
    requires '=' !in k && '=' !in v
    ensures Split(k + "=" + v, '=') == [k, v]
  {
    SplitAt(k, v, '=');
    SplitNoSep(v, '=');
  }

  lemma {:induction false} PositionalPlain(args: seq<string>, pairs: seq<(string, string)>)
    requires forall i :: 0 <= i < |args| ==> PlainText(args[i])
    ensures Positional(args + KeywordParts(pairs)) == args
    decreases |pairs|
  {
    if pairs == [] {
      assert KeywordParts(pairs) == [];
      assert args + KeywordParts(pairs) == args;
      PositionalOfPlain(args);
    } else {
      var init := pairs[..|pairs| - 1];
      var all := args + KeywordParts(pairs);
      assert all[..|all| - 1] == args + KeywordParts(init);
      assert '=' in all[|all| - 1] by { assert all[|all| - 1][|pairs[|pairs| - 1].0|] == '='; }
      PositionalPlain(args, init);
    }
  }

  lemma {:induction false} PositionalOfPlain(args: seq<string>)
    requires forall i :: 0 <= i < |args| ==> '=' !in args[i]
    ensures Positional(args) == args
    decreases |args|
  {
    if args != [] {
      PositionalOfPlain(args[..|args| - 1]);
    }
  }

  lemma {:induction false} KeywordsPlain(args: seq<string>, pairs: seq<(string, string)>)
    requires forall i :: 0 <= i < |args| ==> PlainText(args[i])
    requires forall i :: 0 <= i < |pairs| ==> PlainText(pairs[i].0) && PlainText(pairs[i].1)
    ensures Keywords(args + KeywordParts(pairs)) == Success(PairsMap(pairs))
    decreases |pairs|
  {
    if pairs == [] {
      assert args + KeywordParts(pairs) == args;
      KeywordsOfPlain(args);
    } else {
      var init := pairs[..|pairs| - 1];
      var (k, v) := pairs[|pairs| - 1];
      assert KeywordParts(pairs) == KeywordParts(init) + [k + "=" + v];
      assert args + KeywordParts(pairs) == (args + KeywordParts(init)) + [k + "=" + v];
      KeywordsPlain(args, init);
      KeywordsSnoc(args + KeywordParts(init), k, v);
    }
  }

  /** One more `key=value` part binds the key to the value. */
  lemma KeywordsSnoc(parts: seq<string>, k: string, v: string)
    requires Keywords(parts).Success?
    requires '=' !in k && '=' !in v
    ensures Keywords(parts + [k + "=" + v]) == Success(Keywords(parts).value[k := v])
  {
    var all := parts + [k + "=" + v];
    assert all[..|all| - 1] == parts;
    assert '=' in all[|all| - 1] by { assert all[|all| - 1][|k|] == '='; }
    SplitKeyValue(k, v);
  }

  lemma {:induction false} KeywordsOfPlain(args: seq<string>)
    requires forall i :: 0 <= i < |args| ==> '=' !in args[i]
    ensures Keywords(args) == Success(map[])
    decreases |args|
  {
    if args != [] {
      KeywordsOfPlain(args[..|args| - 1]);
    }
  }

  /** Round trip: a registered name with plain positional arguments and
      plain `key=value` pairs is read back as exactly that call. */
  lemma ParseFormatted(name: string, args: seq<string>, pairs: seq<(string, string)>, registry: Registry)
    requires name in registry && ',' !in name
    requires forall i :: 0 <= i < |args| ==> PlainText(args[i])
    requires forall i :: 0 <= i < |pairs| ==> PlainText(pairs[i].0) && PlainText(pairs[i].1)
    ensures ParseModifier(FormatModifier(name, args, pairs), registry)
      == Success(ModifierCall(name, args, PairsMap(pairs)))
  {
    var rest := args + KeywordParts(pairs);
    assert [name] + args + KeywordParts(pairs) == [name] + rest;
    PartsWithoutComma(name, args, pairs);
    SplitJoin([name] + rest, ',');
    PositionalPlain(args, pairs);
    KeywordsPlain(args, pairs);
    ParseOfParts(FormatModifier(name, args, pairs), name, rest, registry);
  }

  lemma ParseOfParts(spec: string, name: string, rest: seq<string>, registry: Registry)
    requires Split(spec, ',') == [name] + rest && name in registry && Keywords(rest).Success?
    ensures ParseModifier(spec, registry) == Success(ModifierCall(name, Positional(rest), Keywords(rest).value))
  {
    assert Split(spec, ',')[1..] == rest;
  }

  lemma PartsWithoutComma(name: string, args: seq<string>, pairs: seq<(string, string)>)
    requires ',' !in name
    requires forall i :: 0 <= i < |args| ==> PlainText(args[i])
    requires forall i :: 0 <= i < |pairs| ==> PlainText(pairs[i].0) && PlainText(pairs[i].1)
    ensures forall i :: 0 <= i < |[name] + args + KeywordParts(pairs)| ==> ',' !in ([name] + args + KeywordParts(pairs))[i]
  {
    var parts := [name] + args + KeywordParts(pairs);
    forall i | 0 <= i < |parts| ensures ',' !in parts[i] {
      if 0 < i <= |args| {
        assert parts[i] == args[i - 1];
      } else if i > |args| {
        var (k, v) := pairs[i - 1 - |args|];
        assert parts[i] == k + "=" + v;
        assert ',' !in k + "=" + v;
      }
    }
  }

  // ---------------------------------------------------------------------
  // The modifier list
  // ---------------------------------------------------------------------

  /** Every specification of the list parsed in order; the first failure
      is reported. */
  function ParseAll(specs: seq<string>, registry: Registry): (r: Result<seq<ModifierCall>, AssemblyError>)
    ensures r.Success? <==> forall i :: 0 <= i < |specs| ==> ParseModifier(specs[i], registry).Success?
    ensures r.Success? ==>
      |r.value| == |specs| && forall i :: 0 <= i < |specs| ==> r.value[i] == ParseModifier(specs[i], registry).value
    ensures r.Failure? ==>
      exists i :: (0 <= i < |specs| && ParseModifier(specs[i], registry).Failure?
        && r.error == ParseModifier(specs[i], registry).error
        && forall j :: 0 <= j < i ==> ParseModifier(specs[j], registry).Success?)
    ensures r.Success? ==> forall i :: 0 <= i < |r.value| ==> r.value[i].name in registry
    decreases |specs|
  {
    if specs == [] then Success([])
    else
      assert forall i :: 0 <= i < |specs| - 1 ==> specs[..|specs| - 1][i] == specs[i];
      match ParseAll(specs[..|specs| - 1], registry)
      case Failure(e) => Failure(e)
      case Success(calls) =>
        match ParseModifier(specs[|specs| - 1], registry)
        case Failure(e) => Failure(e)
        case Success(c) => Success(calls + [c])
  }

  /** The graph after the modifiers have run on it in order. */
  function ApplyAll(g: Graph, calls: seq<ModifierCall>, registry: Registry): Graph
    requires forall i :: 0 <= i < |calls| ==> calls[i].name in registry
    decreases |calls|
  {
    if calls == [] then g
    else
      var c := calls[|calls| - 1];
      registry[c.name](ApplyAll(g, calls[..|calls| - 1], registry), c.args, c.kwargs)
  }

  /** Running two lists of modifiers one after the other is running their
      concatenation. */
  lemma {:induction false} ApplyAllAppend(g: Graph, c1: seq<ModifierCall>, c2: seq<ModifierCall>, registry: Registry)
    requires forall i :: 0 <= i < |c1| ==> c1[i].name in registry
    requires forall i :: 0 <= i < |c2| ==> c2[i].name in registry
    ensures forall i :: 0 <= i < |c1 + c2| ==> (c1 + c2)[i].name in registry
    ensures ApplyAll(g, c1 + c2, registry) == ApplyAll(ApplyAll(g, c1, registry), c2, registry)
    decreases |c2|
  {
    if c2 == [] {
      assert c1 + c2 == c1;
    } else {
      var init := c2[..|c2| - 1];
      assert (c1 + c2)[..|c1 + c2| - 1] == c1 + init;
      ApplyAllAppend(g, c1, init, registry);
    }
  }

  /** The loop of get_pg: each specification is parsed and its modifier run
      on the graph before the next one is read. */
  method ApplyModifiers(g: Graph, specs: seq<string>, registry: Registry) returns (r: Result<Graph, AssemblyError>)
    ensures ParseAll(specs, registry).Failure? ==> r == Failure(ParseAll(specs, registry).error)
    ensures ParseAll(specs, registry).Success? ==> r == Success(ApplyAll(g, ParseAll(specs, registry).value, registry))
  {
    var pgt := g;
    var i := 0;
    while i < |specs|
      invariant 0 <= i <= |specs|
      invariant ParseAll(specs[..i], registry).Success?
      invariant pgt == ApplyAll(g, ParseAll(specs[..i], registry).value, registry)
    {
      assert specs[..i + 1][..i] == specs[..i];
      var call := ParseModifier(specs[i], registry);
      if call.Failure? {
        ParseAllFailsFrom(specs, i, registry);
        return Failure(call.error);
      }
      pgt := registry[call.value.name](pgt, call.value.args, call.value.kwargs);
      i := i + 1;
    }
    assert specs[..i] == specs;
    r := Success(pgt);
  }

  /** A failure at position i, after a successful prefix, is the failure of
      the whole list. */
  lemma {:induction false} ParseAllFailsFrom(specs: seq<string>, i: nat, registry: Registry)
    requires i < |specs| && ParseAll(specs[..i], registry).Success?
    requires ParseModifier(specs[i], registry).Failure?
    ensures ParseAll(specs, registry) == Failure(ParseModifier(specs[i], registry).error)
    decreases |specs|
  {
    if i == |specs| - 1 {
      assert specs[..|specs| - 1] == specs[..i];
    } else {
      var init := specs[..|specs| - 1];
      assert init[..i] == specs[..i] && init[i] == specs[i];
      ParseAllFailsFrom(init, i, registry);
    }
  }

  /** `opts.pg_modifiers.split(':')` exactly as written: the option has no
      default, so when it is not given the attribute is None and splitting
      it raises. */
  function ModifierSpecsAsWritten(pgModifiers: Option<string>): (r: Result<seq<string>, AssemblyError>)
    ensures r.Failure? <==> pgModifiers.None?
    ensures r.Failure? ==> r.error == ModifiersMissing
    ensures r.Success? ==> Join(r.value, ':') == pgModifiers.value
  {
    match pgModifiers
    case None => Failure(ModifiersMissing)
    case Some(s) => JoinSplit(s, ':'); Success(Split(s, ':'))
  }

  /** The evidently intended reading: no option means no modifiers. */
  function ModifierSpecs(pgModifiers: Option<string>): (specs: seq<string>)
    ensures pgModifiers.None? ==> specs == []
    ensures pgModifiers.Some? ==> Join(specs, ':') == pgModifiers.value
    ensures pgModifiers.Some? ==> ModifierSpecsAsWritten(pgModifiers) == Success(specs)
  {
    match pgModifiers
    case None => []
    case Some(s) => JoinSplit(s, ':'); Split(s, ':')
  }

  /** With the corrected reading, leaving the option out leaves the graph as
      it is. */
  lemma NoModifiersKeepGraph(g: Graph, registry: Registry)
    ensures ParseAll(ModifierSpecs(None), registry) == Success([])
    ensures ApplyAll(g, [], registry) == g
  {
  }

  /** An empty option (`--pg-modifiers ''`) still names one modifier, the
      empty name, which cannot be resolved. */
  lemma EmptyOptionNamesEmptyModifier(registry: Registry)
    requires "" !in registry
    ensures ParseAll(ModifierSpecs(Some("")), registry) == Failure(UnknownModifier(""))
  {
    assert Split("", ':') == [""];
    assert Split("", ',') == [""];
    assert ModifierSpecs(Some("")) == [""];
    assert ModifierSpecs(Some(""))[..0] == [];
  }

  // ---------------------------------------------------------------------
  // get_pg
  // ---------------------------------------------------------------------

  /** `apps`: the application each value of --app selects, with Python's
      negative indexing into the three-element tuple. */
  function AppFor(app: int): (r: Result<Option<string>, AssemblyError>)
    ensures r.Success? <==> -3 <= app <= 2
    ensures r.Failure? ==> r.error == UnknownApp(app)
    ensures r.Success? && r.value.None? <==> app == 0 || app == -3
  {
    var apps := [None, Some("test.graphsRepository.SleepApp"), Some("test.graphsRepository.SleepAndCopyApp")];
    if 0 <= app < 3 then Success(apps[app])
    else if -3 <= app < 0 then Success(apps[app + 3])
    else Failure(UnknownApp(app))
  }

  /** What is asked of the partitioner: the logical graph, the application,
      the number of partitions, the number of islands, and the number of
      template nodes of the physical graph spec. */
  datatype PartitionRequest = PartitionRequest(
    logicalGraph: string, app: Option<string>, numPartitions: nat, numIslands: nat, templateNodes: nat)

  /** The request get_pg makes for `numNms` node managers and `numDims`
      island managers. */
  function PartitionRequestFor(lg: string, app: Option<string>, numNms: nat, numDims: nat): (req: PartitionRequest)
    ensures req.logicalGraph == lg && req.app == app
    ensures req.numPartitions == numNms + numDims && req.numIslands == numDims
    ensures req.templateNodes == req.numPartitions && req.numIslands <= req.numPartitions
  {
    PartitionRequest(lg, app, numNms + numDims, numDims, numNms + numDims)
  }

  /** Two node managers and one island manager: three partitions, one
      island and three template nodes. */
  lemma TwoNodesOneIslandRequest(lg: string, app: Option<string>)
    ensures PartitionRequestFor(lg, app, 2, 1) == PartitionRequest(lg, app, 3, 1, 3)
  {
  }

  /** The parts of DALiuGE get_pg calls into. */
  datatype Services = Services(
    partition: PartitionRequest -> Graph,          // unroll, partition, to_pg_spec
    load: string -> Graph,                         // json.load of a physical graph file
    pipName: string -> string,                     // utils.fname_to_pipname
    resourceMap: (Graph, seq<string>, string, nat) -> Graph,  // tool.resource_map
    check: HostProbe.HostCheck)                    // check_host

  /** The options get_pg reads. */
  datatype GraphOptions = GraphOptions(
    logicalGraph: Option<string>, physicalGraph: Option<string>, app: int, pgModifiers: Option<string>,
    checkWithSession: bool)

  predicate HasGraph(opts: GraphOptions)
  {
    HostProbe.Truthy(opts.logicalGraph) || HostProbe.Truthy(opts.physicalGraph)
  }

  /** `opts.logical_graph or opts.physical_graph`: the file the pipeline
      name is derived from. */
  function GraphFile(opts: GraphOptions): (f: string)
    ensures HasGraph(opts) ==> f != ""
    ensures HostProbe.Truthy(opts.logicalGraph) ==> f == opts.logicalGraph.value
    ensures HasGraph(opts) && !HostProbe.Truthy(opts.logicalGraph) ==> f == opts.physicalGraph.value
  {
    if HostProbe.Truthy(opts.logicalGraph) then opts.logicalGraph.value
    else if opts.physicalGraph.Some? then opts.physicalGraph.value
    else ""
  }

  /** The graph before modification: the partitioned logical graph when one
      is given, the loaded physical graph otherwise. */
  function SourceGraph(opts: GraphOptions, numNms: nat, numDims: nat, svc: Services): (r: Result<Graph, AssemblyError>)
    requires HasGraph(opts)
    ensures r.Failure? <==> HostProbe.Truthy(opts.logicalGraph) && !(-3 <= opts.app <= 2)
    ensures r.Failure? ==> r.error == UnknownApp(opts.app)
    ensures HostProbe.Truthy(opts.logicalGraph) && r.Success? ==>
      r.value == svc.partition(PartitionRequestFor(opts.logicalGraph.value, AppFor(opts.app).value, numNms, numDims))
    ensures !HostProbe.Truthy(opts.logicalGraph) ==> r == Success(svc.load(opts.physicalGraph.value))
  {
    if HostProbe.Truthy(opts.logicalGraph) then
      match AppFor(opts.app)
      case Failure(e) => Failure(e)
      case Success(app) => Success(svc.partition(PartitionRequestFor(opts.logicalGraph.value, app, numNms, numDims)))
    else Success(svc.load(opts.physicalGraph.value))
  }

  /** The node-manager check of get_pg: the node managers' REST port, with
      a session when --check_with_session is given. */
  function NodeProbe(opts: GraphOptions, svc: Services): HostProbe.Probe
  {
    HostProbe.ProbeAt(svc.check, HostProbe.NodeDefaultRestPort, opts.checkWithSession)
  }

  /** The nodes the graph is mapped onto: all island managers, then the node
      managers that answered a single check. */
  function MappedNodes(nms: seq<string>, dims: seq<string>, probe: HostProbe.Probe): (m: seq<string>)
    ensures |dims| <= |m| <= |dims| + |nms|
    ensures m[..|dims|] == dims
    ensures m[|dims|..] == HostProbe.Healthy(probe, nms, 1)
  {
    dims + HostProbe.Healthy(probe, nms, 1)
  }

  lemma MappedNodesLaw(nms: seq<string>, dims: seq<string>, probe: HostProbe.Probe, h: string)
    ensures MappedNodes(nms, dims, probe)[..|dims|] == dims
    ensures h in MappedNodes(nms, dims, probe)[|dims|..] <==> h in nms && h != "" && probe(h, 0)
  {
    var m := MappedNodes(nms, dims, probe);
    assert m[|dims|..] == HostProbe.Healthy(probe, nms, 1);
    HostProbe.HealthyMembership(probe, nms, 1, h);
  }

  /** The rest of get_pg once the source graph is there: run the modifiers
      read from `specs`, then map the result onto the island managers and
      the node managers that are up. */
  function ModifyAndMap(src: Graph, specs: seq<string>, opts: GraphOptions, nms: seq<string>, dims: seq<string>,
                        svc: Services, registry: Registry): Result<Option<Graph>, AssemblyError>
  {
    match ParseAll(specs, registry)
    case Failure(e) => Failure(e)
    case Success(calls) =>
      if nms == [] then Failure(NoNodeManagers)
      else Success(Some(svc.resourceMap(ApplyAll(src, calls, registry), MappedNodes(nms, dims, NodeProbe(opts, svc)),
                                        svc.pipName(GraphFile(opts)), |dims|)))
  }

  /** Reference definition of what get_pg returns or raises, with the
      corrected reading of --pg-modifiers. */
  function PgOf(opts: GraphOptions, nms: seq<string>, dims: seq<string>, svc: Services, registry: Registry)
    : (r: Result<Option<Graph>, AssemblyError>)
    ensures r == Success(None) <==> !HasGraph(opts)
    ensures r.Failure? ==> HasGraph(opts) && !r.error.ModifiersMissing?
    ensures r.Success? && HasGraph(opts) ==> nms != []
  {
    if !HasGraph(opts) then Success(None)
    else match SourceGraph(opts, |nms|, |dims|, svc)
      case Failure(e) => Failure(e)
      case Success(src) => ModifyAndMap(src, ModifierSpecs(opts.pgModifiers), opts, nms, dims, svc, registry)
  }

  /** get_pg exactly as written: --pg-modifiers is split whether or not it
      was given. */
  function PgOfAsWritten(opts: GraphOptions, nms: seq<string>, dims: seq<string>, svc: Services, registry: Registry)
    : Result<Option<Graph>, AssemblyError>
  {
    if !HasGraph(opts) then Success(None)
    else match SourceGraph(opts, |nms|, |dims|, svc)
      case Failure(e) => Failure(e)
      case Success(src) =>
        match ModifierSpecsAsWritten(opts.pgModifiers)
        case Failure(e) => Failure(e)
        case Success(specs) => ModifyAndMap(src, specs, opts, nms, dims, svc, registry)
  }

  /** As written, every get_pg call that is given a graph (with a valid
      --app) and no --pg-modifiers option raises; with the correction the
      same call never fails for that reason. */
  lemma AsWrittenRejectsDefault(opts: GraphOptions, nms: seq<string>, dims: seq<string>, svc: Services, registry: Registry)
    requires HasGraph(opts) && SourceGraph(opts, |nms|, |dims|, svc).Success?
    requires opts.pgModifiers.None?
    ensures PgOfAsWritten(opts, nms, dims, svc, registry) == Failure(ModifiersMissing)
    ensures PgOf(opts, nms, dims, svc, registry) != Failure(ModifiersMissing)
  {
  }

  /** When the option is given, the as-written and the corrected get_pg
      agree. */
  lemma AsWrittenAgreesWhenGiven(opts: GraphOptions, nms: seq<string>, dims: seq<string>, svc: Services, registry: Registry)
    requires opts.pgModifiers.Some?
    ensures PgOfAsWritten(opts, nms, dims, svc, registry) == PgOf(opts, nms, dims, svc, registry)
  {
  }

  /** get_pg(opts, nms, dims): None when no graph is given; otherwise the
      source graph, modified, mapped onto the islands and the node managers
      that are up. An invalid --app is reported before the modifiers are
      read, and the modifiers before the node managers are checked. */
  method GetPg(opts: GraphOptions, nms: seq<string>, dims: seq<string>, svc: Services, registry: Registry)
    returns (r: Result<Option<Graph>, AssemblyError>)
    ensures !HasGraph(opts) ==> r == Success(None)
    ensures HasGraph(opts) ==>
      (r.Success? <==> SourceGraph(opts, |nms|, |dims|, svc).Success?
                       && ParseAll(ModifierSpecs(opts.pgModifiers), registry).Success? && nms != [])
    ensures HasGraph(opts) && SourceGraph(opts, |nms|, |dims|, svc).Failure? ==>
      r == Failure(UnknownApp(opts.app))
    ensures HasGraph(opts) && SourceGraph(opts, |nms|, |dims|, svc).Success?
            && ParseAll(ModifierSpecs(opts.pgModifiers), registry).Failure? ==>
      r == Failure(ParseAll(ModifierSpecs(opts.pgModifiers), registry).error)
    ensures r.Success? && HasGraph(opts) ==>
      r.value == Some(svc.resourceMap(
        ApplyAll(SourceGraph(opts, |nms|, |dims|, svc).value, ParseAll(ModifierSpecs(opts.pgModifiers), registry).value, registry),
        MappedNodes(nms, dims, NodeProbe(opts, svc)), svc.pipName(GraphFile(opts)), |dims|))
    ensures r.Failure? ==> HasGraph(opts)
    ensures r == PgOf(opts, nms, dims, svc, registry)
  {
    if !HasGraph(opts) {
      return Success(None);
    }
    var numNms := |nms|;
    var numDims := |dims|;
    var pipName := svc.pipName(GraphFile(opts));
    var pgt: Graph;
    if HostProbe.Truthy(opts.logicalGraph) {
      var app := AppFor(opts.app);
      if app.Failure? {
        return Failure(app.error);
      }
      pgt := svc.partition(PartitionRequestFor(opts.logicalGraph.value, app.value, numNms, numDims));
    } else {
      pgt := svc.load(opts.physicalGraph.value);
    }

    // modify the PG as necessary
    var modified := ApplyModifiers(pgt, ModifierSpecs(opts.pgModifiers), registry);
    if modified.Failure? {
      return Failure(modified.error);
    }

    // only the node managers that are up are used from now on
    var up := HostProbe.CheckHosts(NodeProbe(opts, svc), nms, 1);
    if up.Failure? {
      return Failure(NoNodeManagers);
    }
    r := Success(Some(svc.resourceMap(modified.value, dims + up.value, pipName, numDims)));
  }
}
