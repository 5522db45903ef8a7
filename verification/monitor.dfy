/** Watching a deployed graph (`monitor_graph` and
    `monitor_execution_finished` in dlg/deploy/pawsey/start_dfms_cluster.py).

    The island manager's REST client, the clock and the log files are I/O.
    What each poll of the client returns is a parameter; the clock enters as
    the time one session's turn took (`elapsed`, in whole milliseconds) and
    the `'%.3f'` time stamp of the turn (`stamps`); the two JSON-lines log files are the sequences
    of records appended to them. The source polls forever; a method here
    runs the polls it is given. */
module ExecutionMonitor {
  import opened Common

  /** GRAPH_MONITOR_INTERVAL (5 seconds), in milliseconds. */
  const GraphMonitorInterval: int := 5000

  /** The states of a session on one node (dlg.manager.session.SessionStates). */
  datatype SessionState = Pristine | Building | Deploying | Running | Finished | Cancelled

  /** `session['status']`: the session's state on each node. */
  type StatusMap = map<string, SessionState>

  /** `all(s == FINISHED for s in status.values())`; true for an empty map. */
  predicate AllFinished(status: StatusMap)
  {
    forall n :: n in status ==> status[n] == Finished
  }

  /** How long to sleep after a turn that took `dt` (in the unit of
      `interval`): a turn lasts at least `interval` in all, and no sleep
      follows a turn that already took that long. */
  function PauseAfter(dt: int, interval: int): (pause: int)
    ensures pause >= 0
    ensures dt + pause >= interval
    ensures pause > 0 ==> dt + pause == interval
  {
    if dt < interval then interval - dt else 0
  }

  // ---------------------------------------------------------------------
  // monitor_execution_finished
  // ---------------------------------------------------------------------

  /** One pass of the inner `for` over `dc.sessions()`: it stops at the
      first session whose nodes have all finished; after every other
      session it sleeps. */
  method AwaitRound(sessions: seq<StatusMap>, elapsed: nat -> int) returns (done: bool, pauses: seq<int>)
    ensures done <==> exists i :: 0 <= i < |sessions| && AllFinished(sessions[i])
    ensures done ==> |pauses| < |sessions| && AllFinished(sessions[|pauses|])
    ensures !done ==> |pauses| == |sessions|
    ensures forall i :: 0 <= i < |pauses| ==> !AllFinished(sessions[i])
    ensures forall i :: 0 <= i < |pauses| ==> pauses[i] == PauseAfter(elapsed(i), GraphMonitorInterval)
  {
    pauses := [];
    var i := 0;
    while i < |sessions|
      invariant 0 <= i <= |sessions| && |pauses| == i
      invariant forall j :: 0 <= j < i ==> !AllFinished(sessions[j])
      invariant forall j :: 0 <= j < i ==> pauses[j] == PauseAfter(elapsed(j), GraphMonitorInterval)
    {
      if AllFinished(sessions[i]) {
        return true, pauses;
      }
      pauses := pauses + [PauseAfter(elapsed(i), GraphMonitorInterval)];
      i := i + 1;
    }
    done := false;
  }

  /** The first round holding a finished session, if any. */
  function FirstFinishedRound(rounds: seq<seq<StatusMap>>): (k: Option<nat>)
    ensures k.Some? ==> (k.value < |rounds|
      && (exists i :: 0 <= i < |rounds[k.value]| && AllFinished(rounds[k.value][i]))
      && forall r, i :: 0 <= r < k.value && 0 <= i < |rounds[r]| ==> !AllFinished(rounds[r][i]))
    ensures k.None? ==> forall r, i :: 0 <= r < |rounds| && 0 <= i < |rounds[r]| ==> !AllFinished(rounds[r][i])
    decreases |rounds|
  {
    if rounds == [] then None
    else if exists i :: 0 <= i < |rounds[0]| && AllFinished(rounds[0][i]) then Some(0)
    else
      match FirstFinishedRound(rounds[1..])
      case None => None
      case Some(k) => Some(k + 1)
  }

  /** monitor_execution_finished: `while True` over the rounds of
      `dc.sessions()` it is given; it returns in the first round in which
      some session has finished on all of its nodes, without looking at the
      other sessions. */
  method MonitorExecutionFinished(rounds: seq<seq<StatusMap>>, elapsed: (nat, nat) -> int)
    returns (finishedIn: Option<nat>)
    ensures finishedIn == FirstFinishedRound(rounds)
  {
    var r: nat := 0;
    while r < |rounds|
      invariant 0 <= r <= |rounds|
      invariant forall q, i :: 0 <= q < r && 0 <= i < |rounds[q]| ==> !AllFinished(rounds[q][i])
    {
      var done, _ := AwaitRound(rounds[r], (i: nat) => elapsed(r, i));
      if done {
        FirstFinishedRoundIs(rounds, r);
        return Some(r);
      }
      r := r + 1;
    }
    FirstFinishedRoundNone(rounds);
    finishedIn := None;
  }

  lemma {:induction false} FirstFinishedRoundIs(rounds: seq<seq<StatusMap>>, r: nat)
    requires r < |rounds| && exists i :: 0 <= i < |rounds[r]| && AllFinished(rounds[r][i])
    requires forall q, i :: 0 <= q < r && 0 <= i < |rounds[q]| ==> !AllFinished(rounds[q][i])
    ensures FirstFinishedRound(rounds) == Some(r)
    decreases r
  {
    if r > 0 {
      assert !exists i :: 0 <= i < |rounds[0]| && AllFinished(rounds[0][i]);
      FirstFinishedRoundIs(rounds[1..], r - 1);
    }
  }

  lemma FirstFinishedRoundNone(rounds: seq<seq<StatusMap>>)
    requires forall q, i :: 0 <= q < |rounds| && 0 <= i < |rounds[q]| ==> !AllFinished(rounds[q][i])
    ensures FirstFinishedRound(rounds) == None
  {
  }

  /** A session that reports no node at all counts as finished, and one
      finished session is enough to stop waiting whatever the others say. */
  lemma FinishedSessionEndsWait(before: seq<StatusMap>, after: seq<StatusMap>)
    requires forall i :: 0 <= i < |before| ==> !AllFinished(before[i])
    ensures AllFinished(map[])
    ensures FirstFinishedRound([before + [map[]] + after]) == Some(0)
  {
    var round := before + [map[]] + after;
    assert round[|before|] == map[];
    assert AllFinished(round[|before|]);
    assert [round][0] == round;
  }

  // ---------------------------------------------------------------------
  // monitor_graph
  // ---------------------------------------------------------------------

  /** What one poll reports about a session: its id, its graph status and
      its graph (as the JSON text the client returns). */
  datatype SessionView = SessionView(ssid: string, graphStatus: string, graph: string)

  /** A line of the `_g.log` file: a session and its graph. */
  datatype GraphRecord = GraphRecord(ssid: string, graph: string)

  /** A line of the `_s.log` file: a session, its graph status and when. */
  datatype StatusRecord = StatusRecord(ssid: string, graphStatus: string, ts: string)

  /** Each session's graph is logged once and is the one kept in `graphs`,
      every session kept was logged, and every status line is about a
      session whose graph was logged. */
  ghost predicate Consistent(graphs: map<string, string>, graphLog: seq<GraphRecord>, statusLog: seq<StatusRecord>)
  {
    && (forall i, j :: 0 <= i < j < |graphLog| ==> graphLog[i].ssid != graphLog[j].ssid)
    && (forall i :: 0 <= i < |graphLog| ==> graphLog[i].ssid in graphs && graphs[graphLog[i].ssid] == graphLog[i].graph)
    && (forall s :: s in graphs ==> exists i :: 0 <= i < |graphLog| && graphLog[i].ssid == s)
    && (forall i :: 0 <= i < |statusLog| ==> statusLog[i].ssid in graphs)
  }

  /** A status line about a session already seen keeps the state consistent. */
  lemma StatusOfKnownSession(graphs: map<string, string>, graphLog: seq<GraphRecord>, statusLog: seq<StatusRecord>, rec: StatusRecord)
    requires Consistent(graphs, graphLog, statusLog) && rec.ssid in graphs
    ensures Consistent(graphs, graphLog, statusLog + [rec])
  {
  }

  /** Recording a new session's graph, then its status line, keeps the state
      consistent. */
  lemma FirstSightOfSession(graphs: map<string, string>, graphLog: seq<GraphRecord>, statusLog: seq<StatusRecord>,
                            view: SessionView, rec: StatusRecord)
    requires Consistent(graphs, graphLog, statusLog) && view.ssid !in graphs && rec.ssid == view.ssid
    ensures Consistent(graphs[view.ssid := view.graph], graphLog + [GraphRecord(view.ssid, view.graph)], statusLog + [rec])
  {
    var graphs' := graphs[view.ssid := view.graph];
    var graphLog' := graphLog + [GraphRecord(view.ssid, view.graph)];
    forall i | 0 <= i < |graphLog| ensures graphLog[i].ssid != view.ssid {
    }
    forall s | s in graphs' ensures exists i :: 0 <= i < |graphLog'| && graphLog'[i].ssid == s {
      if s == view.ssid {
        assert graphLog'[|graphLog|].ssid == s;
      } else {
        var i :| 0 <= i < |graphLog| && graphLog[i].ssid == s;
        assert graphLog'[i] == graphLog[i];
      }
    }
  }

  /** The state monitor_graph keeps: the graph of every session seen so far
      (`graph_dict`) and the lines appended to its two log files. */
  class GraphMonitor {
    const graphFile: string
    const statusFile: string
    var graphs: map<string, string>
    var graphLog: seq<GraphRecord>
    var statusLog: seq<StatusRecord>

    ghost predicate Valid()
      reads this
    {
      Consistent(graphs, graphLog, statusLog)
    }

    /** The log files `<dump_path>_g.log` and `<dump_path>_s.log`, both
        still empty. */
    constructor (dumpPath: string)
      ensures graphFile == dumpPath + "_g.log" && statusFile == dumpPath + "_s.log"
      ensures graphs == map[] && graphLog == [] && statusLog == []
      ensures Valid()
    {
      graphFile := dumpPath + "_g.log";
      statusFile := dumpPath + "_s.log";
      graphs := map[];
      graphLog := [];
      statusLog := [];
    }

    /** The body of the inner loop for one session: a status line is always
        appended; the graph is fetched and logged only the first time the
        session is seen. */
    method Visit(view: SessionView, ts: string)
      requires Valid()
      modifies this
      ensures Valid()
      ensures statusLog == old(statusLog) + [StatusRecord(view.ssid, view.graphStatus, ts)]
      ensures view.ssid in old(graphs) ==> graphs == old(graphs) && graphLog == old(graphLog)
      ensures view.ssid !in old(graphs) ==>
        graphs == old(graphs)[view.ssid := view.graph] && graphLog == old(graphLog) + [GraphRecord(view.ssid, view.graph)]
    {
      var rec := StatusRecord(view.ssid, view.graphStatus, ts);
      if view.ssid !in graphs {
        FirstSightOfSession(graphs, graphLog, statusLog, view, rec);
        graphs := graphs[view.ssid := view.graph];
        graphLog := graphLog + [GraphRecord(view.ssid, view.graph)];
      } else {
        StatusOfKnownSession(graphs, graphLog, statusLog, rec);
      }
      statusLog := statusLog + [rec];
    }

    /** One pass of the inner `for` over the sessions of a poll: a status
        line per session, in order, and the graphs of the sessions not seen
        before, logged in the order they were first met (see RecordedKeys,
        RecordedKeepsKnown, RecordedFirstView and FirstSightsAreNew). */
    method PollRound(views: seq<SessionView>, stamps: nat -> string, elapsed: nat -> int) returns (pauses: seq<int>)
      requires Valid()
      modifies this
      ensures Valid()
      ensures statusLog == old(statusLog) + StatusLines(views, stamps, |views|)
      ensures graphs == Recorded(old(graphs), views, |views|)
      ensures graphLog == old(graphLog) + FirstSights(old(graphs), views, |views|)
      ensures pauses == Pauses(elapsed, |views|)
    {
      ghost var known := graphs;
      pauses := [];
      var i := 0;
      while i < |views|
        invariant 0 <= i <= |views| && |pauses| == i
        invariant Valid()
        invariant statusLog == old(statusLog) + StatusLines(views, stamps, i)
        invariant graphs == Recorded(known, views, i)
        invariant graphLog == old(graphLog) + FirstSights(known, views, i)
        invariant pauses == Pauses(elapsed, i)
      {
        StatusLinesGrow(views, stamps, i);
        PausesGrow(elapsed, i);
        RecordedGrow(known, views, i);
        Visit(views[i], stamps(i));
        pauses := pauses + [PauseAfter(elapsed(i), GraphMonitorInterval)];
        i := i + 1;
      }
    }
  }

  /** Visiting view `n` records it and logs it exactly when its session is
      new. */
  lemma RecordedGrow(known: map<string, string>, views: seq<SessionView>, n: nat)
    requires n < |views|
    ensures var prev := Recorded(known, views, n);
      && (views[n].ssid in prev ==>
            Recorded(known, views, n + 1) == prev && FirstSights(known, views, n + 1) == FirstSights(known, views, n))
      && (views[n].ssid !in prev ==>
            Recorded(known, views, n + 1) == prev[views[n].ssid := views[n].graph]
            && FirstSights(known, views, n + 1) == FirstSights(known, views, n) + [GraphRecord(views[n].ssid, views[n].graph)])
  {
  }

  /** The sessions' graphs once the first `n` views of a poll have been
      visited, starting from `known`. */
  function Recorded(known: map<string, string>, views: seq<SessionView>, n: nat): map<string, string>
    requires n <= |views|
    decreases n
  {
    if n == 0 then known
    else
      var prev := Recorded(known, views, n - 1);
      var v := views[n - 1];
      if v.ssid in prev then prev else prev[v.ssid := v.graph]
  }

  /** The `_g.log` lines written while visiting the first `n` views of a
      poll, starting from `known`: one per view whose session had not been
      recorded before it. */
  function FirstSights(known: map<string, string>, views: seq<SessionView>, n: nat): seq<GraphRecord>
    requires n <= |views|
    decreases n
  {
    if n == 0 then []
    else
      var v := views[n - 1];
      FirstSights(known, views, n - 1)
        + (if v.ssid in Recorded(known, views, n - 1) then [] else [GraphRecord(v.ssid, v.graph)])
  }

  /** The graph lines of a poll name exactly the sessions that were new to
      the monitor, each with the graph recorded for it. */
  lemma {:induction false} FirstSightsAreNew(known: map<string, string>, views: seq<SessionView>, n: nat)
    requires n <= |views|
    ensures forall j :: 0 <= j < |FirstSights(known, views, n)| ==>
      var g := FirstSights(known, views, n)[j];
      g.ssid !in known && g.ssid in Recorded(known, views, n) && Recorded(known, views, n)[g.ssid] == g.graph
    ensures forall s :: s in Seen(views, n) && s !in known ==>
      exists j :: 0 <= j < |FirstSights(known, views, n)| && FirstSights(known, views, n)[j].ssid == s
    decreases n
  {
    if n > 0 {
      FirstSightsAreNew(known, views, n - 1);
      RecordedKeys(known, views, n - 1);
      var prev := Recorded(known, views, n - 1);
      var v := views[n - 1];
      var before := FirstSights(known, views, n - 1);
      var fs := FirstSights(known, views, n);
      assert fs[..|before|] == before;
      forall j | 0 <= j < |fs|
        ensures fs[j].ssid !in known && fs[j].ssid in Recorded(known, views, n)
                && Recorded(known, views, n)[fs[j].ssid] == fs[j].graph
      {
        if j < |before| {
          assert fs[j] == before[j];
        }
      }
      forall s | s in Seen(views, n) && s !in known
        ensures exists j :: 0 <= j < |fs| && fs[j].ssid == s
      {
        var k :| 0 <= k < n && views[k].ssid == s;
        if s in Seen(views, n - 1) {
          var j :| 0 <= j < |before| && before[j].ssid == s;
          assert fs[j] == before[j];
        } else {
          assert k == n - 1;
          assert s !in prev;
          assert fs[|before|].ssid == s;
        }
      }
    }
  }

  /** After a poll the known sessions are the old ones and those polled. */
  lemma {:induction false} RecordedKeys(known: map<string, string>, views: seq<SessionView>, n: nat)
    requires n <= |views|
    ensures Recorded(known, views, n).Keys == known.Keys + Seen(views, n)
    decreases n
  {
    if n > 0 {
      RecordedKeys(known, views, n - 1);
      assert Seen(views, n) == Seen(views, n - 1) + {views[n - 1].ssid};
    }
  }

  /** A graph once recorded never changes. */
  lemma {:induction false} RecordedKeepsKnown(known: map<string, string>, views: seq<SessionView>, n: nat)
    requires n <= |views|
    ensures forall s :: s in known ==> s in Recorded(known, views, n) && Recorded(known, views, n)[s] == known[s]
    decreases n
  {
    if n > 0 {
      RecordedKeepsKnown(known, views, n - 1);
    }
  }

  /** A session new to the monitor is recorded with the graph of its FIRST
      view in the poll. */
  lemma RecordedFirstView(known: map<string, string>, views: seq<SessionView>, n: nat)
    requires n <= |views|
    ensures forall k :: (0 <= k < n && views[k].ssid !in known && views[k].ssid !in Seen(views, k)) ==>
      views[k].ssid in Recorded(known, views, n) && Recorded(known, views, n)[views[k].ssid] == views[k].graph
  {
    forall k | 0 <= k < n && views[k].ssid !in known && views[k].ssid !in Seen(views, k)
      ensures views[k].ssid in Recorded(known, views, n) && Recorded(known, views, n)[views[k].ssid] == views[k].graph
    {
      RecordedFirstAt(known, views, n, k);
    }
  }

  lemma {:induction false} RecordedFirstAt(known: map<string, string>, views: seq<SessionView>, n: nat, k: nat)
    requires k < n <= |views|
    requires views[k].ssid !in known && views[k].ssid !in Seen(views, k)
    ensures views[k].ssid in Recorded(known, views, n) && Recorded(known, views, n)[views[k].ssid] == views[k].graph
    decreases n
  {
    if k == n - 1 {
      RecordedKeys(known, views, n - 1);
    } else {
      RecordedFirstAt(known, views, n - 1, k);
      RecordedKeys(known, views, n - 1);
    }
  }

  /** The sessions among the first `n` views of a poll. */
  ghost function Seen(views: seq<SessionView>, n: nat): set<string>
    requires n <= |views|
  {
    set k | 0 <= k < n :: views[k].ssid
  }

  /** The sleeps after the first `n` turns of a poll. */
  function Pauses(elapsed: nat -> int, n: nat): (pauses: seq<int>)
    ensures |pauses| == n
  {
    seq(n, k requires 0 <= k < n => PauseAfter(elapsed(k), GraphMonitorInterval))
  }

  /** The status lines for the first `n` views of a poll. */
  function StatusLines(views: seq<SessionView>, stamps: nat -> string, n: nat): (lines: seq<StatusRecord>)
    requires n <= |views|
    ensures |lines| == n
  {
    seq(n, k requires 0 <= k < n => StatusRecord(views[k].ssid, views[k].graphStatus, stamps(k)))
  }

  /** The sessions met in the first `r` polls. */
  ghost function Polled(polls: seq<seq<SessionView>>, r: nat): set<string>
    requires r <= |polls|
  {
    set q, i | 0 <= q < r && 0 <= i < |polls[q]| :: polls[q][i].ssid
  }

  lemma PolledOneMore(polls: seq<seq<SessionView>>, r: nat)
    requires r < |polls|
    ensures Polled(polls, r + 1) == Polled(polls, r) + Seen(polls[r], |polls[r]|)
  {
    forall s | s in Polled(polls, r + 1)
      ensures s in Polled(polls, r) + Seen(polls[r], |polls[r]|)
    {
      var q, i :| 0 <= q < r + 1 && 0 <= i < |polls[q]| && polls[q][i].ssid == s;
      if q < r {
        assert s in Polled(polls, r);
      } else {
        assert s in Seen(polls[r], |polls[r]|);
      }
    }
  }

  lemma StatusLinesGrow(views: seq<SessionView>, stamps: nat -> string, n: nat)
    requires n < |views|
    ensures StatusLines(views, stamps, n + 1)
      == StatusLines(views, stamps, n) + [StatusRecord(views[n].ssid, views[n].graphStatus, stamps(n))]
  {
  }

  lemma PausesGrow(elapsed: nat -> int, n: nat)
    ensures Pauses(elapsed, n + 1) == Pauses(elapsed, n) + [PauseAfter(elapsed(n), GraphMonitorInterval)]
  {
  }

  /** The stamps and the turn times of poll `r`. */
  function RoundStamps(stamps: (nat, nat) -> string, r: nat): nat -> string
  {
    (i: nat) => stamps(r, i)
  }

  function RoundElapsed(elapsed: (nat, nat) -> int, r: nat): nat -> int
  {
    (i: nat) => elapsed(r, i)
  }

  /** `graph_dict` after the first `r` polls. */
  function RecordedAll(polls: seq<seq<SessionView>>, r: nat): map<string, string>
    requires r <= |polls|
  {
    if r == 0 then map[] else Recorded(RecordedAll(polls, r - 1), polls[r - 1], |polls[r - 1]|)
  }

  /** The `_g.log` lines after the first `r` polls. */
  function AllFirstSights(polls: seq<seq<SessionView>>, r: nat): seq<GraphRecord>
    requires r <= |polls|
  {
    if r == 0 then [] else AllFirstSights(polls, r - 1) + FirstSights(RecordedAll(polls, r - 1), polls[r - 1], |polls[r - 1]|)
  }

  /** The `_s.log` lines after the first `r` polls. */
  function AllStatusLines(polls: seq<seq<SessionView>>, stamps: (nat, nat) -> string, r: nat): seq<StatusRecord>
    requires r <= |polls|
  {
    if r == 0 then []
    else AllStatusLines(polls, stamps, r - 1) + StatusLines(polls[r - 1], RoundStamps(stamps, r - 1), |polls[r - 1]|)
  }

  /** Poll `r` extends the three references by what PollRound does. */
  lemma AllGrow(polls: seq<seq<SessionView>>, stamps: (nat, nat) -> string, r: nat)
    requires r < |polls|
    ensures RecordedAll(polls, r + 1) == Recorded(RecordedAll(polls, r), polls[r], |polls[r]|)
    ensures AllFirstSights(polls, r + 1) == AllFirstSights(polls, r) + FirstSights(RecordedAll(polls, r), polls[r], |polls[r]|)
    ensures AllStatusLines(polls, stamps, r + 1)
      == AllStatusLines(polls, stamps, r) + StatusLines(polls[r], RoundStamps(stamps, r), |polls[r]|)
  {
  }

  /** The sessions kept after all polls are exactly those some poll met. */
  lemma RecordedAllSessions(polls: seq<seq<SessionView>>)
    ensures forall s :: s in RecordedAll(polls, |polls|) <==>
      exists r, i :: 0 <= r < |polls| && 0 <= i < |polls[r]| && polls[r][i].ssid == s
  {
    RecordedAllKeys(polls, |polls|);
  }

  /** The sessions kept after `r` polls are exactly those met in them. */
  lemma {:induction false} RecordedAllKeys(polls: seq<seq<SessionView>>, r: nat)
    requires r <= |polls|
    ensures RecordedAll(polls, r).Keys == Polled(polls, r)
    decreases r
  {
    if r > 0 {
      RecordedAllKeys(polls, r - 1);
      RecordedKeys(RecordedAll(polls, r - 1), polls[r - 1], |polls[r - 1]|);
      PolledOneMore(polls, r - 1);
    }
  }

  /** A graph kept after `q` polls is still kept, unchanged, after `r`. */
  lemma {:induction false} RecordedAllKeepsKnown(polls: seq<seq<SessionView>>, q: nat, r: nat)
    requires q <= r <= |polls|
    ensures forall s :: s in RecordedAll(polls, q) ==>
      s in RecordedAll(polls, r) && RecordedAll(polls, r)[s] == RecordedAll(polls, q)[s]
    decreases r
  {
    if q < r {
      RecordedAllKeepsKnown(polls, q, r - 1);
      RecordedKeepsKnown(RecordedAll(polls, r - 1), polls[r - 1], |polls[r - 1]|);
    }
  }

  /** Whatever later polls report, the graph kept for a session is the one
      of the first poll and the first view that met it. */
  lemma MonitorKeepsFirstView(polls: seq<seq<SessionView>>, q: nat, i: nat)
    requires q < |polls| && i < |polls[q]|
    requires polls[q][i].ssid !in Polled(polls, q) && polls[q][i].ssid !in Seen(polls[q], i)
    ensures polls[q][i].ssid in RecordedAll(polls, |polls|)
    ensures RecordedAll(polls, |polls|)[polls[q][i].ssid] == polls[q][i].graph
  {
    RecordedAllKeys(polls, q);
    RecordedFirstAt(RecordedAll(polls, q), polls[q], |polls[q]|, i);
    RecordedAllKeepsKnown(polls, q + 1, |polls|);
  }

  /** monitor_graph(host, port, dump_path): nothing is monitored when the
      directory of `dump_path` does not exist (`os.path.exists('')` is
      false, so a bare file name is not monitored either); otherwise the
      monitor is set up on the two log files and runs the polls it is
      given. */
  method MonitorGraph(dumpPath: string, dirExists: string -> bool, polls: seq<seq<SessionView>>,
                      stamps: (nat, nat) -> string, elapsed: (nat, nat) -> int)
    returns (m: Option<GraphMonitor>)
    ensures m.None? <==> Dirname(dumpPath) == "" || !dirExists(Dirname(dumpPath))
    ensures m.Some? ==> (fresh(m.value) && m.value.Valid()
      && m.value.graphFile == dumpPath + "_g.log" && m.value.statusFile == dumpPath + "_s.log"
      && m.value.graphs == RecordedAll(polls, |polls|)
      && m.value.graphLog == AllFirstSights(polls, |polls|)
      && m.value.statusLog == AllStatusLines(polls, stamps, |polls|)
      && forall s :: s in m.value.graphs <==> exists r, i :: 0 <= r < |polls| && 0 <= i < |polls[r]| && polls[r][i].ssid == s)
  {
    if Dirname(dumpPath) == "" || !dirExists(Dirname(dumpPath)) {
      return None;
    }
    var monitor := new GraphMonitor(dumpPath);
    var r: nat := 0;
    while r < |polls|
      invariant 0 <= r <= |polls|
      invariant monitor.Valid()
      invariant monitor.graphFile == dumpPath + "_g.log" && monitor.statusFile == dumpPath + "_s.log"
      invariant monitor.graphs == RecordedAll(polls, r)
      invariant monitor.graphLog == AllFirstSights(polls, r)
      invariant monitor.statusLog == AllStatusLines(polls, stamps, r)
    {
      AllGrow(polls, stamps, r);
      var _ := monitor.PollRound(polls[r], RoundStamps(stamps, r), RoundElapsed(elapsed, r));
      r := r + 1;
    }
    RecordedAllSessions(polls);
    m := Some(monitor);
  }
}
