/** Host filtering with retry (`check_and_add` and `check_hosts` in
    dlg/deploy/pawsey/start_dfms_cluster.py).

    A single health check (`check_host`: a TCP connect, or a session
    create/destroy against a node manager) is network I/O; it is an oracle
    `check(host, port, withSession, attempt)` that says whether the
    attempt-th check of `host` succeeded. One check_hosts call fixes the
    port and the session flag, leaving a `probe(host, attempt)`. The thread-pool fan-out is reduced to its observable result:
    `ThreadPool.map` returns one outcome per host, in input order. */
module HostProbe {
  import opened Common

  /** probe(host, attempt): did the `attempt`-th check (counting from 0) of
      `host` succeed. */
  type Probe = (string, nat) -> bool

  /** The REST ports the launcher checks. Their numbers come from
      dlg/manager/constants.py, which is not part of this model. */
  datatype Port = NodeDefaultRestPort | IslandDefaultRestPort | MasterDefaultRestPort

  /** check_host(host, port, timeout, check_with_session), one attempt at a
      time: did the `attempt`-th check of `host` on `port`, made with or
      without a session, succeed. The timeout is part of the oracle. */
  type HostCheck = (string, Port, bool, nat) -> bool

  /** The checks one check_hosts(ips, port, check_with_session=...) call
      makes: every host is checked on the same port, in the same way. */
  function ProbeAt(check: HostCheck, port: Port, withSession: bool): Probe
  {
    (host: string, attempt: nat) => check(host, port, withSession, attempt)
  }

  /** Why a call to check_hosts fails outright. */
  datatype ProbeError =
    /** `ThreadPool(min(50, len(ips)))` rejects a pool of size 0. */
    | EmptyPool

  const MaxPoolSize := 50

  /** Size of the worker pool the source creates. */
  function PoolSize(ips: seq<string>): (n: nat)
    ensures n <= MaxPoolSize && n <= |ips|
    ensures n >= 1 <==> ips != []
  {
    if |ips| < MaxPoolSize then |ips| else MaxPoolSize
  }

  /** The host answers on one of its first `budget` attempts. */
  predicate AnswersWithin(probe: Probe, ip: string, budget: nat)
    decreases budget
  {
    budget > 0 && (AnswersWithin(probe, ip, budget - 1) || probe(ip, budget - 1))
  }

  /** AnswersWithin means: some attempt below the budget succeeds. */
  lemma {:induction false} AnswersWithinMeans(probe: Probe, ip: string, budget: nat)
    ensures AnswersWithin(probe, ip, budget) <==> exists k :: 0 <= k < budget && probe(ip, k)
    decreases budget
  {
    if budget > 0 {
      AnswersWithinMeans(probe, ip, budget - 1);
      if AnswersWithin(probe, ip, budget) && !AnswersWithin(probe, ip, budget - 1) {
        assert probe(ip, budget - 1);
      }
    }
  }

  /** check_and_add(ip) with the bounded retry policy: at most `retry`
      checks; the first success returns the IP at once and no further check
      is made; `retry == 0` makes no check at all. `attempts` is the number
      of checks performed. */
  method CheckAndAdd(probe: Probe, ip: string, retry: nat) returns (up: Option<string>, attempts: nat)
    ensures up == None || up == Some(ip)
    ensures up == Some(ip) <==> exists k :: 0 <= k < retry && probe(ip, k)
    ensures attempts <= retry
    ensures up.Some? ==> attempts >= 1 && probe(ip, attempts - 1)
    ensures forall k :: 0 <= k < attempts - (if up.Some? then 1 else 0) ==> !probe(ip, k)
    ensures up.None? ==> attempts == retry
  {
    var ntries := retry;
    attempts := 0;
    while ntries != 0
      invariant attempts + ntries == retry
      invariant forall k :: 0 <= k < attempts ==> !probe(ip, k)
    {
      if probe(ip, attempts) {
        // the host is running
        return Some(ip), attempts + 1;
      }
      // a warning is logged; one attempt of the budget is used up
      ntries := ntries - 1;
      attempts := attempts + 1;
    }
    up := None;
  }

  /** Python truthiness of one `check_and_add` outcome: `None` and the empty
      string are both dropped by `[ip for ip in up if ip]`. */
  predicate Truthy(o: Option<string>)
  {
    o.Some? && o.value != ""
  }

  /** `[ip for ip in up if ip]` */
  function KeepTruthy(up: seq<Option<string>>): (r: seq<string>)
    ensures |r| <= |up|
    ensures forall i :: 0 <= i < |r| ==> r[i] != ""
    decreases |up|
  {
    if up == [] then []
    else KeepTruthy(up[..|up| - 1]) + (if Truthy(up[|up| - 1]) then [up[|up| - 1].value] else [])
  }

  /** Reference definition of the hosts check_hosts reports as up: the
      non-empty IPs that answer within their budget, in input order. */
  function Healthy(probe: Probe, ips: seq<string>, retry: nat): (r: seq<string>)
    ensures |r| <= |ips|
    ensures forall i :: 0 <= i < |r| ==> r[i] != "" && AnswersWithin(probe, r[i], retry)
    ensures retry == 0 ==> r == []
    decreases |ips|
  {
    if ips == [] then []
    else
      var last := ips[|ips| - 1];
      Healthy(probe, ips[..|ips| - 1], retry)
        + (if last != "" && AnswersWithin(probe, last, retry) then [last] else [])
  }

  /** check_hosts(ips, port, timeout, check_with_session, retry): every host is
      checked (the pool is joined before anything is returned), and the result
      lists the hosts that answered, filtered in input order. */
  method CheckHosts(probe: Probe, ips: seq<string>, retry: nat) returns (r: Result<seq<string>, ProbeError>)
    ensures r.Failure? <==> ips == []
    ensures r.Success? ==> r.value == Healthy(probe, ips, retry)
  {
    if PoolSize(ips) == 0 {
      return Failure(EmptyPool);
    }
    var up: seq<Option<string>> := [];
    var i := 0;
    while i < |ips|
      invariant 0 <= i <= |ips|
      invariant KeepTruthy(up) == Healthy(probe, ips[..i], retry)
    {
      var o, _ := CheckAndAdd(probe, ips[i], retry);
      AnswersWithinMeans(probe, ips[i], retry);
      KeepOneMore(probe, ips, i, retry, up, o);
      up := up + [o];
      i := i + 1;
    }
    assert ips[..i] == ips;
    r := Success(KeepTruthy(up));
  }

  /** One more outcome extends the kept hosts exactly as one more input
      extends the healthy ones. */
  lemma KeepOneMore(probe: Probe, ips: seq<string>, i: nat, retry: nat, up: seq<Option<string>>, o: Option<string>)
    requires i < |ips|
    requires KeepTruthy(up) == Healthy(probe, ips[..i], retry)
    requires o == None || o == Some(ips[i])
    requires o.Some? <==> AnswersWithin(probe, ips[i], retry)
    ensures KeepTruthy(up + [o]) == Healthy(probe, ips[..i + 1], retry)
  {
    assert ips[..i + 1][..i] == ips[..i];
    assert (up + [o])[..|up|] == up;
  }

  /** Order-preserving selection: `a` is `b` with some elements removed. */
  predicate IsSubsequence(a: seq<string>, b: seq<string>)
    decreases |b|
  {
    if a == [] then true
    else if b == [] then false
    else (IsSubsequence(a, b[..|b| - 1])
       || (a[|a| - 1] == b[|b| - 1] && IsSubsequence(a[..|a| - 1], b[..|b| - 1])))
  }

  /** check_hosts filters and never reorders: its result is a subsequence of
      the input. */
  lemma {:induction false} HealthyIsSubsequence(probe: Probe, ips: seq<string>, retry: nat)
    ensures IsSubsequence(Healthy(probe, ips, retry), ips)
    decreases |ips|
  {
    if ips != [] {
      var init := ips[..|ips| - 1];
      var last := ips[|ips| - 1];
      HealthyIsSubsequence(probe, init, retry);
      assert init + [last] == ips;
      var h := Healthy(probe, init, retry);
      if last != "" && AnswersWithin(probe, last, retry) {
        var hx := h + [last];
        assert hx[..|hx| - 1] == h && hx[|hx| - 1] == last;
        assert ips[..|ips| - 1] == init;
        assert IsSubsequence(hx[..|hx| - 1], ips[..|ips| - 1]);
      } else {
        assert Healthy(probe, ips, retry) == h;
        assert ips[..|ips| - 1] == init;
      }
    }
  }

  /** A host is reported exactly when it is in the input, is a non-empty
      string, and one of its first `retry` checks succeeds. */
  lemma {:induction false} HealthyMembership(probe: Probe, ips: seq<string>, retry: nat, h: string)
    ensures h in Healthy(probe, ips, retry) <==>
      h in ips && h != "" && exists k :: 0 <= k < retry && probe(h, k)
    decreases |ips|
  {
    AnswersWithinMeans(probe, h, retry);
    if ips != [] {
      var init := ips[..|ips| - 1];
      HealthyMembership(probe, init, retry, h);
      assert ips == init + [ips[|ips| - 1]];
    }
  }

  /** Hosts h1, h2, h3 where h2 fails every check and the others answer on
      one of their first `retry` checks: the result is [h1, h3]. */
  lemma ThreeHostScenario(h1: string, h2: string, h3: string, probe: Probe, retry: nat, k1: nat, k3: nat)
    requires h1 != "" && h3 != ""
    requires k1 < retry && k3 < retry && probe(h1, k1) && probe(h3, k3)
    requires forall k :: !probe(h2, k)
    ensures Healthy(probe, [h1, h2, h3], retry) == [h1, h3]
  {
    assert AnswersWithin(probe, h1, retry) by { AnswersWithinMeans(probe, h1, retry); }
    assert AnswersWithin(probe, h3, retry) by { AnswersWithinMeans(probe, h3, retry); }
    assert !AnswersWithin(probe, h2, retry) by { AnswersWithinMeans(probe, h2, retry); }
    assert [h1][..0] == [];
    assert Healthy(probe, [h1], retry) == [h1];
    assert [h1, h2][..1] == [h1];
    assert Healthy(probe, [h1, h2], retry) == [h1];
    assert [h1, h2, h3][..2] == [h1, h2];
  }

  // ---------------------------------------------------------------------
  // The retry loop as written
  // ---------------------------------------------------------------------

  /** State of the as-written loop after a bounded number of iterations. */
  datatype LoopState = StillRunning | Returned(up: Option<string>)

  /** `check_and_add` exactly as written: the counter is lowered by 0 after
      each failed check (`ntries -= 0`). `fuel` bounds how many iterations
      are simulated. */
  function CheckAndAddAsWritten(probe: Probe, ip: string, ntries: int, attempt: nat, fuel: nat): (st: LoopState)
    ensures st.Returned? && st.up.Some? ==> st.up == Some(ip)
    ensures st == Returned(None) ==> ntries == 0
    decreases fuel
  {
    if fuel == 0 then StillRunning
    else if ntries == 0 then Returned(None)
    else if probe(ip, attempt) then Returned(Some(ip))
    else CheckAndAddAsWritten(probe, ip, ntries - 0, attempt + 1, fuel - 1)
  }

  /** With a positive retry count and a host that never answers, the
      as-written loop is still running after any number of iterations: it
      never gives up, whereas CheckAndAdd stops after `retry` checks. */
  lemma {:induction false} AsWrittenNeverGivesUp(probe: Probe, ip: string, retry: int, attempt: nat, fuel: nat)
    requires retry != 0
    requires forall k :: !probe(ip, k)
    ensures CheckAndAddAsWritten(probe, ip, retry, attempt, fuel) == StillRunning
    decreases fuel
  {
    if fuel > 0 {
      AsWrittenNeverGivesUp(probe, ip, retry, attempt + 1, fuel - 1);
    }
  }
}
