/** One node's share of the metrics hub: who listens locally, which other instances
    listen, the poll loop, and the debounced timer that stops it. Every section that
    runs under the node's lock is one atomic step; steps of all callers, message
    handlers and timer callbacks interleave freely. */
module MetricsHub {
  import opened Wrappers

  type Time = int
  type Instance = string

  /** Subscribers another instance reported, and when that report runs out. */
  datatype RemoteCount = RemoteCount(count: int, expires: Time)

  /** pollCancel is the running poll, if any; polls counts all polls ever started and
      cancelled holds those stopped. stopTimer is the armed timer, timers counts all of
      them, and callbacks are the timer callbacks that have not run yet. */
  datatype Node = Node(
    localCount: int, subscribers: set<nat>, remoteCounts: map<Instance, RemoteCount>, aggregated: int,
    pollCancel: Option<nat>, stopTimer: Option<nat>,
    polls: nat, cancelled: set<nat>, timers: nat, callbacks: set<nat>)

  const NewNode := Node(0, {}, map[], 0, None, None, 0, {}, 0, {})

  /** What runs under the lock. Add and Remove: Subscribe and unsubscribe change the
      subscriber set. Heartbeat: a report of another instance arrives. Evaluate:
      maybeStartOrStopPoll on an instance connected to the node. Fire: the callback of
      timer t runs stopPollIfStillIdle. */
  datatype Action =
    | Add(sub: nat)
    | Remove(sub: nat)
    | Heartbeat(instance: Instance, count: int)
    | Evaluate
    | Fire(t: nat)

  datatype Step = Step(at: Time, action: Action)

  function Unexpired(remote: map<Instance, RemoteCount>, now: Time): map<Instance, RemoteCount> {
    map i | i in remote && remote[i].expires >= now :: remote[i]
  }

  ghost function Sum(remote: map<Instance, RemoteCount>): int
    decreases |remote|
  {
    if remote == map[] then 0
    else
      var i :| i in remote;
      remote[i].count + Sum(remote - {i})
  }

  ghost function Listeners(n: Node): int { n.localCount + Sum(n.remoteCounts) }

  predicate Enabled(n: Node, a: Action) {
    match a
    case Add(sub) => sub !in n.subscribers
    case Fire(t) => t in n.callbacks
    case _ => true
  }

  /** maybeStartOrStopPoll once expired reports are gone. A timer that is stopped may
      already have fired, so its callback stays possible. */
  ghost function Evaluated(n: Node): Node {
    var m := n.(aggregated := Listeners(n));
    if Listeners(n) > 0 && n.pollCancel.None? then
      m.(stopTimer := None, pollCancel := Some(n.polls), polls := n.polls + 1)
    else if Listeners(n) <= 0 && n.pollCancel.Some? && n.stopTimer.None? then
      m.(stopTimer := Some(n.timers), timers := n.timers + 1, callbacks := n.callbacks + {n.timers})
    else m
  }

  /** stopPollIfStillIdle once expired reports are gone. */
  ghost function Fired(n: Node, t: nat): Node {
    var m := n.(stopTimer := None, callbacks := n.callbacks - {t});
    if Listeners(n) > 0 || n.pollCancel.None? then m
    else m.(pollCancel := None, cancelled := n.cancelled + {n.pollCancel.value})
  }

  ghost function Apply(n: Node, s: Step, ttl: nat): Node {
    match s.action
    case Add(sub) => n.(subscribers := n.subscribers + {sub}, localCount := n.localCount + 1)
    case Remove(sub) =>
      if sub in n.subscribers
      then n.(subscribers := n.subscribers - {sub}, localCount := if n.localCount > 0 then n.localCount - 1 else n.localCount)
      else n
    case Heartbeat(i, count) =>
      if count <= 0 then n.(remoteCounts := n.remoteCounts - {i})
      else n.(remoteCounts := n.remoteCounts[i := RemoteCount(count, s.at + ttl)])
    case Evaluate => Evaluated(n.(remoteCounts := Unexpired(n.remoteCounts, s.at)))
    case Fire(t) => Fired(n.(remoteCounts := Unexpired(n.remoteCounts, s.at)), t)
  }

  /** The node after a run, or None if a step was not possible or went back in time. */
  ghost function Run(steps: seq<Step>, ttl: nat): Option<Node> {
    if steps == [] then Some(NewNode)
    else
      match Run(steps[..|steps| - 1], ttl)
      case None => None
      case Some(n) =>
        var s := steps[|steps| - 1];
        if Enabled(n, s.action) && (|steps| > 1 ==> steps[|steps| - 2].at <= s.at)
        then Some(Apply(n, s, ttl)) else None
  }

  // ---------------------------------------------------------------------------
  // Sums
  // ---------------------------------------------------------------------------

  ghost predicate Positive(remote: map<Instance, RemoteCount>) {
    forall i :: i in remote ==> remote[i].count > 0
  }

  /** The sum does not depend on the order in which the map is walked. */
  lemma {:induction false} SumRemove(remote: map<Instance, RemoteCount>, i: Instance)
    requires i in remote
    ensures Sum(remote) == remote[i].count + Sum(remote - {i})
    decreases |remote|
  {
    var j :| j in remote && Sum(remote) == remote[j].count + Sum(remote - {j});
    if i != j {
      var a, b := remote - {i}, remote - {j};
      SumRemove(b, i);
      SumRemove(a, j);
      assert a - {j} == b - {i};
    }
  }

  lemma {:induction false} SumPositive(remote: map<Instance, RemoteCount>)
    requires Positive(remote)
    ensures Sum(remote) >= 0
    ensures Sum(remote) > 0 <==> remote != map[]
    decreases |remote|
  {
    if remote != map[] {
      var i :| i in remote;
      SumRemove(remote, i);
      SumPositive(remote - {i});
    }
  }

  // ---------------------------------------------------------------------------
  // Invariants of every run
  // ---------------------------------------------------------------------------

  ghost predicate Inv(n: Node) {
    && n.localCount == |n.subscribers|
    && Positive(n.remoteCounts)
    && (n.stopTimer.Some? ==> n.pollCancel.Some?)
    && n.callbacks == (if n.stopTimer.Some? then {n.stopTimer.value} else {})
    && (forall t :: t in n.callbacks ==> t < n.timers)
    && (n.pollCancel.Some? ==> n.pollCancel.value < n.polls)
    && (forall p: nat :: p < n.polls ==> (p in n.cancelled <==> n.pollCancel != Some(p)))
    && (forall p :: p in n.cancelled ==> p < n.polls)
  }

  lemma AddInv(n: Node, at: Time, sub: nat, ttl: nat)
    requires Inv(n) && sub !in n.subscribers
    ensures Inv(Apply(n, Step(at, Add(sub)), ttl))
  {
    hide Evaluated, Fired, Unexpired;
  }

  lemma RemoveInv(n: Node, at: Time, sub: nat, ttl: nat)
    requires Inv(n)
    ensures Inv(Apply(n, Step(at, Remove(sub)), ttl))
  {
    hide Evaluated, Fired, Unexpired;
  }

  lemma HeartbeatInv(n: Node, at: Time, i: Instance, count: int, ttl: nat)
    requires Inv(n)
    ensures Inv(Apply(n, Step(at, Heartbeat(i, count)), ttl))
  {
    hide Evaluated, Fired, Unexpired;
  }

  lemma EvaluatedInv(n: Node)
    requires Inv(n)
    ensures Inv(Evaluated(n))
  {
    hide Sum;
    SumPositive(n.remoteCounts);
  }

  lemma FiredInv(n: Node, t: nat)
    requires Inv(n) && t in n.callbacks
    ensures Inv(Fired(n, t))
  {
    hide Sum;
  }

  lemma StepInv(n: Node, s: Step, ttl: nat)
    requires Inv(n) && Enabled(n, s.action)
    ensures Inv(Apply(n, s, ttl))
  {
    hide Evaluated, Fired;
    assert s == Step(s.at, s.action);
    var m := n.(remoteCounts := Unexpired(n.remoteCounts, s.at));
    match s.action
    case Evaluate => EvaluatedInv(m);
    case Fire(t) => FiredInv(m, t);
    case Add(sub) => AddInv(n, s.at, sub, ttl);
    case Remove(sub) => RemoveInv(n, s.at, sub, ttl);
    case Heartbeat(i, count) => HeartbeatInv(n, s.at, i, count, ttl);
  }

  lemma {:induction false} RunInv(steps: seq<Step>, ttl: nat)
    ensures Run(steps, ttl).Some? ==> Inv(Run(steps, ttl).value)
  {
    hide Apply, Enabled, Inv;
    if steps == [] {
      NewNodeInv();
    } else {
      RunInv(steps[..|steps| - 1], ttl);
      match Run(steps[..|steps| - 1], ttl)
      case None =>
      case Some(n) => if Enabled(n, steps[|steps| - 1].action) { StepInv(n, steps[|steps| - 1], ttl); }
    }
  }

  lemma NewNodeInv()
    ensures Inv(NewNode)
  {
  }

  /** In every run: the counter equals the number of subscribers, stored reports are
      positive, an armed timer means a running poll and exactly one callback to come, and
      every poll ever started is stopped except the current one. */
  lemma HubInvariant(steps: seq<Step>, ttl: nat)
    requires Run(steps, ttl).Some?
    ensures var n := Run(steps, ttl).value;
            && n.localCount == |n.subscribers|
            && (forall i :: i in n.remoteCounts ==> n.remoteCounts[i].count > 0)
            && (n.stopTimer.Some? ==> n.pollCancel.Some? && n.callbacks == {n.stopTimer.value})
            && (n.stopTimer.None? ==> n.callbacks == {})
            && (forall p: nat, q: nat :: p < n.polls && q < n.polls && p !in n.cancelled && q !in n.cancelled ==> p == q)
  {
    RunInv(steps, ttl);
  }

  /** A poll is only ever stopped by a timer callback that finds no local subscriber and
      no unexpired report. */
  lemma StopsOnlyWhenIdle(steps: seq<Step>, s: Step, ttl: nat)
    requires Run(steps, ttl).Some? && Enabled(Run(steps, ttl).value, s.action)
    ensures var n := Run(steps, ttl).value;
            var m := Apply(n, s, ttl);
            (n.pollCancel.Some? && m.pollCancel != n.pollCancel) || m.cancelled != n.cancelled ==>
              && s.action.Fire?
              && n.subscribers == {}
              && (forall i :: i in n.remoteCounts ==> n.remoteCounts[i].expires < s.at)
  {
    hide Run, Inv, Apply;
    RunInv(steps, ttl);
    StopNeedsIdle(Run(steps, ttl).value, s, ttl);
  }

  lemma StopNeedsIdle(n: Node, s: Step, ttl: nat)
    requires Inv(n) && Enabled(n, s.action)
    ensures var m := Apply(n, s, ttl);
            (n.pollCancel.Some? && m.pollCancel != n.pollCancel) || m.cancelled != n.cancelled ==>
              && s.action.Fire?
              && n.subscribers == {}
              && (forall i :: i in n.remoteCounts ==> n.remoteCounts[i].expires < s.at)
  {
    hide Sum, Evaluated, Fired, Unexpired;
    var live := n.(remoteCounts := Unexpired(n.remoteCounts, s.at));
    if s.action.Evaluate? { EvaluatedStarts(live); }
    if s.action.Fire? {
      FiredStops(live, s.action.t);
      NoneLive(n.remoteCounts, s.at);
    }
  }

  lemma EvaluatedStarts(n: Node)
    ensures Evaluated(n).cancelled == n.cancelled
    ensures n.pollCancel.Some? ==> Evaluated(n).pollCancel == n.pollCancel
    ensures Listeners(n) > 0 ==> Evaluated(n).pollCancel.Some?
  {
    hide Listeners;
  }

  lemma FiredStops(n: Node, t: nat)
    ensures Listeners(n) > 0 ==> Fired(n, t).pollCancel == n.pollCancel && Fired(n, t).cancelled == n.cancelled
  {
    hide Listeners;
  }

  /** With only positive reports, no listeners means that every report has run out. */
  lemma NoneLive(remote: map<Instance, RemoteCount>, now: Time)
    requires Positive(remote)
    ensures Sum(Unexpired(remote, now)) >= 0
    ensures Sum(Unexpired(remote, now)) == 0 ==> forall i :: i in remote ==> remote[i].expires < now
  {
    hide Sum;
    var live := Unexpired(remote, now);
    SumPositive(live);
    forall i | i in remote && live == map[] ensures remote[i].expires < now {
      assert i !in live;
    }
  }

  // ---------------------------------------------------------------------------
  // Timed safety across instances
  // ---------------------------------------------------------------------------

  /** When instance r was last heard before the end of the run. */
  function LastHeard(steps: seq<Step>, r: Instance): Option<Time> {
    if steps == [] then None
    else
      var s := steps[|steps| - 1];
      if s.action.Heartbeat? && s.action.instance == r then Some(s.at)
      else LastHeard(steps[..|steps| - 1], r)
  }

  /** From step first on, r reports subscribers, is never silent for longer than ttl, and
      never reports zero. */
  ghost predicate KeepsListening(steps: seq<Step>, first: nat, r: Instance, ttl: nat) {
    && first < |steps|
    && steps[first].action.Heartbeat? && steps[first].action.instance == r
    && (forall j :: first <= j < |steps| && steps[j].action.Heartbeat? && steps[j].action.instance == r ==>
          steps[j].action.count > 0)
    && (forall j :: first < j < |steps| ==>
          LastHeard(steps[..j], r).Some? && steps[j].at <= LastHeard(steps[..j], r).value + ttl)
  }

  lemma KeepsListeningPrefix(steps: seq<Step>, first: nat, r: Instance, ttl: nat, k: nat)
    requires KeepsListening(steps, first, r, ttl) && first < k <= |steps|
    ensures KeepsListening(steps[..k], first, r, ttl)
  {
    var p := steps[..k];
    forall j | first < j < k ensures LastHeard(p[..j], r).Some? && p[j].at <= LastHeard(p[..j], r).value + ttl {
      assert p[..j] == steps[..j];
    }
  }

  /** While r keeps listening its report is stored, with a full ttl from when it was last
      heard. */
  lemma {:induction false} ReportStored(steps: seq<Step>, first: nat, r: Instance, ttl: nat)
    requires KeepsListening(steps, first, r, ttl) && Run(steps, ttl).Some?
    ensures var n := Run(steps, ttl).value;
            r in n.remoteCounts && LastHeard(steps, r) == Some(n.remoteCounts[r].expires - ttl)
  {
    hide Apply, Enabled;
    var k := |steps| - 1;
    assert steps[..k + 1] == steps;
    if first < k {
      KeepsListeningPrefix(steps, first, r, ttl, k);
      ReportStored(steps[..k], first, r, ttl);
      ReportKept(Run(steps[..k], ttl).value, steps[k], ttl, r);
    } else {
      ReportTaken(Run(steps[..k], ttl).value, steps[k], ttl, r);
    }
  }

  lemma ReportTaken(n: Node, s: Step, ttl: nat, r: Instance)
    requires s.action.Heartbeat? && s.action.instance == r && s.action.count > 0
    ensures var m := Apply(n, s, ttl); r in m.remoteCounts && m.remoteCounts[r].expires == s.at + ttl
  {
  }

  /** A report that has not run out stays, unless its instance reports again. */
  lemma ReportKept(n: Node, s: Step, ttl: nat, r: Instance)
    requires r in n.remoteCounts && s.at <= n.remoteCounts[r].expires
    requires s.action.Heartbeat? && s.action.instance == r ==> s.action.count > 0
    ensures var m := Apply(n, s, ttl);
            && r in m.remoteCounts
            && m.remoteCounts[r].expires ==
               if s.action.Heartbeat? && s.action.instance == r then s.at + ttl else n.remoteCounts[r].expires
  {
    hide Evaluated, Fired;
    var live := n.(remoteCounts := Unexpired(n.remoteCounts, s.at));
    if s.action.Evaluate? { EvaluatedReports(live); }
    if s.action.Fire? { FiredReports(live, s.action.t); }
  }

  lemma EvaluatedReports(n: Node)
    ensures Evaluated(n).remoteCounts == n.remoteCounts
  {
    hide Listeners;
  }

  lemma FiredReports(n: Node, t: nat)
    ensures Fired(n, t).remoteCounts == n.remoteCounts
  {
    hide Listeners;
  }

  /** One more step while r keeps listening does not stop a running poll, and an
      evaluation leaves one running. */
  lemma StepKeepsPoll(steps: seq<Step>, first: nat, r: Instance, ttl: nat)
    requires KeepsListening(steps, first, r, ttl) && Run(steps, ttl).Some? && first + 1 < |steps|
    ensures Run(steps[..|steps| - 1], ttl).Some?
    ensures var n, m := Run(steps[..|steps| - 1], ttl).value, Run(steps, ttl).value;
            && (n.pollCancel.Some? ==> m.pollCancel == n.pollCancel)
            && (steps[|steps| - 1].action.Evaluate? ==> m.pollCancel.Some?)
  {
    hide Apply, Enabled, Inv;
    var k := |steps| - 1;
    assert steps[..k + 1] == steps;
    KeepsListeningPrefix(steps, first, r, ttl, k);
    ReportStored(steps[..k], first, r, ttl);
    RunInv(steps[..k], ttl);
    LiveReportKeepsPoll(Run(steps[..k], ttl).value, steps[k], ttl, r);
  }

  lemma LiveReportKeepsPoll(n: Node, s: Step, ttl: nat, r: Instance)
    requires Inv(n) && r in n.remoteCounts && s.at <= n.remoteCounts[r].expires
    ensures var m := Apply(n, s, ttl);
            && (n.pollCancel.Some? ==> m.pollCancel == n.pollCancel)
            && (s.action.Evaluate? ==> m.pollCancel.Some?)
  {
    hide Sum, Evaluated, Fired;
    var live := n.(remoteCounts := Unexpired(n.remoteCounts, s.at));
    assert r in live.remoteCounts;
    SumPositive(live.remoteCounts);
    if s.action.Evaluate? { EvaluatedStarts(live); }
    if s.action.Fire? { FiredStops(live, s.action.t); }
  }

  /** While a remote instance keeps listening, no mix of purges, timer callbacks,
      unsubscribes and other reports stops the poll. */
  lemma {:induction false} PollSurvives(steps: seq<Step>, first: nat, r: Instance, ttl: nat, k: nat)
    requires KeepsListening(steps, first, r, ttl) && Run(steps, ttl).Some? && first < k <= |steps|
    ensures Run(steps[..k], ttl).Some?
    ensures Run(steps[..k], ttl).value.pollCancel.Some? ==>
              Run(steps, ttl).value.pollCancel == Run(steps[..k], ttl).value.pollCancel
    decreases |steps|
  {
    if k == |steps| {
      assert steps[..k] == steps;
    } else {
      var p := steps[..|steps| - 1];
      StepKeepsPoll(steps, first, r, ttl);
      KeepsListeningPrefix(steps, first, r, ttl, |steps| - 1);
      PollSurvives(p, first, r, ttl, k);
      assert p[..k] == steps[..k];
    }
  }

  /** Once the connected instance has evaluated, the poll runs for as long as the remote
      instance keeps listening. */
  lemma PollRuns(steps: seq<Step>, first: nat, r: Instance, ttl: nat, e: nat)
    requires KeepsListening(steps, first, r, ttl) && Run(steps, ttl).Some?
    requires first < e < |steps| && steps[e].action.Evaluate?
    ensures Run(steps, ttl).value.pollCancel.Some?
  {
    PollSurvives(steps, first, r, ttl, e + 1);
    KeepsListeningPrefix(steps, first, r, ttl, e + 1);
    StepKeepsPoll(steps[..e + 1], first, r, ttl);
  }

  // ---------------------------------------------------------------------------
  // Who listens, from the steps alone, and what becomes of the poll
  // ---------------------------------------------------------------------------

  /** The last word on this subscriber was that it came. */
  predicate Subscribed(steps: seq<Step>, sub: nat) {
    if steps == [] then false
    else
      match steps[|steps| - 1].action
      case Add(x) => x == sub || Subscribed(steps[..|steps| - 1], sub)
      case Remove(x) => x != sub && Subscribed(steps[..|steps| - 1], sub)
      case _ => Subscribed(steps[..|steps| - 1], sub)
  }

  /** The last report of this instance; one of no subscribers withdraws it. */
  function LastReport(steps: seq<Step>, i: Instance, ttl: nat): Option<RemoteCount> {
    if steps == [] then None
    else
      var s := steps[|steps| - 1];
      if s.action.Heartbeat? && s.action.instance == i
      then if s.action.count > 0 then Some(RemoteCount(s.action.count, s.at + ttl)) else None
      else LastReport(steps[..|steps| - 1], i, ttl)
  }

  predicate Live(steps: seq<Step>, i: Instance, ttl: nat, now: Time) {
    LastReport(steps, i, ttl).Some? && LastReport(steps, i, ttl).value.expires >= now
  }

  /** Nobody listens: no subscriber has stayed and every report has run out. */
  ghost predicate Idle(steps: seq<Step>, ttl: nat, now: Time) {
    (forall sub: nat :: !Subscribed(steps, sub)) && forall i: Instance :: !Live(steps, i, ttl, now)
  }

  /** No step is later than now. */
  predicate UpTo(steps: seq<Step>, now: Time) { steps == [] || steps[|steps| - 1].at <= now }

  lemma SubscribersStep(n: Node, s: Step, ttl: nat, sub: nat)
    ensures sub in Apply(n, s, ttl).subscribers <==>
            (s.action == Add(sub) || (sub in n.subscribers && s.action != Remove(sub)))
  {
    hide Sum, Evaluated, Fired, Unexpired;
    var live := n.(remoteCounts := Unexpired(n.remoteCounts, s.at));
    if s.action.Evaluate? { KeepSubscribers(live, 0); }
    if s.action.Fire? { KeepSubscribers(live, s.action.t); }
  }

  lemma KeepSubscribers(n: Node, t: nat)
    ensures Evaluated(n).subscribers == n.subscribers && Fired(n, t).subscribers == n.subscribers
  {
    hide Listeners;
  }

  /** The subscribers are those that came and did not leave. */
  lemma {:induction false} SubscribersAreHistory(steps: seq<Step>, ttl: nat, sub: nat)
    requires Run(steps, ttl).Some?
    ensures sub in Run(steps, ttl).value.subscribers <==> Subscribed(steps, sub)
  {
    hide Apply, Enabled;
    if steps != [] {
      var init, s := steps[..|steps| - 1], steps[|steps| - 1];
      SubscribersAreHistory(init, ttl, sub);
      SubscribersStep(Run(init, ttl).value, s, ttl, sub);
    }
  }

  lemma ReportStep(n: Node, s: Step, ttl: nat, i: Instance)
    ensures var m := Apply(n, s, ttl);
            if s.action.Heartbeat? && s.action.instance == i then
              && (i in m.remoteCounts <==> s.action.count > 0)
              && (i in m.remoteCounts ==> m.remoteCounts[i] == RemoteCount(s.action.count, s.at + ttl))
            else
              && (i in m.remoteCounts ==> i in n.remoteCounts && m.remoteCounts[i] == n.remoteCounts[i])
              && (i in n.remoteCounts && i !in m.remoteCounts ==> n.remoteCounts[i].expires < s.at)
  {
    hide Evaluated, Fired;
    var live := n.(remoteCounts := Unexpired(n.remoteCounts, s.at));
    if s.action.Evaluate? { EvaluatedReports(live); }
    if s.action.Fire? { FiredReports(live, s.action.t); }
  }

  /** A stored report is the last one, and only one that has run out may be missing. */
  lemma {:induction false} ReportsAreHistory(steps: seq<Step>, ttl: nat, i: Instance)
    requires Run(steps, ttl).Some?
    ensures var n, r := Run(steps, ttl).value, LastReport(steps, i, ttl);
            && (i in n.remoteCounts ==> r == Some(n.remoteCounts[i]))
            && (r.Some? && i !in n.remoteCounts ==> steps != [] && r.value.expires < steps[|steps| - 1].at)
  {
    hide Apply, Enabled;
    if steps != [] {
      var init, s := steps[..|steps| - 1], steps[|steps| - 1];
      ReportsAreHistory(init, ttl, i);
      ReportStep(Run(init, ttl).value, s, ttl, i);
    }
  }

  /** What is left after a purge are exactly the live reports. */
  lemma LiveReports(steps: seq<Step>, ttl: nat, now: Time, i: Instance)
    requires Run(steps, ttl).Some? && UpTo(steps, now)
    ensures i in Unexpired(Run(steps, ttl).value.remoteCounts, now) <==> Live(steps, i, ttl, now)
  {
    hide Run, LastReport;
    ReportsAreHistory(steps, ttl, i);
  }

  /** The total is positive exactly when somebody listens. */
  lemma ListenersExactly(steps: seq<Step>, ttl: nat, now: Time)
    requires Run(steps, ttl).Some? && UpTo(steps, now)
    ensures var n := Run(steps, ttl).value;
            Listeners(n.(remoteCounts := Unexpired(n.remoteCounts, now))) > 0 <==> !Idle(steps, ttl, now)
  {
    hide Run, Sum, Subscribed, Live;
    RunInv(steps, ttl);
    var n := Run(steps, ttl).value;
    var live := Unexpired(n.remoteCounts, now);
    SumPositive(live);
    forall sub: nat ensures sub in n.subscribers <==> Subscribed(steps, sub) { SubscribersAreHistory(steps, ttl, sub); }
    forall i: Instance ensures i in live <==> Live(steps, i, ttl, now) { LiveReports(steps, ttl, now, i); }
    NobodyIff(n.subscribers, live);
  }

  lemma NobodyIff(subs: set<nat>, live: map<Instance, RemoteCount>)
    ensures |subs| == 0 <==> forall sub: nat :: sub !in subs
    ensures live == map[] <==> forall i: Instance :: i !in live
  {
    if |subs| != 0 {
      var sub :| sub in subs;
    }
    if live != map[] {
      var i :| i in live;
    }
  }

  /** In every run: a timer callback ends the running poll if nobody listens at that moment,
      and leaves it alone otherwise. */
  lemma FireExactly(steps: seq<Step>, now: Time, t: nat, ttl: nat)
    requires Run(steps, ttl).Some? && UpTo(steps, now) && Enabled(Run(steps, ttl).value, Fire(t))
    ensures var n := Run(steps, ttl).value;
            var m := Apply(n, Step(now, Fire(t)), ttl);
            && m.stopTimer.None?
            && if Idle(steps, ttl, now) && n.pollCancel.Some?
               then m.pollCancel.None? && m.cancelled == n.cancelled + {n.pollCancel.value}
               else m.pollCancel == n.pollCancel && m.cancelled == n.cancelled
  {
    hide Run, Sum, Idle, Listeners;
    ListenersExactly(steps, ttl, now);
  }

  /** In every run: an evaluation leaves a poll running exactly if one was or somebody listens;
      with a poll and nobody listening it leaves a timer armed, whose callback is to come. */
  lemma EvaluateExactly(steps: seq<Step>, now: Time, ttl: nat)
    requires Run(steps, ttl).Some? && UpTo(steps, now)
    ensures var n := Run(steps, ttl).value;
            var m := Apply(n, Step(now, Evaluate), ttl);
            && (m.pollCancel.Some? <==> n.pollCancel.Some? || !Idle(steps, ttl, now))
            && (n.pollCancel.Some? ==> m.pollCancel == n.pollCancel)
            && (n.pollCancel.Some? && Idle(steps, ttl, now) ==> m.stopTimer.Some? && m.stopTimer.value in m.callbacks)
  {
    hide Run, Sum, Idle, Listeners;
    ListenersExactly(steps, ttl, now);
    RunInv(steps, ttl);
  }

  /** The total an evaluation records: the subscribers, and the counts of the live reports. */
  lemma AggregateExactly(steps: seq<Step>, now: Time, ttl: nat, subs: set<nat>, live: map<Instance, RemoteCount>)
    requires Run(steps, ttl).Some? && UpTo(steps, now)
    requires forall sub: nat :: sub in subs <==> Subscribed(steps, sub)
    requires forall i: Instance :: i in live <==> Live(steps, i, ttl, now)
    requires forall i :: i in live ==> LastReport(steps, i, ttl) == Some(live[i])
    ensures Apply(Run(steps, ttl).value, Step(now, Evaluate), ttl).aggregated == |subs| + Sum(live)
  {
    hide Run, Sum, Subscribed, LastReport;
    RunInv(steps, ttl);
    var n := Run(steps, ttl).value;
    var kept := Unexpired(n.remoteCounts, now);
    forall sub: nat ensures sub in n.subscribers <==> sub in subs { SubscribersAreHistory(steps, ttl, sub); }
    assert n.subscribers == subs;
    forall i: Instance ensures (i in kept <==> i in live) && (i in kept ==> kept[i] == live[i]) {
      LiveReports(steps, ttl, now, i);
      ReportsAreHistory(steps, ttl, i);
    }
    assert kept == live;
  }

  lemma RunOne(steps: seq<Step>, s: Step, ttl: nat)
    requires Run(steps, ttl).Some? && Enabled(Run(steps, ttl).value, s.action) && UpTo(steps, s.at)
    ensures Run(steps + [s], ttl) == Some(Apply(Run(steps, ttl).value, s, ttl))
  {
    hide Apply, Enabled;
    assert (steps + [s])[..|steps|] == steps;
    if steps != [] { assert (steps + [s])[|steps| - 1] == steps[|steps| - 1]; }
  }

  /** Idle, evaluate, fire: then no poll runs. */
  lemma IdlePollEnds(steps: seq<Step>, t1: Time, t2: Time, ttl: nat)
    requires Run(steps, ttl).Some? && UpTo(steps, t1) && t1 <= t2 && Idle(steps, ttl, t1)
    ensures var evaluated := steps + [Step(t1, Evaluate)];
            && Run(evaluated, ttl).Some?
            && var m := Run(evaluated, ttl).value;
            && (m.pollCancel.Some? ==>
                  && m.stopTimer.Some?
                  && var fired := evaluated + [Step(t2, Fire(m.stopTimer.value))];
                     Run(fired, ttl).Some? && Run(fired, ttl).value.pollCancel.None?)
  {
    hide Run, Apply, Idle;
    var e := Step(t1, Evaluate);
    var evaluated := steps + [e];
    RunOne(steps, e, ttl);
    EvaluateExactly(steps, t1, ttl);
    var m := Run(evaluated, ttl).value;
    if m.pollCancel.Some? {
      var t := m.stopTimer.value;
      RunOne(evaluated, Step(t2, Fire(t)), ttl);
      StaysIdle(steps, t1, t2, ttl);
      FireExactly(evaluated, t2, t, ttl);
    }
  }

  lemma StaysIdle(steps: seq<Step>, t1: Time, t2: Time, ttl: nat)
    requires Idle(steps, ttl, t1) && t1 <= t2
    ensures Idle(steps + [Step(t1, Evaluate)], ttl, t2)
  {
    var longer := steps + [Step(t1, Evaluate)];
    assert longer[..|steps|] == steps;
    forall sub: nat ensures !Subscribed(longer, sub) { assert !Subscribed(steps, sub); }
    forall i: Instance ensures !Live(longer, i, ttl, t2) { assert !Live(steps, i, ttl, t1); }
  }

  // ---------------------------------------------------------------------------
  // The node's methods
  // ---------------------------------------------------------------------------

  /** The per-node state, changed in place by the hub's methods and callbacks. Each method
      below is what one of them does while it holds the lock. */
  class NodeState {
    var localCount: int
    var subscribers: set<nat>
    var remoteCounts: map<Instance, RemoteCount>
    var aggregatedCount: int
    var pollCancel: Option<nat>
    var stopTimer: Option<nat>
    var polls: nat
    var timers: nat
    ghost var cancelled: set<nat>
    ghost var callbacks: set<nat>

    ghost function State(): Node
      reads this
    {
      Node(localCount, subscribers, remoteCounts, aggregatedCount, pollCancel, stopTimer, polls, cancelled, timers, callbacks)
    }

    constructor ()
      ensures State() == NewNode
    {
      localCount, subscribers, remoteCounts, aggregatedCount := 0, {}, map[], 0;
      pollCancel, stopTimer, polls, timers := None, None, 0, 0;
      cancelled, callbacks := {}, {};
    }

    method AddSubscriber(sub: nat, ghost now: Time, ghost ttl: nat) returns (wasZero: bool)
      requires Enabled(State(), Add(sub))
      modifies this
      ensures State() == Apply(old(State()), Step(now, Add(sub)), ttl)
      ensures wasZero <==> localCount == 1
    {
      subscribers := subscribers + {sub};
      localCount := localCount + 1;
      wasZero := localCount == 1;
    }

    method RemoveSubscriber(sub: nat, ghost now: Time, ghost ttl: nat) returns (wasLast: bool)
      modifies this
      ensures State() == Apply(old(State()), Step(now, Remove(sub)), ttl)
      ensures wasLast <==> localCount == 0
    {
      if sub in subscribers {
        subscribers := subscribers - {sub};
        if localCount > 0 { localCount := localCount - 1; }
      }
      wasLast := localCount == 0;
    }

    method HandleHeartbeat(instance: Instance, count: int, now: Time, ttl: nat)
      modifies this
      ensures State() == Apply(old(State()), Step(now, Heartbeat(instance, count)), ttl)
    {
      if count <= 0 {
        remoteCounts := remoteCounts - {instance};
      } else {
        remoteCounts := remoteCounts[instance := RemoteCount(count, now + ttl)];
      }
    }

    /** Deletes expired reports while walking the map in any order. */
    method Purge(now: Time)
      modifies this`remoteCounts
      ensures remoteCounts == Unexpired(old(remoteCounts), now)
    {
      var todo := remoteCounts.Keys;
      ghost var all := remoteCounts;
      while todo != {}
        invariant todo <= all.Keys
        invariant remoteCounts == map i | i in all && (i in todo || all[i].expires >= now) :: all[i]
        decreases todo
      {
        var i :| i in todo;
        if remoteCounts[i].expires < now { remoteCounts := remoteCounts - {i}; }
        todo := todo - {i};
      }
    }

    method Aggregate() returns (total: int)
      ensures total == Listeners(State())
    {
      total := localCount;
      var todo := remoteCounts;
      while todo != map[]
        invariant forall i :: i in todo ==> i in remoteCounts && todo[i] == remoteCounts[i]
        invariant total + Sum(todo) == Listeners(State())
        decreases |todo|
      {
        var i :| i in todo;
        SumRemove(todo, i);
        total := total + todo[i].count;
        todo := todo - {i};
      }
    }

    method MaybeStartOrStopPoll(connected: bool, now: Time, ghost ttl: nat)
      modifies this
      ensures State() == if connected then Apply(old(State()), Step(now, Evaluate), ttl) else old(State())
    {
      hide Sum;
      if !connected { return; }
      Purge(now);
      var aggregated := Aggregate();
      aggregatedCount := aggregated;
      var wantPoll, hasPoll := aggregated > 0, pollCancel.Some?;
      if wantPoll && !hasPoll {
        if stopTimer.Some? { stopTimer := None; }
        pollCancel := Some(polls);
        polls := polls + 1;
      } else if !wantPoll && hasPoll {
        if stopTimer.None? {
          stopTimer := Some(timers);
          callbacks := callbacks + {timers};
          timers := timers + 1;
        }
      }
    }

    method StopPollIfStillIdle(ghost t: nat, now: Time, ghost ttl: nat)
      requires t in callbacks
      modifies this
      ensures State() == Apply(old(State()), Step(now, Fire(t)), ttl)
    {
      hide Sum;
      stopTimer := None;
      callbacks := callbacks - {t};
      Purge(now);
      var aggregated := Aggregate();
      if aggregated > 0 { return; }
      if pollCancel.Some? {
        cancelled := cancelled + {pollCancel.value};
        pollCancel := None;
      }
    }
  }
}
