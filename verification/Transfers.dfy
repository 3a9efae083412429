/** The hand-off monitor of a file transfer. Producers change parts, err and complete
    under a lock and swap the wake-up channel there, but close the old channel only
    after unlocking; waiters take the channel under the lock and block on it outside.
    Each locked section and each close is one atomic step, and any number of threads
    interleave freely. */
module Transfers {
  import opened Wrappers

  type Channel = nat
  type Error = string

  /** How a WaitForPart call ended. */
  datatype Outcome = Available | Failed(err: Error) | Finished | Cancelled

  /** Where a thread stands. MustClose: it has left a locked section of AddPart,
      Complete or SetError and has still to close ch. Checking, Blocked, Returned: it
      is about to take the lock in WaitForPart, waits in its select, or has returned. */
  datatype Thread =
    | Idle
    | MustClose(ch: Channel)
    | Checking(part: nat)
    | Blocked(ch: Channel, part: nat)
    | Returned(part: nat, outcome: Outcome)

  /** panicked records a close of a closed channel, which Go answers with a panic. */
  datatype Monitor = Monitor(
    parts: nat, complete: bool, err: Option<Error>, ch: Channel,
    next: Channel, closed: set<Channel>, threads: seq<Thread>, panicked: bool)

  datatype Step =
    | AddPart(t: nat)
    | Complete(t: nat)
    | SetError(t: nat, err: Error)
    | Close(t: nat)
    | StartWait(t: nat, part: nat)
    | Check(t: nat)
    | Wake(t: nat)
    | Cancel(t: nat)
    | Finish(t: nat)

  function Init(n: nat): Monitor {
    Monitor(0, false, None, 0, 1, {}, seq(n, _ => Idle), false)
  }

  predicate Enabled(m: Monitor, s: Step) {
    && s.t < |m.threads|
    && match s
       case AddPart(t) => m.threads[t].Idle?
       case Complete(t) => m.threads[t].Idle?
       case SetError(t, _) => m.threads[t].Idle?
       case Close(t) => m.threads[t].MustClose?
       case StartWait(t, _) => m.threads[t].Idle?
       case Check(t) => m.threads[t].Checking?
       case Wake(t) => m.threads[t].Blocked? && m.threads[t].ch in m.closed
       case Cancel(t) => m.threads[t].Blocked?
       case Finish(t) => m.threads[t].Returned?
  }

  /** Replace the channel under the lock; thread t keeps the old one to close later. */
  function Swap(m: Monitor, t: nat): Monitor
    requires t < |m.threads|
  {
    m.(ch := m.next, next := m.next + 1, threads := m.threads[t := MustClose(m.ch)])
  }

  /** The locked section of WaitForPart: parts first, then error, then completion. */
  function Observe(m: Monitor, part: nat): Thread {
    if m.parts > part then Returned(part, Available)
    else if m.err.Some? then Returned(part, Failed(m.err.value))
    else if m.complete then Returned(part, Finished)
    else Blocked(m.ch, part)
  }

  function Apply(m: Monitor, s: Step): (r: Monitor)
    requires Enabled(m, s)
  {
    match s
    case AddPart(t) => Swap(m.(parts := m.parts + 1), t)
    case Complete(t) => if m.complete then m else Swap(m.(complete := true), t)
    case SetError(t, e) => Swap(if m.err.None? then m.(err := Some(e)) else m, t)
    case Close(t) =>
      var c := m.threads[t].ch;
      m.(closed := m.closed + {c}, panicked := m.panicked || c in m.closed, threads := m.threads[t := Idle])
    case StartWait(t, part) => m.(threads := m.threads[t := Checking(part)])
    case Check(t) => m.(threads := m.threads[t := Observe(m, m.threads[t].part)])
    case Wake(t) => m.(threads := m.threads[t := Checking(m.threads[t].part)])
    case Cancel(t) => m.(threads := m.threads[t := Returned(m.threads[t].part, Cancelled)])
    case Finish(t) => m.(threads := m.threads[t := Idle])
  }

  /** The state after a run of n threads, or None if some step was not enabled. */
  function Run(n: nat, steps: seq<Step>): Option<Monitor> {
    if steps == [] then Some(Init(n))
    else
      match Run(n, steps[..|steps| - 1])
      case None => None
      case Some(m) =>
        var s := steps[|steps| - 1];
        if Enabled(m, s) then Some(Apply(m, s)) else None
  }

  // ---------------------------------------------------------------------------
  // No lost wake-up
  // ---------------------------------------------------------------------------

  predicate Pending(m: Monitor, t: nat, c: Channel) {
    t < |m.threads| && m.threads[t] == MustClose(c)
  }

  /** What a waiter saw when it blocked. */
  predicate NothingFor(m: Monitor, part: nat) {
    m.parts <= part && m.err.None? && !m.complete
  }

  ghost predicate Inv(m: Monitor) {
    && !m.panicked
    && m.ch < m.next
    && m.ch !in m.closed
    && (forall c :: c in m.closed ==> c < m.next)
    && (forall t: nat, c: Channel :: Pending(m, t, c) ==> c < m.next && c != m.ch && c !in m.closed)
    && (forall t: nat, u: nat, c: Channel :: Pending(m, t, c) && Pending(m, u, c) ==> t == u)
    && (forall c: Channel :: c < m.next && c != m.ch ==> c in m.closed || exists t: nat :: Pending(m, t, c))
    && (forall t :: 0 <= t < |m.threads| && m.threads[t].Blocked? ==>
          && m.threads[t].ch < m.next
          && (m.threads[t].ch == m.ch ==> NothingFor(m, m.threads[t].part)))
  }

  lemma InitInv(n: nat)
    ensures Inv(Init(n))
  {
  }

  lemma SwapInv(m: Monitor, m1: Monitor, t: nat)
    requires Inv(m) && t < |m.threads| && m.threads[t].Idle?
    requires m1 == m.(parts := m1.parts, complete := m1.complete, err := m1.err)
    ensures Inv(Swap(m1, t))
  {
    var r := Swap(m1, t);
    assert forall u: nat, c: Channel :: u != t ==> (Pending(r, u, c) <==> Pending(m, u, c));
    forall c: Channel | c < r.next && c != r.ch ensures c in r.closed || exists u: nat :: Pending(r, u, c) {
      if c == m.ch {
        assert Pending(r, t, c);
      } else if c !in m.closed {
        var u: nat :| Pending(m, u, c);
        assert Pending(r, u, c);
      }
    }
  }

  /** Steps of a waiting thread leave channels alone. */
  lemma WaiterInv(m: Monitor, t: nat, w: Thread)
    requires Inv(m) && t < |m.threads| && !m.threads[t].MustClose?
    requires !w.MustClose?
    requires w.Blocked? ==> w.ch < m.next && (w.ch == m.ch ==> NothingFor(m, w.part))
    ensures Inv(m.(threads := m.threads[t := w]))
  {
    var r := m.(threads := m.threads[t := w]);
    assert forall u: nat, c: Channel :: Pending(r, u, c) <==> Pending(m, u, c);
  }

  lemma CloseInv(m: Monitor, t: nat)
    requires Inv(m) && Enabled(m, Close(t))
    ensures Inv(Apply(m, Close(t)))
  {
    var r := Apply(m, Close(t));
    var c0 := m.threads[t].ch;
    assert Pending(m, t, c0);
    assert forall u: nat, c: Channel :: u != t ==> (Pending(r, u, c) <==> Pending(m, u, c));
    forall c: Channel | c < r.next && c != r.ch ensures c in r.closed || exists u: nat :: Pending(r, u, c) {
      if c !in r.closed {
        var u: nat :| Pending(m, u, c);
        assert Pending(r, u, c);
      }
    }
  }

  lemma StepInv(m: Monitor, s: Step)
    requires Inv(m) && Enabled(m, s)
    ensures Inv(Apply(m, s))
  {
    hide Inv;
    match s
    case AddPart(t) => SwapInv(m, m.(parts := m.parts + 1), t);
    case Complete(t) => if !m.complete { SwapInv(m, m.(complete := true), t); }
    case SetError(t, e) => SwapInv(m, if m.err.None? then m.(err := Some(e)) else m, t);
    case Close(t) => CloseInv(m, t);
    case StartWait(t, part) => WaiterInv(m, t, Checking(part));
    case Check(t) =>
      InvCurrent(m);
      WaiterInv(m, t, Observe(m, m.threads[t].part));
    case Wake(t) => WaiterInv(m, t, Checking(m.threads[t].part));
    case Cancel(t) => WaiterInv(m, t, Returned(m.threads[t].part, Cancelled));
    case Finish(t) => WaiterInv(m, t, Idle);
  }

  lemma InvCurrent(m: Monitor)
    requires Inv(m)
    ensures m.ch < m.next
  {
  }

  lemma {:induction false} RunInv(n: nat, steps: seq<Step>)
    ensures Run(n, steps).Some? ==> Inv(Run(n, steps).value)
  {
    hide Inv, Apply;
    if steps == [] {
      InitInv(n);
    } else {
      RunInv(n, steps[..|steps| - 1]);
      match Run(n, steps[..|steps| - 1])
      case None =>
      case Some(m) => if Enabled(m, steps[|steps| - 1]) { StepInv(m, steps[|steps| - 1]); }
    }
  }

  /** In every interleaving: a blocked waiter either holds the current channel, and what
      it saw is still true, or holds a channel that is closed, or one that exactly one
      thread is about to close. */
  lemma NoLostWakeUp(n: nat, steps: seq<Step>, w: nat)
    requires Run(n, steps).Some?
    requires w < |Run(n, steps).value.threads| && Run(n, steps).value.threads[w].Blocked?
    ensures var m := Run(n, steps).value;
            var c := m.threads[w].ch;
            || (c == m.ch && c !in m.closed && NothingFor(m, m.threads[w].part))
            || (c != m.ch && c in m.closed && Enabled(m, Wake(w)))
            || (c != m.ch && c !in m.closed &&
                exists t: nat :: Pending(m, t, c) && forall u: nat :: Pending(m, u, c) ==> u == t)
  {
    RunInv(n, steps);
  }

  /** So a waiter that has something to return for is never stuck: it can wake now, or
      can as soon as the one pending close runs. */
  lemma WaiterCanProceed(n: nat, steps: seq<Step>, w: nat)
    requires Run(n, steps).Some?
    requires var m := Run(n, steps).value; w < |m.threads| && m.threads[w].Blocked? && !NothingFor(m, m.threads[w].part)
    ensures var m := Run(n, steps).value;
            || Enabled(m, Wake(w))
            || exists t: nat :: Enabled(m, Close(t)) && Enabled(Apply(m, Close(t)), Wake(w))
  {
    RunInv(n, steps);
    var m := Run(n, steps).value;
    var c := m.threads[w].ch;
    if c !in m.closed {
      var t: nat :| Pending(m, t, c);
      assert Enabled(m, Close(t)) && Enabled(Apply(m, Close(t)), Wake(w));
    }
  }

  /** No channel is closed twice. */
  lemma NeverClosedTwice(n: nat, steps: seq<Step>, t: nat)
    requires Run(n, steps).Some?
    ensures var m := Run(n, steps).value;
            !m.panicked && (Enabled(m, Close(t)) ==> m.threads[t].ch !in m.closed)
  {
    RunInv(n, steps);
    var m := Run(n, steps).value;
    if Enabled(m, Close(t)) { assert Pending(m, t, m.threads[t].ch); }
  }

  // ---------------------------------------------------------------------------
  // What a waiter is told, from the steps alone
  // ---------------------------------------------------------------------------

  function PartsAdded(steps: seq<Step>): nat {
    if steps == [] then 0
    else PartsAdded(steps[..|steps| - 1]) + (if steps[|steps| - 1].AddPart? then 1 else 0)
  }

  predicate Completed(steps: seq<Step>) { exists k :: 0 <= k < |steps| && steps[k].Complete? }

  /** The error that was set first. */
  ghost predicate FirstError(steps: seq<Step>, err: Option<Error>) {
    match err
    case None => forall k :: 0 <= k < |steps| ==> !steps[k].SetError?
    case Some(e) =>
      exists k :: 0 <= k < |steps| && steps[k].SetError? && steps[k].err == e &&
        forall j :: 0 <= j < k ==> !steps[j].SetError?
  }

  lemma CompletedSnoc(steps: seq<Step>, s: Step)
    ensures Completed(steps + [s]) <==> Completed(steps) || s.Complete?
  {
    if Completed(steps) {
      var k :| 0 <= k < |steps| && steps[k].Complete?;
      assert (steps + [s])[k].Complete?;
    }
    assert (steps + [s])[|steps|] == s;
  }

  lemma FirstErrorSnoc(steps: seq<Step>, s: Step, err: Option<Error>)
    requires FirstError(steps, err)
    ensures FirstError(steps + [s], if err.None? && s.SetError? then Some(s.err) else err)
  {
    var longer := steps + [s];
    if err.Some? {
      var k :| 0 <= k < |steps| && steps[k].SetError? && steps[k].err == err.value &&
        forall j :: 0 <= j < k ==> !steps[j].SetError?;
      assert longer[k] == steps[k] && forall j :: 0 <= j < k ==> longer[j] == steps[j];
    } else if s.SetError? {
      assert longer[|steps|] == s && forall j :: 0 <= j < |steps| ==> longer[j] == steps[j];
    }
  }

  /** How one step moves the three facts that waiters look at. */
  lemma FactsStep(m: Monitor, s: Step)
    requires Enabled(m, s)
    ensures var r := Apply(m, s);
            && r.parts == m.parts + (if s.AddPart? then 1 else 0)
            && (r.complete <==> m.complete || s.Complete?)
            && r.err == if m.err.None? && s.SetError? then Some(s.err) else m.err
  {
  }

  /** In every run the count is the number of parts added, completion is recorded exactly when
      it happened, and the error is the one set first. */
  lemma {:induction false} StateIsHistory(n: nat, steps: seq<Step>)
    requires Run(n, steps).Some?
    ensures var m := Run(n, steps).value;
            m.parts == PartsAdded(steps) && (m.complete <==> Completed(steps)) && FirstError(steps, m.err)
  {
    hide Apply, Enabled, Completed, FirstError;
    if steps == [] {
      NothingYet(n);
    } else {
      var init, s := steps[..|steps| - 1], steps[|steps| - 1];
      assert steps == init + [s];
      StateIsHistory(n, init);
      var m := Run(n, init).value;
      FactsStep(m, s);
      CompletedSnoc(init, s);
      FirstErrorSnoc(init, s, m.err);
    }
  }

  lemma NothingYet(n: nat)
    ensures !Completed([]) && FirstError([], Init(n).err)
  {
  }

  /** A look at the state answers by the steps so far: the part is there, else the first error,
      else the end; only with none of the three does the waiter block. */
  lemma CheckExactly(n: nat, steps: seq<Step>, t: nat, err: Option<Error>)
    requires Run(n, steps).Some? && Enabled(Run(n, steps).value, Check(t)) && FirstError(steps, err)
    ensures var m := Run(n, steps).value;
            var part := m.threads[t].part;
            Apply(m, Check(t)).threads[t] ==
              if PartsAdded(steps) > part then Returned(part, Available)
              else if err.Some? then Returned(part, Failed(err.value))
              else if Completed(steps) then Returned(part, Finished)
              else Blocked(m.ch, part)
  {
    hide Run, Completed, FirstError;
    StateIsHistory(n, steps);
    FirstErrorUnique(steps, err, Run(n, steps).value.err);
  }

  lemma FirstErrorUnique(steps: seq<Step>, a: Option<Error>, b: Option<Error>)
    requires FirstError(steps, a) && FirstError(steps, b)
    ensures a == b
  {
  }

  /** What thread t is doing once its own last step was s. */
  predicate Doing(m: Monitor, s: Step)
    requires s.t < |m.threads|
  {
    match s
    case AddPart(t) => m.threads[t].MustClose?
    case Complete(t) => m.threads[t].MustClose? || m.threads[t].Idle?
    case SetError(t, _) => m.threads[t].MustClose?
    case Close(t) => m.threads[t].Idle?
    case StartWait(t, part) => m.threads[t] == Checking(part)
    case Check(t) => m.threads[t].Blocked? || m.threads[t].Returned?
    case Wake(t) => m.threads[t].Checking?
    case Cancel(t) => m.threads[t].Returned? && m.threads[t].outcome == Cancelled
    case Finish(t) => m.threads[t].Idle?
  }

  /** The part thread t asked for in its last call. */
  function Asked(steps: seq<Step>, t: nat): Option<nat> {
    if steps == [] then None
    else
      var s := steps[|steps| - 1];
      if s.StartWait? && s.t == t then Some(s.part) else Asked(steps[..|steps| - 1], t)
  }

  predicate Waits(th: Thread) { th.Checking? || th.Blocked? || th.Returned? }

  lemma TurnStep(m: Monitor, s: Step, t: nat)
    requires Enabled(m, s) && t < |m.threads|
    ensures var r := Apply(m, s);
            && |r.threads| == |m.threads|
            && Doing(r, s)
            && (s.t != t ==> r.threads[t] == m.threads[t])
            && (s.t == t && Waits(r.threads[t]) && !s.StartWait? ==>
                  Waits(m.threads[t]) && r.threads[t].part == m.threads[t].part)
  {
  }

  /** In every run a waiter looks for, waits for and is answered about the part it last asked
      for. */
  lemma {:induction false} WaitsForItsPart(n: nat, steps: seq<Step>, t: nat)
    requires Run(n, steps).Some? && t < n
    ensures var m := Run(n, steps).value;
            |m.threads| == n && (Waits(m.threads[t]) ==> Asked(steps, t) == Some(m.threads[t].part))
  {
    hide Apply, Enabled;
    if steps != [] {
      var init, s := steps[..|steps| - 1], steps[|steps| - 1];
      WaitsForItsPart(n, init, t);
      TurnStep(Run(n, init).value, s, t);
    }
  }

  /** What a thread does is decided by its own last step: the steps of others leave it alone. */
  lemma {:induction false} TurnIsOwn(n: nat, steps: seq<Step>, s: Step, more: seq<Step>)
    requires Run(n, steps + [s] + more).Some? && forall k :: 0 <= k < |more| ==> more[k].t != s.t
    ensures var m := Run(n, steps + [s] + more).value; s.t < |m.threads| && Doing(m, s)
  {
    hide Apply, Enabled, Doing;
    var all := steps + [s] + more;
    var init, last := all[..|all| - 1], all[|all| - 1];
    if more == [] {
      assert init == steps && last == s;
      InRange(Run(n, init).value, s);
      TurnStep(Run(n, init).value, s, s.t);
    } else {
      assert init == steps + [s] + more[..|more| - 1] && last == more[|more| - 1];
      TurnIsOwn(n, steps, s, more[..|more| - 1]);
      TurnStep(Run(n, init).value, last, s.t);
      DoingSame(Run(n, init).value, Apply(Run(n, init).value, last), s);
    }
  }

  lemma InRange(m: Monitor, s: Step)
    requires Enabled(m, s)
    ensures s.t < |m.threads|
  {
  }

  lemma DoingSame(m: Monitor, r: Monitor, s: Step)
    requires s.t < |m.threads| && s.t < |r.threads| && r.threads[s.t] == m.threads[s.t] && Doing(m, s)
    ensures Doing(r, s)
  {
  }

  // ---------------------------------------------------------------------------
  // The locked sections
  // ---------------------------------------------------------------------------

  /** The shared state of one transfer. Every method is what runs under its lock; the ghost
      arguments tie it to a step of the monitor. */
  class State {
    var parts: nat
    var complete: bool
    var err: Option<Error>
    var ch: Channel
    var next: Channel

    ghost predicate Matches(m: Monitor)
      reads this
    {
      parts == m.parts && complete == m.complete && err == m.err && ch == m.ch && next == m.next
    }

    constructor ()
      ensures forall n: nat :: Matches(Init(n))
    {
      parts, complete, err, ch, next := 0, false, None, 0, 1;
    }

    /** Returns the channel that the caller closes once it has unlocked. */
    method AddPart(ghost m: Monitor, ghost t: nat) returns (old_: Channel)
      requires Matches(m) && Enabled(m, Step.AddPart(t))
      modifies this
      ensures Matches(Apply(m, Step.AddPart(t)))
      ensures Apply(m, Step.AddPart(t)).threads[t] == MustClose(old_)
    {
      parts := parts + 1;
      old_ := ch;
      ch, next := next, next + 1;
    }

    /** A second completion has nothing to close. */
    method Complete(ghost m: Monitor, ghost t: nat) returns (old_: Option<Channel>)
      requires Matches(m) && Enabled(m, Step.Complete(t))
      modifies this
      ensures Matches(Apply(m, Step.Complete(t)))
      ensures Apply(m, Step.Complete(t)).threads[t] == if old_.Some? then MustClose(old_.value) else Idle
    {
      if complete { return None; }
      complete := true;
      old_ := Some(ch);
      ch, next := next, next + 1;
    }

    /** Only the first error is kept, but every one wakes the waiters. */
    method SetError(e: Error, ghost m: Monitor, ghost t: nat) returns (old_: Channel)
      requires Matches(m) && Enabled(m, Step.SetError(t, e))
      modifies this
      ensures Matches(Apply(m, Step.SetError(t, e)))
      ensures Apply(m, Step.SetError(t, e)).threads[t] == MustClose(old_)
    {
      if err.None? { err := Some(e); }
      old_ := ch;
      ch, next := next, next + 1;
    }

    /** One look of a waiter: what to return, or the channel to block on. */
    method WaitForPart(part: nat, ghost m: Monitor, ghost t: nat) returns (r: Thread)
      requires Matches(m) && Enabled(m, Check(t)) && m.threads[t] == Checking(part)
      ensures Apply(m, Check(t)).threads[t] == r
    {
      if parts > part { return Returned(part, Available); }
      if err.Some? { return Returned(part, Failed(err.value)); }
      if complete { return Returned(part, Finished); }
      return Blocked(ch, part);
    }
  }
}
