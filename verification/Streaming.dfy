/** Downloads that stream a transfer part by part: the local one, driven by the hand-off
    monitor, and the remote one, which polls shared storage. */
module Streaming {
  import opened Wrappers
  import opened Bits
  import opened T = Transfers

  type bytes = seq<byte>

  /** Opening is the first wait, before the pipe exists; after it the loop starts over
      at part 0. */
  datatype Phase = Opening | Streaming | Eof | Broken(why: Break)

  datatype Break = TransferError(err: T.Error) | ContextDone | MissingPart | CopyError | BadSentinel

  /** The downloading side: the part it is at and what it has written to the pipe. */
  datatype Reader = Reader(part: nat, out: bytes, phase: Phase)

  // ---------------------------------------------------------------------------
  // Local download
  // ---------------------------------------------------------------------------

  /** stored lists every part the uploader has written; storage holds those not yet
      deleted. Thread 0 of the monitor is the reader, the others are producers. */
  datatype Local = Local(mon: Monitor, storage: map<nat, bytes>, stored: seq<bytes>, reader: Reader)

  datatype LocalStep =
    | Store(data: bytes)
    | Produce(step: T.Step)
    | Wait(step: T.Step)
    | Resume(deleted: bool)
    | CopyFails(n: nat)

  function LocalInit(producers: nat): Local {
    Local(T.Init(producers + 1).(threads := T.Init(producers + 1).threads[0 := Checking(0)]), map[], [], Reader(0, [], Opening))
  }

  /** A part is counted only after it is stored, and none is counted after completion. */
  predicate Announced(l: Local, s: T.Step) {
    s.AddPart? ==> l.mon.parts < |l.stored| && !l.mon.complete
  }

  predicate Active(l: Local) {
    l.reader.phase.Opening? || l.reader.phase.Streaming?
  }

  predicate LocalEnabled(l: Local, s: LocalStep) {
    && |l.mon.threads| > 0
    && match s
       case Store(_) => true
       case Produce(p) => p.t > 0 && T.Enabled(l.mon, p) && Announced(l, p)
       case Wait(w) => Active(l) && w.t == 0 && (w.Check? || w.Wake? || w.Cancel?) && T.Enabled(l.mon, w)
       case Resume(_) => Active(l) && l.mon.threads[0].Returned?
       case CopyFails(n) =>
         && l.reader.phase.Streaming?
         && l.mon.threads[0].Returned? && l.mon.threads[0].outcome.Available?
         && l.reader.part in l.storage && n <= |l.storage[l.reader.part]|
  }

  /** The next WaitForPart call of the reader. */
  function Again(m: Monitor, part: nat): Monitor
    requires |m.threads| > 0
  {
    m.(threads := m.threads[0 := Checking(part)])
  }

  function ResumeWith(l: Local, deleted: bool): Local
    requires |l.mon.threads| > 0 && l.mon.threads[0].Returned?
  {
    var r := l.reader;
    match l.mon.threads[0].outcome
    case Failed(e) => l.(reader := r.(phase := Broken(TransferError(e))))
    case Cancelled => l.(reader := r.(phase := Broken(ContextDone)))
    case Finished => l.(reader := r.(phase := Eof))
    case Available =>
      if r.phase.Opening? then
        l.(reader := r.(phase := Streaming), mon := Again(l.mon, 0))
      else if r.part !in l.storage then
        l.(reader := r.(phase := Broken(MissingPart)))
      else
        l.(reader := r.(part := r.part + 1, out := r.out + l.storage[r.part]),
           storage := if deleted then l.storage - {r.part} else l.storage,
           mon := Again(l.mon, r.part + 1))
  }

  function LocalApply(l: Local, s: LocalStep): Local
    requires LocalEnabled(l, s)
  {
    match s
    case Store(data) => l.(storage := l.storage[|l.stored| := data], stored := l.stored + [data])
    case Produce(p) => l.(mon := T.Apply(l.mon, p))
    case Wait(w) => l.(mon := T.Apply(l.mon, w))
    case Resume(deleted) => ResumeWith(l, deleted)
    case CopyFails(n) =>
      l.(reader := l.reader.(out := l.reader.out + l.storage[l.reader.part][..n], phase := Broken(CopyError)))
  }

  function LocalRun(producers: nat, steps: seq<LocalStep>): Option<Local> {
    if steps == [] then Some(LocalInit(producers))
    else
      match LocalRun(producers, steps[..|steps| - 1])
      case None => None
      case Some(l) =>
        var s := steps[|steps| - 1];
        if LocalEnabled(l, s) then Some(LocalApply(l, s)) else None
  }

  /** The reader's thread and what its last check told it. */
  ghost predicate ReaderThread(l: Local)
    requires |l.mon.threads| > 0
  {
    match l.mon.threads[0]
    case Checking(p) => p == l.reader.part
    case Blocked(_, p) => p == l.reader.part
    case Returned(p, Available) => p == l.reader.part < l.mon.parts
    case Returned(p, Finished) => p == l.reader.part == l.mon.parts && l.mon.complete
    case Returned(p, _) => p == l.reader.part
    case _ => false
  }

  ghost predicate LocalInv(l: Local) {
    && |l.mon.threads| > 0
    && l.reader.part <= l.mon.parts <= |l.stored|
    && (forall k :: l.reader.part <= k < |l.stored| ==> k in l.storage && l.storage[k] == l.stored[k])
    && ReaderThread(l)
    && (match l.reader.phase
        case Opening => l.reader.part == 0 && l.reader.out == []
        case Streaming => l.reader.out == Concat(l.stored[..l.reader.part])
        case Eof => l.reader.out == Concat(l.stored[..l.reader.part]) && l.mon.complete && l.mon.parts == l.reader.part
        case Broken(why) => !why.MissingPart? && l.reader.out <= Concat(l.stored))
  }

  lemma {:induction false} ConcatPrefix(parts: seq<bytes>, k: nat)
    requires k <= |parts|
    ensures Concat(parts[..k]) <= Concat(parts)
  {
    if k == |parts| {
      assert parts[..k] == parts;
    } else {
      var init := parts[..|parts| - 1];
      assert init[..k] == parts[..k];
      ConcatPrefix(init, k);
    }
  }

  lemma ConcatSnoc(parts: seq<bytes>, k: nat)
    requires k < |parts|
    ensures Concat(parts[..k + 1]) == Concat(parts[..k]) + parts[k]
  {
    assert parts[..k + 1][..k] == parts[..k];
  }

  /** A monitor step of another thread keeps what the reader was told. */
  lemma ProduceInv(l: Local, p: T.Step)
    requires LocalInv(l) && LocalEnabled(l, Produce(p))
    ensures LocalInv(LocalApply(l, Produce(p)))
  {
  }

  lemma WaitInv(l: Local, w: T.Step)
    requires LocalInv(l) && LocalEnabled(l, Wait(w))
    ensures LocalInv(LocalApply(l, Wait(w)))
  {
  }

  lemma StoreInv(l: Local, data: bytes)
    requires LocalInv(l)
    ensures LocalInv(LocalApply(l, Store(data)))
  {
    hide Concat;
    var r := LocalApply(l, Store(data));
    assert r.stored[..l.reader.part] == l.stored[..l.reader.part];
    assert r.stored[..|l.stored|] == l.stored;
    ConcatPrefix(r.stored, |l.stored|);
  }

  lemma ResumeInv(l: Local, deleted: bool)
    requires LocalInv(l) && LocalEnabled(l, Resume(deleted))
    ensures LocalInv(LocalApply(l, Resume(deleted)))
  {
    hide Concat;
    ConcatPrefix(l.stored, l.reader.part);
    EmptyConcat();
    assert l.stored[..0] == [];
    if l.reader.part < |l.stored| { ConcatSnoc(l.stored, l.reader.part); }
  }

  lemma EmptyConcat()
    ensures Concat([]) == []
  {
  }

  lemma CopyFailsInv(l: Local, n: nat)
    requires LocalInv(l) && LocalEnabled(l, CopyFails(n))
    ensures LocalInv(LocalApply(l, CopyFails(n)))
  {
    ConcatSnoc(l.stored, l.reader.part);
    ConcatPrefix(l.stored, l.reader.part + 1);
  }

  lemma {:induction false} LocalRunInv(producers: nat, steps: seq<LocalStep>)
    ensures LocalRun(producers, steps).Some? ==> LocalInv(LocalRun(producers, steps).value)
  {
    hide LocalInv, LocalApply, LocalEnabled;
    if steps == [] {
      LocalInitInv(producers);
    } else {
      LocalRunInv(producers, steps[..|steps| - 1]);
      match LocalRun(producers, steps[..|steps| - 1])
      case None =>
      case Some(l) =>
        var s := steps[|steps| - 1];
        if LocalEnabled(l, s) { LocalStepInv(l, s); }
    }
  }

  lemma LocalInitInv(producers: nat)
    ensures LocalInv(LocalInit(producers))
  {
  }

  lemma LocalStepInv(l: Local, s: LocalStep)
    requires LocalInv(l) && LocalEnabled(l, s)
    ensures LocalInv(LocalApply(l, s))
  {
    hide LocalInv;
    match s
    case Store(data) => StoreInv(l, data);
    case Produce(p) => ProduceInv(l, p);
    case Wait(w) => WaitInv(l, w);
    case Resume(deleted) => ResumeInv(l, deleted);
    case CopyFails(n) => CopyFailsInv(l, n);
  }

  /** Whatever happens, the pipe carries an in-order prefix of the parts, an announced
      part is always found, and a clean end means every announced part was delivered. */
  lemma LocalDownload(producers: nat, steps: seq<LocalStep>)
    requires LocalRun(producers, steps).Some?
    ensures var l := LocalRun(producers, steps).value;
            && l.mon.parts <= |l.stored|
            && l.reader.out <= Concat(l.stored)
            && l.reader.phase != Broken(MissingPart)
            && (l.reader.phase.Eof? ==> l.mon.complete && l.reader.out == Concat(l.stored[..l.mon.parts]))
            && (l.reader.phase.Eof? && l.mon.parts == |l.stored| ==> l.reader.out == Concat(l.stored))
  {
    hide Concat;
    LocalRunInv(producers, steps);
    var l := LocalRun(producers, steps).value;
    ConcatPrefix(l.stored, l.reader.part);
    assert l.stored[..|l.stored|] == l.stored;
    EmptyConcat();
  }

  /** The reader is told of an error only when it has delivered every part announced by
      then. */
  lemma ErrorAfterParts(producers: nat, steps: seq<LocalStep>)
    requires LocalRun(producers, steps).Some?
    requires var l := LocalRun(producers, steps).value;
             LocalEnabled(l, Wait(Check(0))) && T.Observe(l.mon, l.reader.part).Returned? && T.Observe(l.mon, l.reader.part).outcome.Failed?
    ensures var l := LocalRun(producers, steps).value;
            l.mon.parts <= |l.stored| && l.reader.out == Concat(l.stored[..l.mon.parts])
  {
    LocalRunInv(producers, steps);
  }

  /** After a clean end nothing that happens later makes it incomplete. */
  lemma {:induction false} EndIsFinal(producers: nat, steps: seq<LocalStep>, more: seq<LocalStep>)
    requires LocalRun(producers, steps).Some? && LocalRun(producers, steps).value.reader.phase.Eof?
    requires LocalRun(producers, steps + more).Some?
    ensures var l, l2 := LocalRun(producers, steps).value, LocalRun(producers, steps + more).value;
            l2.reader == l.reader && l2.mon.parts == l.mon.parts && l2.mon.complete
  {
    LocalRunInv(producers, steps);
    if more == [] {
      assert steps + more == steps;
    } else {
      assert (steps + more)[..|steps + more| - 1] == steps + more[..|more| - 1];
      EndIsFinal(producers, steps, more[..|more| - 1]);
    }
  }

  predicate Over(m: Monitor) { m.complete || m.err.Some? }

  /** How a download of a transfer that is over ends. */
  function Verdict(m: Monitor): Phase
    requires Over(m)
  {
    if m.err.Some? then Broken(TransferError(m.err.value)) else Eof
  }

  /** One look of the reader when the transfer is over, and what it makes of the answer: it
      takes the next part, or ends. */
  lemma NextPart(l: Local)
    requires LocalInv(l) && Active(l) && Over(l.mon) && l.mon.threads[0].Checking?
    ensures LocalEnabled(l, Wait(Check(0)))
    ensures var l1 := LocalApply(l, Wait(Check(0)));
            && LocalEnabled(l1, Resume(false))
            && var l2 := LocalApply(l1, Resume(false));
            && l2.stored == l.stored && l2.mon.parts == l.mon.parts
            && l2.mon.complete == l.mon.complete && l2.mon.err == l.mon.err
            && if l.reader.part == l.mon.parts then l2.reader == l.reader.(phase := Verdict(l.mon))
               else
                 && l2.reader.phase.Streaming?
                 && l2.mon.threads != [] && l2.mon.threads[0].Checking?
                 && l2.reader.part == l.reader.part + (if l.reader.phase.Opening? then 0 else 1)
  {
    hide Concat;
  }

  lemma LocalOne(producers: nat, steps: seq<LocalStep>, s: LocalStep)
    requires LocalRun(producers, steps).Some? && LocalEnabled(LocalRun(producers, steps).value, s)
    ensures LocalRun(producers, steps + [s]) == Some(LocalApply(LocalRun(producers, steps).value, s))
  {
    hide LocalApply, LocalEnabled;
    assert (steps + [s])[..|steps|] == steps;
  }

  /** The number of looks still needed. */
  function LooksLeft(l: Local): int {
    l.mon.parts - l.reader.part + (if l.reader.phase.Opening? then 1 else 0)
  }

  /** From every reachable state in which the transfer is over, the reader needs no more than its
      own looks to deliver every announced part and end: with the error if there is one, and
      cleanly otherwise. */
  lemma {:induction false} DownloadFinishes(producers: nat, steps: seq<LocalStep>) returns (more: seq<LocalStep>)
    requires LocalRun(producers, steps).Some?
    requires var l := LocalRun(producers, steps).value;
             Active(l) && Over(l.mon) && l.mon.threads != [] && l.mon.threads[0].Checking?
    ensures forall k :: 0 <= k < |more| ==> more[k] == Wait(Check(0)) || more[k] == Resume(false)
    ensures LocalRun(producers, steps + more).Some?
    ensures var l, r := LocalRun(producers, steps).value, LocalRun(producers, steps + more).value;
            && r.reader.phase == Verdict(l.mon) && l.mon.parts <= |l.stored|
            && r.reader.out == Concat(l.stored[..l.mon.parts])
    decreases var l := LocalRun(producers, steps).value; LooksLeft(l)
  {
    hide LocalRun, LocalApply, LocalEnabled, Concat;
    LocalRunInv(producers, steps);
    var l := LocalRun(producers, steps).value;
    NextPart(l);
    var one := steps + [Wait(Check(0))];
    var two := one + [Resume(false)];
    LocalOne(producers, steps, Wait(Check(0)));
    LocalOne(producers, one, Resume(false));
    assert two == steps + [Wait(Check(0)), Resume(false)];
    if l.reader.part == l.mon.parts {
      more := [Wait(Check(0)), Resume(false)];
      AllDelivered(l);
    } else {
      var rest := DownloadFinishes(producers, two);
      more := [Wait(Check(0)), Resume(false)] + rest;
      assert steps + more == two + rest;
    }
  }

  lemma AllDelivered(l: Local)
    requires LocalInv(l) && Active(l) && l.reader.part == l.mon.parts
    ensures l.reader.out == Concat(l.stored[..l.mon.parts])
  {
    EmptyConcat();
    assert l.stored[..0] == [];
  }

  /** Why a download is broken, and why the reader's thread returned. */
  ghost predicate Reasons(steps: seq<LocalStep>, l: Local) {
    && (l.mon.err.Some? ==> exists t :: Produce(SetError(t, l.mon.err.value)) in steps)
    && (l.mon.threads != [] && l.mon.threads[0].Returned? ==>
          match l.mon.threads[0].outcome
          case Failed(e) => l.mon.err == Some(e)
          case Cancelled => Wait(Cancel(0)) in steps
          case _ => true)
    && (match l.reader.phase
        case Broken(TransferError(e)) => l.mon.err == Some(e)
        case Broken(ContextDone) => Wait(Cancel(0)) in steps
        case Broken(CopyError) => exists n :: CopyFails(n) in steps
        case Broken(_) => false
        case _ => true)
  }

  lemma ReasonsStep(steps: seq<LocalStep>, l: Local, s: LocalStep)
    requires LocalInv(l) && LocalEnabled(l, s) && Reasons(steps, l)
    ensures Reasons(steps + [s], LocalApply(l, s))
  {
    hide Concat;
    var more := steps + [s];
    assert forall x :: x in steps ==> x in more;
    assert s in more;
    match s
    case Produce(p) => ErrorStep(l.mon, p);
    case Wait(w) => ErrorStep(l.mon, w);
    case _ =>
  }

  lemma ErrorStep(m: Monitor, s: T.Step)
    requires T.Enabled(m, s)
    ensures var r := T.Apply(m, s);
            && r.err == (if m.err.None? && s.SetError? then Some(s.err) else m.err)
            && |r.threads| == |m.threads|
            && (s.t != 0 && m.threads != [] ==> r.threads[0] == m.threads[0])
  {
  }

  /** A broken download has its cause in the run: the error the transfer failed with, a
      cancellation, or a failed copy. */
  lemma {:induction false} BrokenForAReason(producers: nat, steps: seq<LocalStep>)
    requires LocalRun(producers, steps).Some?
    ensures Reasons(steps, LocalRun(producers, steps).value)
  {
    hide LocalApply, LocalEnabled;
    if steps != [] {
      var init, s := steps[..|steps| - 1], steps[|steps| - 1];
      assert steps == init + [s];
      BrokenForAReason(producers, init);
      LocalRunInv(producers, init);
      ReasonsStep(init, LocalRun(producers, init).value, s);
    }
  }

  /** When every delivered part is deleted, storage holds exactly the parts not yet delivered. */
  lemma {:induction false} DeliveredAreDeleted(producers: nat, steps: seq<LocalStep>)
    requires LocalRun(producers, steps).Some? && Resume(false) !in steps
    ensures var l := LocalRun(producers, steps).value;
            forall k :: k in l.storage <==> l.reader.part <= k < |l.stored|
  {
    hide LocalEnabled, T.Apply, LocalInv;
    if steps != [] {
      var init, s := steps[..|steps| - 1], steps[|steps| - 1];
      assert steps == init + [s];
      DeliveredAreDeleted(producers, init);
      LocalRunInv(producers, init);
      InsideStored(LocalRun(producers, init).value);
    }
  }

  lemma InsideStored(l: Local)
    requires LocalInv(l)
    ensures l.reader.part <= |l.stored|
  {
  }

  // ---------------------------------------------------------------------------
  // Remote download
  // ---------------------------------------------------------------------------

  /** Where the polling loop stands. The part and the sentinel are looked up in two
      separate storage calls. */
  datatype PollAt = AtError | AtPart | AtDone | AtRead | Asleep

  /** sentinel is the done file, holding the success flag; taskError the message waiting
      in the error channel. storedAtCheck is history: how many parts existed at the last
      part lookup. */
  datatype Remote = Remote(
    storage: map<nat, bytes>, stored: seq<bytes>, sentinel: Option<bool>, taskError: Option<T.Error>,
    reader: Reader, pollAt: PollAt, storedAtCheck: nat)

  datatype RemoteStep =
    | Put(data: bytes)
    | PutSentinel(success: bool)
    | TaskFails(err: T.Error)
    | LookError
    | LookPart
    | LookDone(readable: bool)
    | Poll
    | TakeError
    | GiveUp
    | ReadPart(deleted: bool)
    | ReadFails(n: nat)

  const RemoteInit := Remote(map[], [], None, None, Reader(0, [], Opening), AtError, 0)

  predicate RemoteEnabled(r: Remote, s: RemoteStep) {
    var active := r.reader.phase.Opening? || r.reader.phase.Streaming?;
    match s
    case Put(_) => true
    case PutSentinel(_) => true
    case TaskFails(_) => r.taskError.None?
    case LookError => active && r.pollAt.AtError?
    case LookPart => active && r.pollAt.AtPart?
    case LookDone(_) => active && r.pollAt.AtDone?
    case Poll => active && r.pollAt.Asleep?
    case TakeError => active && r.pollAt.Asleep? && r.taskError.Some?
    case GiveUp => active && r.pollAt.Asleep?
    case ReadPart(_) => r.reader.phase.Streaming? && r.pollAt.AtRead?
    case ReadFails(n) =>
      r.reader.phase.Streaming? && r.pollAt.AtRead? && r.reader.part in r.storage && n <= |r.storage[r.reader.part]|
  }

  function RemoteApply(r: Remote, s: RemoteStep): Remote
    requires RemoteEnabled(r, s)
  {
    var d := r.reader;
    match s
    case Put(data) => r.(storage := r.storage[|r.stored| := data], stored := r.stored + [data])
    case PutSentinel(success) => r.(sentinel := Some(success))
    case TaskFails(e) => r.(taskError := Some(e))
    case Poll => r.(pollAt := AtError)
    case TakeError => r.(reader := d.(phase := Broken(TransferError(r.taskError.value))), taskError := None)
    case GiveUp => r.(reader := d.(phase := Broken(ContextDone)))
    case LookError =>
      if r.taskError.Some?
      then r.(reader := d.(phase := Broken(TransferError(r.taskError.value))), taskError := None)
      else r.(pollAt := AtPart)
    case LookPart =>
      var r' := r.(storedAtCheck := |r.stored|);
      if d.part !in r.storage then r'.(pollAt := AtDone)
      else if d.phase.Opening? then r'.(reader := d.(phase := Streaming), pollAt := AtError)
      else r'.(pollAt := AtRead)
    case LookDone(readable) =>
      (match r.sentinel
       case None => r.(pollAt := Asleep)
       case Some(success) =>
         if readable && success then r.(reader := d.(phase := Eof))
         else r.(reader := d.(phase := Broken(BadSentinel))))
    case ReadPart(deleted) =>
      if d.part !in r.storage then r.(reader := d.(phase := Broken(MissingPart)))
      else
        r.(reader := d.(part := d.part + 1, out := d.out + r.storage[d.part]),
           storage := if deleted then r.storage - {d.part} else r.storage,
           pollAt := AtError)
    case ReadFails(n) =>
      r.(reader := d.(out := d.out + r.storage[d.part][..n], phase := Broken(CopyError)))
  }

  function RemoteRun(steps: seq<RemoteStep>): Option<Remote> {
    if steps == [] then Some(RemoteInit)
    else
      match RemoteRun(steps[..|steps| - 1])
      case None => None
      case Some(r) =>
        var s := steps[|steps| - 1];
        if RemoteEnabled(r, s) then Some(RemoteApply(r, s)) else None
  }

  ghost predicate RemoteInv(r: Remote) {
    && r.reader.part <= |r.stored|
    && r.storedAtCheck <= |r.stored|
    && (forall k :: r.reader.part <= k < |r.stored| ==> k in r.storage && r.storage[k] == r.stored[k])
    && (r.pollAt.AtDone? ==> r.reader.part == r.storedAtCheck)
    && (r.pollAt.AtRead? ==> r.reader.part < |r.stored|)
    && (forall k :: k in r.storage ==> k < |r.stored|)
    && (match r.reader.phase
        case Opening => r.reader.part == 0 && r.reader.out == []
        case Streaming => r.reader.out == Concat(r.stored[..r.reader.part])
        case Eof => r.reader.part == r.storedAtCheck && r.reader.out == Concat(r.stored[..r.storedAtCheck])
        case Broken(why) => !why.MissingPart? && r.reader.out <= Concat(r.stored))
  }

  lemma PutInv(r: Remote, data: bytes)
    requires RemoteInv(r)
    ensures RemoteInv(RemoteApply(r, Put(data)))
  {
    hide Concat;
    var r2 := RemoteApply(r, Put(data));
    assert r2.stored[..r.reader.part] == r.stored[..r.reader.part];
    assert r2.stored[..r.storedAtCheck] == r.stored[..r.storedAtCheck];
    assert r2.stored[..|r.stored|] == r.stored;
    ConcatPrefix(r2.stored, |r.stored|);
  }

  lemma ReadInv(r: Remote, s: RemoteStep)
    requires RemoteInv(r) && RemoteEnabled(r, s) && (s.ReadPart? || s.ReadFails?)
    ensures RemoteInv(RemoteApply(r, s))
  {
    hide Concat;
    ConcatSnoc(r.stored, r.reader.part);
    ConcatPrefix(r.stored, r.reader.part + 1);
  }

  lemma LookInv(r: Remote, s: RemoteStep)
    requires RemoteInv(r) && RemoteEnabled(r, s) && !s.Put? && !s.ReadPart? && !s.ReadFails?
    ensures RemoteInv(RemoteApply(r, s))
  {
    hide Concat;
    EmptyConcat();
    ConcatPrefix(r.stored, r.reader.part);
    assert r.stored[..0] == [];
  }

  lemma RemoteStepInv(r: Remote, s: RemoteStep)
    requires RemoteInv(r) && RemoteEnabled(r, s)
    ensures RemoteInv(RemoteApply(r, s))
  {
    hide RemoteInv;
    match s
    case Put(data) => PutInv(r, data);
    case ReadPart(_) => ReadInv(r, s);
    case ReadFails(_) => ReadInv(r, s);
    case _ => LookInv(r, s);
  }

  lemma {:induction false} RemoteRunInv(steps: seq<RemoteStep>)
    ensures RemoteRun(steps).Some? ==> RemoteInv(RemoteRun(steps).value)
  {
    hide RemoteApply, RemoteEnabled;
    if steps != [] {
      RemoteRunInv(steps[..|steps| - 1]);
      match RemoteRun(steps[..|steps| - 1])
      case None =>
      case Some(r) =>
        var s := steps[|steps| - 1];
        if RemoteEnabled(r, s) { RemoteStepInv(r, s); }
    }
  }

  /** The polling download yields an in-order prefix in every run, and at a clean end
      exactly the parts that existed at the last part lookup. It is therefore complete
      if and only if no byte was stored between that lookup and the end. */
  lemma RemoteDownload(steps: seq<RemoteStep>)
    requires RemoteRun(steps).Some?
    ensures var r := RemoteRun(steps).value;
            && r.storedAtCheck <= |r.stored|
            && r.reader.out <= Concat(r.stored)
            && r.reader.phase != Broken(MissingPart)
            && (r.reader.phase.Eof? ==> r.reader.out == Concat(r.stored[..r.storedAtCheck]))
            && (r.reader.phase.Eof? ==>
                  (r.reader.out == Concat(r.stored) <==> Concat(r.stored[r.storedAtCheck..]) == []))
  {
    hide Concat;
    RemoteRunInv(steps);
    var r := RemoteRun(steps).value;
    ConcatPrefix(r.stored, r.reader.part);
    EmptyConcat();
    ConcatSplit(r.stored, r.storedAtCheck);
  }

  lemma {:induction false} ConcatSplit(parts: seq<bytes>, k: nat)
    requires k <= |parts|
    ensures Concat(parts) == Concat(parts[..k]) + Concat(parts[k..])
  {
    if k == |parts| {
      assert parts[..k] == parts;
    } else {
      var init := parts[..|parts| - 1];
      ConcatSplit(init, k);
      assert init[..k] == parts[..k];
      assert parts[k..][..|parts| - k - 1] == init[k..];
    }
  }

  /** A run that ends cleanly with a part missing: the part and then the sentinel appear
      between the two lookups. */
  lemma RemoteCanMissAPart(data: bytes)
    requires data != []
    ensures var steps := [LookError, LookPart, Put(data), PutSentinel(true), LookDone(true)];
            && RemoteRun(steps).Some?
            && RemoteRun(steps).value.reader == Reader(0, [], Eof)
            && RemoteRun(steps).value.stored == [data]
  {
    var s1 := [LookError];
    var s2 := s1 + [LookPart];
    var s3 := s2 + [Put(data)];
    var s4 := s3 + [PutSentinel(true)];
    var s5 := s4 + [LookDone(true)];
    assert s1[..0] == [] && s2[..1] == s1 && s3[..2] == s2 && s4[..3] == s3 && s5[..4] == s4;
    var r1 := RemoteInit.(pollAt := AtPart);
    assert RemoteRun(s1) == Some(r1);
    assert RemoteRun(s2) == Some(r1.(pollAt := AtDone));
    var r3 := r1.(pollAt := AtDone, storage := RemoteInit.storage[0 := data], stored := [data]);
    assert [] + [data] == [data];
    assert RemoteRun(s3) == Some(r3);
    assert RemoteRun(s4) == Some(r3.(sentinel := Some(true)));
    assert s5 == [LookError, LookPart, Put(data), PutSentinel(true), LookDone(true)];
  }

  /** How a download that finds this sentinel ends. */
  function SentinelVerdict(success: bool): Phase { if success then Eof else Broken(BadSentinel) }

  /** One round of the polling reader when the sentinel is there and no error waits: it takes the
      next part, or ends. */
  lemma NextPoll(r: Remote)
    requires RemoteInv(r) && r.pollAt.AtError? && (r.reader.phase.Opening? || r.reader.phase.Streaming?)
    requires r.taskError.None? && r.sentinel.Some?
    ensures var r1 := RemoteApply(r, LookError);
            && RemoteEnabled(r1, LookPart)
            && var r2 := RemoteApply(r1, LookPart);
            if r.reader.part == |r.stored| then
              && RemoteEnabled(r2, LookDone(true))
              && RemoteApply(r2, LookDone(true)).reader == r.reader.(phase := SentinelVerdict(r.sentinel.value))
              && RemoteApply(r2, LookDone(true)).stored == r.stored
            else if r.reader.phase.Opening? then
              && r2.reader == r.reader.(phase := Streaming) && r2.pollAt.AtError?
              && r2.taskError.None? && r2.sentinel == r.sentinel && r2.stored == r.stored
            else
              && RemoteEnabled(r2, ReadPart(false))
              && var r3 := RemoteApply(r2, ReadPart(false));
                 && r3.reader.phase.Streaming? && r3.reader.part == r.reader.part + 1 && r3.pollAt.AtError?
                 && r3.taskError.None? && r3.sentinel == r.sentinel && r3.stored == r.stored
  {
    hide Concat;
  }

  lemma RemoteOne(steps: seq<RemoteStep>, s: RemoteStep)
    requires RemoteRun(steps).Some? && RemoteEnabled(RemoteRun(steps).value, s)
    ensures RemoteRun(steps + [s]) == Some(RemoteApply(RemoteRun(steps).value, s))
  {
    hide RemoteApply, RemoteEnabled;
    assert (steps + [s])[..|steps|] == steps;
  }

  function PollsLeft(r: Remote): int {
    |r.stored| - r.reader.part + (if r.reader.phase.Opening? then 1 else 0)
  }

  /** From every reachable state at the start of a round, with a readable sentinel written and no
      error waiting, the polling reader delivers everything stored if nothing else happens; it
      ends cleanly exactly if the sentinel reports success. */
  lemma {:induction false} PollingFinishes(steps: seq<RemoteStep>) returns (more: seq<RemoteStep>)
    requires RemoteRun(steps).Some?
    requires var r := RemoteRun(steps).value;
             && r.pollAt.AtError? && (r.reader.phase.Opening? || r.reader.phase.Streaming?)
             && r.taskError.None? && r.sentinel.Some?
    ensures RemoteRun(steps + more).Some?
    ensures var r, q := RemoteRun(steps).value, RemoteRun(steps + more).value;
            && q.reader.phase == SentinelVerdict(r.sentinel.value)
            && q.stored == r.stored && q.reader.out == Concat(r.stored)
    decreases var r := RemoteRun(steps).value; PollsLeft(r)
  {
    hide RemoteRun, RemoteApply, Concat;
    RemoteRunInv(steps);
    var r := RemoteRun(steps).value;
    NextPoll(r);
    var s1 := steps + [LookError];
    var s2 := s1 + [LookPart];
    RemoteOne(steps, LookError);
    RemoteOne(s1, LookPart);
    assert s2 == steps + [LookError, LookPart];
    if r.reader.part == |r.stored| {
      more := [LookError, LookPart, LookDone(true)];
      RemoteOne(s2, LookDone(true));
      assert steps + more == s2 + [LookDone(true)];
      FullyRead(r);
    } else if r.reader.phase.Opening? {
      var rest := PollingFinishes(s2);
      more := [LookError, LookPart] + rest;
      assert steps + more == s2 + rest;
    } else {
      var s3 := s2 + [ReadPart(false)];
      RemoteOne(s2, ReadPart(false));
      var rest := PollingFinishes(s3);
      more := [LookError, LookPart, ReadPart(false)] + rest;
      assert steps + more == s3 + rest;
    }
  }

  lemma FullyRead(r: Remote)
    requires RemoteInv(r) && (r.reader.phase.Opening? || r.reader.phase.Streaming?) && r.reader.part == |r.stored|
    ensures r.reader.out == Concat(r.stored)
  {
    assert r.stored[..|r.stored|] == r.stored;
  }

  /** Why a polling download ended. */
  ghost predicate PollReasons(steps: seq<RemoteStep>, r: Remote) {
    && (r.taskError.Some? ==> TaskFails(r.taskError.value) in steps)
    && (r.sentinel.Some? ==> PutSentinel(r.sentinel.value) in steps)
    && (match r.reader.phase
        case Eof => PutSentinel(true) in steps && LookDone(true) in steps
        case Broken(TransferError(e)) => TaskFails(e) in steps
        case Broken(ContextDone) => GiveUp in steps
        case Broken(CopyError) => exists n :: ReadFails(n) in steps
        case Broken(BadSentinel) => PutSentinel(false) in steps || LookDone(false) in steps
        case Broken(_) => false
        case _ => true)
  }

  lemma PollReasonsStep(steps: seq<RemoteStep>, r: Remote, s: RemoteStep)
    requires RemoteInv(r) && RemoteEnabled(r, s) && PollReasons(steps, r)
    ensures PollReasons(steps + [s], RemoteApply(r, s))
  {
    hide Concat;
    var more := steps + [s];
    assert forall x :: x in steps ==> x in more;
    assert s in more;
  }

  /** A polling download ends only for a cause in the run: a sentinel, the failure of its task, a
      time-out, or a failed copy. */
  lemma {:induction false} PollEndsForAReason(steps: seq<RemoteStep>)
    requires RemoteRun(steps).Some?
    ensures PollReasons(steps, RemoteRun(steps).value)
  {
    hide RemoteApply, RemoteEnabled;
    if steps != [] {
      var init, s := steps[..|steps| - 1], steps[|steps| - 1];
      assert steps == init + [s];
      PollEndsForAReason(init);
      RemoteRunInv(init);
      PollReasonsStep(init, RemoteRun(init).value, s);
    }
  }

  /** A failure of the task is seen at the next look, whatever is stored, and taken once. */
  lemma TaskErrorSeen(steps: seq<RemoteStep>)
    requires RemoteRun(steps).Some?
    requires var r := RemoteRun(steps).value;
             r.taskError.Some? && Polling(r) && (r.pollAt.AtError? || r.pollAt.Asleep?)
    ensures var r := RemoteRun(steps).value;
            var look := if r.pollAt.Asleep? then TakeError else LookError;
            && RemoteRun(steps + [look]).Some?
            && var q := RemoteRun(steps + [look]).value;
               q.reader == r.reader.(phase := Broken(TransferError(r.taskError.value))) && q.taskError.None?
  {
    var r := RemoteRun(steps).value;
    RemoteOne(steps, if r.pollAt.Asleep? then TakeError else LookError);
  }

  /** When every part read is deleted, storage holds exactly the parts not yet delivered. */
  lemma {:induction false} ReadAreDeleted(steps: seq<RemoteStep>)
    requires RemoteRun(steps).Some? && ReadPart(false) !in steps
    ensures var r := RemoteRun(steps).value;
            forall k :: k in r.storage <==> r.reader.part <= k < |r.stored|
  {
    hide RemoteInv;
    if steps != [] {
      var init, s := steps[..|steps| - 1], steps[|steps| - 1];
      assert steps == init + [s];
      ReadAreDeleted(init);
      RemoteRunInv(init);
      ReadInside(RemoteRun(init).value);
    }
  }

  lemma ReadInside(r: Remote)
    requires RemoteInv(r)
    ensures r.reader.part <= |r.stored|
  {
  }

  predicate Polling(r: Remote) { r.reader.phase.Opening? || r.reader.phase.Streaming? }

  /** Looks left in this round. */
  function RoundLeft(r: Remote): nat {
    match r.pollAt
    case AtError => 0
    case AtPart => 3
    case AtDone => 2
    case AtRead => 1
    case Asleep => 1
  }

  /** What the reader does next when no error waits. */
  function NextLook(p: PollAt): RemoteStep {
    match p
    case AtError => LookError
    case AtPart => LookPart
    case AtDone => LookDone(true)
    case AtRead => ReadPart(false)
    case Asleep => Poll
  }

  lemma LookOn(r: Remote)
    requires RemoteInv(r) && Polling(r) && !r.pollAt.AtError? && (r.pollAt.AtRead? ==> r.reader.phase.Streaming?)
    ensures RemoteEnabled(r, NextLook(r.pollAt))
    ensures var q := RemoteApply(r, NextLook(r.pollAt));
            && q.stored == r.stored && q.sentinel == r.sentinel && q.taskError == r.taskError
            && (Polling(q) ==> RoundLeft(q) < RoundLeft(r))
            && (Polling(q) && q.pollAt.AtRead? ==> q.reader.phase.Streaming?)
  {
    hide Concat;
  }

  /** From every reachable state the polling reader comes to its next round, or ends, by at most
      three looks of its own. */
  lemma {:induction false} RoundEnds(steps: seq<RemoteStep>) returns (more: seq<RemoteStep>)
    requires RemoteRun(steps).Some? && Polling(RemoteRun(steps).value)
    ensures |more| <= 3 && RemoteRun(steps + more).Some?
    ensures forall k :: 0 <= k < |more| ==> more[k] in {LookPart, LookDone(true), ReadPart(false), Poll}
    ensures var r, q := RemoteRun(steps).value, RemoteRun(steps + more).value;
            && q.stored == r.stored && q.sentinel == r.sentinel && q.taskError == r.taskError
            && (Polling(q) ==> q.pollAt.AtError?)
  {
    var r := RemoteRun(steps).value;
    ReadingIsStreaming(steps);
    more := RoundRest(steps, RoundLeft(r));
  }

  lemma {:induction false} RoundRest(steps: seq<RemoteStep>, n: nat) returns (more: seq<RemoteStep>)
    requires RemoteRun(steps).Some?
    requires var r := RemoteRun(steps).value;
             Polling(r) && RoundLeft(r) <= n && (r.pollAt.AtRead? ==> r.reader.phase.Streaming?)
    ensures |more| <= n && RemoteRun(steps + more).Some?
    ensures forall k :: 0 <= k < |more| ==> more[k] in {LookPart, LookDone(true), ReadPart(false), Poll}
    ensures var r, q := RemoteRun(steps).value, RemoteRun(steps + more).value;
            && q.stored == r.stored && q.sentinel == r.sentinel && q.taskError == r.taskError
            && (Polling(q) ==> q.pollAt.AtError?)
    decreases n
  {
    hide RemoteRun, RemoteApply, RemoteEnabled, RemoteInv;
    var r := RemoteRun(steps).value;
    if r.pollAt.AtError? {
      more := [];
      assert steps + more == steps;
    } else {
      var s := NextLook(r.pollAt);
      RemoteRunInv(steps);
      LookOn(r);
      RemoteOne(steps, s);
      if Polling(RemoteRun(steps + [s]).value) {
        var rest := RoundRest(steps + [s], n - 1);
        more := [s] + rest;
        assert steps + more == steps + [s] + rest;
      } else {
        more := [s];
      }
    }
  }

  lemma {:induction false} ReadingIsStreaming(steps: seq<RemoteStep>)
    requires RemoteRun(steps).Some?
    ensures var r := RemoteRun(steps).value; Polling(r) && r.pollAt.AtRead? ==> r.reader.phase.Streaming?
  {
    if steps != [] { ReadingIsStreaming(steps[..|steps| - 1]); }
  }

  function LastSentinel(steps: seq<RemoteStep>): Option<bool> {
    if steps == [] then None
    else if steps[|steps| - 1].PutSentinel? then Some(steps[|steps| - 1].success)
    else LastSentinel(steps[..|steps| - 1])
  }

  /** The sentinel is the one written last, and a failure of the task waits until the download
      breaks with it. */
  lemma {:induction false} SignalsStay(steps: seq<RemoteStep>)
    requires RemoteRun(steps).Some?
    ensures var r := RemoteRun(steps).value;
            && r.sentinel == LastSentinel(steps)
            && ((exists e :: TaskFails(e) in steps) ==>
                  r.taskError.Some? || (r.reader.phase.Broken? && r.reader.phase.why.TransferError?))
  {
    if steps != [] {
      var init, s := steps[..|steps| - 1], steps[|steps| - 1];
      assert steps == init + [s];
      SignalsStay(init);
      assert forall e :: TaskFails(e) in steps && s != TaskFails(e) ==> TaskFails(e) in init;
    }
  }
}
