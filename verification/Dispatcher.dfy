/** Request dispatch between instances over a bus that may lose, repeat or delay messages.
    One protocol serves file operations and HTTP proxying; the latter passes large answers
    through shared storage. */
module Dispatcher {
  import opened Wrappers
  import opened Bits

  const STORAGE_THRESHOLD: nat := 4 * 1024

  const STORAGE_PREFIX := "httpproxy/"

  datatype Request = Request(id: string, instance: string, node: nat, data: seq<byte>)

  /** What the gateway of the executing instance answered. */
  datatype Outcome = Bytes(data: seq<byte>) | Fault(message: string)

  datatype Exec = Exec(request: Request, outcome: Outcome)

  datatype Response = Response(id: string, error: string, data: seq<byte>, path: string)

  datatype Failed = NotPublished | Cancelled | TimedOut | Remote(message: string) | NotStored

  /** Where a call stands. The pending entry is removed on the way from Leaving to Returned;
      Resolved ends a proxy call. */
  datatype Phase =
    | Registered
    | Waiting
    | Leaving(result: Result<Response, Failed>)
    | Returned(result: Result<Response, Failed>)
    | Resolved(bytes: Result<seq<byte>, Failed>)

  datatype Call = Call(request: Request, phase: Phase)

  /** A response handler that has found its channel and is about to send. */
  datatype Handler = Handler(id: string, response: Response)

  /** A response on its way to the instance that asked. */
  datatype Mail = Mail(instance: string, response: Response)

  /** All instances together. pending is each instance's map, whose entry for a request is the
      channel of that request; a channel holds at most one response. Messages on the bus stay
      there, to be delivered any number of times or never. */
  datatype System = System(
    calls: map<string, Call>,
    pending: set<(string, string)>,
    channels: map<string, Option<Response>>,
    requests: set<Request>,
    running: multiset<Request>,
    ready: multiset<Mail>,
    mail: set<Mail>,
    handlers: multiset<Handler>,
    storage: map<string, seq<byte>>,
    executed: set<Exec>)

  const INIT := System(map[], {}, map[], {}, multiset{}, multiset{}, {}, multiset{}, map[], {})

  datatype Step =
    | Register(request: Request)
    | Publish(id: string, ok: bool)
    | DeliverRequest(request: Request, connected: bool)
    | Execute(request: Request, outcome: Outcome, stored: bool)
    | Respond(item: Mail, ok: bool)
    | DeliverResponse(item: Mail)
    | Send(handler: Handler)
    | Receive(id: string)
    | GiveUp(id: string, why: Failed)
    | Return(id: string)
    | Resolve(id: string)

  predicate InPhase(s: System, id: string, phase: Phase) { id in s.calls && s.calls[id].phase == phase }

  predicate Enabled(s: System, step: Step) {
    match step
    case Register(r) => r.id !in s.calls
    case Publish(id, _) => InPhase(s, id, Registered)
    case DeliverRequest(r, _) => r in s.requests
    case Execute(r, _, _) => r in s.running
    case Respond(m, _) => m in s.ready
    case DeliverResponse(m) => m in s.mail
    case Send(h) => h in s.handlers
    case Receive(id) => InPhase(s, id, Waiting) && id in s.channels && s.channels[id].Some?
    case GiveUp(id, why) => InPhase(s, id, Waiting) && why in {Cancelled, TimedOut}
    case Return(id) => id in s.calls && s.calls[id].phase.Leaving?
    case Resolve(id) => id in s.calls && s.calls[id].phase.Returned? && s.calls[id].phase.result.Success?
  }

  function Move(s: System, id: string, phase: Phase): System
    requires id in s.calls
  {
    s.(calls := s.calls[id := s.calls[id].(phase := phase)])
  }

  function StoragePath(id: string): string { STORAGE_PREFIX + id }

  predicate Spills(outcome: Outcome, stored: bool) {
    outcome.Bytes? && |outcome.data| > STORAGE_THRESHOLD && stored
  }

  /** The response for an outcome: by reference when large and stored, inline otherwise. */
  function ResponseFor(id: string, outcome: Outcome, stored: bool): Response {
    match outcome
    case Fault(message) => Response(id, message, [], "")
    case Bytes(data) =>
      if Spills(outcome, stored) then Response(id, "", [], StoragePath(id)) else Response(id, "", data, "")
  }

  function Received(r: Response): Result<Response, Failed> {
    if r.error != "" then Failure(Remote(r.error)) else Success(r)
  }

  function AfterRegister(s: System, r: Request): System {
    s.(calls := s.calls[r.id := Call(r, Registered)],
       pending := s.pending + {(r.instance, r.id)},
       channels := s.channels[r.id := None])
  }

  function AfterPublish(s: System, id: string, ok: bool): System
    requires id in s.calls
  {
    Move(s, id, if ok then Waiting else Leaving(Failure(NotPublished)))
      .(requests := s.requests + {s.calls[id].request})
  }

  function AfterDeliverRequest(s: System, r: Request, connected: bool): System {
    if connected then s.(running := s.running + multiset{r}) else s
  }

  function AfterExecute(s: System, r: Request, outcome: Outcome, stored: bool): System {
    s.(running := s.running - multiset{r},
       ready := s.ready + multiset{Mail(r.instance, ResponseFor(r.id, outcome, stored))},
       storage := if Spills(outcome, stored) then s.storage[StoragePath(r.id) := outcome.data] else s.storage,
       executed := s.executed + {Exec(r, outcome)})
  }

  function AfterRespond(s: System, m: Mail, ok: bool): System {
    s.(ready := s.ready - multiset{m}, mail := if ok then s.mail + {m} else s.mail)
  }

  function AfterDeliverResponse(s: System, m: Mail): System {
    if (m.instance, m.response.id) in s.pending
    then s.(handlers := s.handlers + multiset{Handler(m.response.id, m.response)})
    else s
  }

  /** The send never waits: a full channel makes the response be dropped. */
  function AfterSend(s: System, h: Handler): System {
    var left := s.(handlers := s.handlers - multiset{h});
    if h.id in s.channels && s.channels[h.id].None?
    then left.(channels := s.channels[h.id := Some(h.response)])
    else left
  }

  function AfterReceive(s: System, id: string): System
    requires id in s.calls && id in s.channels && s.channels[id].Some?
  {
    Move(s, id, Leaving(Received(s.channels[id].value))).(channels := s.channels[id := None])
  }

  function AfterGiveUp(s: System, id: string, why: Failed): System
    requires id in s.calls
  {
    Move(s, id, Leaving(Failure(why)))
  }

  function AfterReturn(s: System, id: string): System
    requires id in s.calls && s.calls[id].phase.Leaving?
  {
    Move(s, id, Returned(s.calls[id].phase.result)).(pending := s.pending - {(s.calls[id].request.instance, id)})
  }

  function AfterResolve(s: System, id: string): System
    requires id in s.calls && s.calls[id].phase.Returned? && s.calls[id].phase.result.Success?
  {
    var r := s.calls[id].phase.result.value;
    if r.path == "" then Move(s, id, Resolved(Success(r.data)))
    else if r.path in s.storage
    then Move(s, id, Resolved(Success(s.storage[r.path]))).(storage := s.storage - {r.path})
    else Move(s, id, Resolved(Failure(NotStored)))
  }

  function Apply(s: System, step: Step): System
    requires Enabled(s, step)
  {
    match step
    case Register(r) => AfterRegister(s, r)
    case Publish(id, ok) => AfterPublish(s, id, ok)
    case DeliverRequest(r, connected) => AfterDeliverRequest(s, r, connected)
    case Execute(r, outcome, stored) => AfterExecute(s, r, outcome, stored)
    case Respond(m, ok) => AfterRespond(s, m, ok)
    case DeliverResponse(m) => AfterDeliverResponse(s, m)
    case Send(h) => AfterSend(s, h)
    case Receive(id) => AfterReceive(s, id)
    case GiveUp(id, why) => AfterGiveUp(s, id, why)
    case Return(id) => AfterReturn(s, id)
    case Resolve(id) => AfterResolve(s, id)
  }

  function Run(steps: seq<Step>): Option<System> {
    if steps == [] then Some(INIT)
    else
      var before := Run(steps[..|steps| - 1]);
      var step := steps[|steps| - 1];
      if before.Some? && Enabled(before.value, step) then Some(Apply(before.value, step)) else None
  }

  // ---------------------------------------------------------------------------
  // What every run keeps
  // ---------------------------------------------------------------------------

  predicate InFlight(c: Call) { c.phase.Registered? || c.phase.Waiting? || c.phase.Leaving? }

  /** Each instance's pending map holds exactly its calls in flight. */
  ghost predicate PendingOk(s: System) {
    && (forall i, id :: (i, id) in s.pending <==>
          id in s.calls && InFlight(s.calls[id]) && s.calls[id].request.instance == i)
    && (forall id :: id in s.channels <==> id in s.calls)
    && (forall id :: id in s.calls ==> s.calls[id].request.id == id)
  }

  /** What is on the bus or running was asked for by a call. */
  ghost predicate AskedOk(s: System) {
    && (forall r :: r in s.requests ==> r.id in s.calls && s.calls[r.id].request == r)
    && (forall r :: r in s.running ==> r in s.requests)
    && (forall e :: e in s.executed ==> e.request in s.requests)
  }

  predicate Ran(s: System, id: string, outcome: Outcome) {
    id in s.calls && Exec(s.calls[id].request, outcome) in s.executed
  }

  predicate Settled(s: System, id: string) { id in s.calls && s.calls[id].phase.Resolved? }

  /** A response tells what some execution of its request answered; one sent by reference
      finds its bytes in storage until the call has fetched them. */
  ghost predicate Honest(s: System, r: Response) {
    if r.error != "" then Ran(s, r.id, Fault(r.error))
    else if r.path == "" then Ran(s, r.id, Bytes(r.data)) || (r.data == [] && Ran(s, r.id, Fault("")))
    else r.path == StoragePath(r.id) && (Settled(s, r.id) || Kept(s, r.id))
  }

  predicate Kept(s: System, id: string) {
    StoragePath(id) in s.storage && Ran(s, id, Bytes(s.storage[StoragePath(id)]))
  }

  /** The response a call has accepted, if any. */
  predicate Holds(c: Call, r: Response) {
    (c.phase.Leaving? || c.phase.Returned?) && c.phase.result == Success(r)
  }

  ghost predicate ResponsesOk(s: System) {
    && (forall m :: m in s.ready ==> Honest(s, m.response))
    && (forall m :: m in s.mail ==> Honest(s, m.response))
    && (forall h :: h in s.handlers ==> h.id == h.response.id && Honest(s, h.response))
    && (forall id :: id in s.channels && s.channels[id].Some? ==>
          s.channels[id].value.id == id && Honest(s, s.channels[id].value))
    && (forall id, r :: id in s.calls && Holds(s.calls[id], r) ==> r.id == id && r.error == "" && Honest(s, r))
  }

  /** A proxy call that has ended got bytes its request was answered with. */
  ghost predicate ResolvedOk(s: System) {
    forall id :: Settled(s, id) ==>
      && s.calls[id].phase.bytes.Success?
      && var b := s.calls[id].phase.bytes.value;
         Ran(s, id, Bytes(b)) || (b == [] && Ran(s, id, Fault("")))
  }

  ghost predicate Inv(s: System) { PendingOk(s) && AskedOk(s) && ResponsesOk(s) && ResolvedOk(s) }

  /** Steps of the bus and the executors leave the calls alone. */
  predicate AtRemote(step: Step) {
    step.DeliverRequest? || step.Execute? || step.Respond? || step.DeliverResponse?
  }

  /** The callers' side of the system is the same. */
  ghost predicate SameCallers(s: System, t: System) {
    t.calls == s.calls && t.pending == s.pending && t.channels == s.channels && t.requests == s.requests
  }

  lemma BusQuiet(s: System, r: Request, m: Mail, flag: bool)
    ensures SameCallers(s, AfterDeliverRequest(s, r, flag)) && AfterDeliverRequest(s, r, flag).executed == s.executed
    ensures SameCallers(s, AfterRespond(s, m, flag)) && AfterRespond(s, m, flag).executed == s.executed
    ensures SameCallers(s, AfterDeliverResponse(s, m)) && AfterDeliverResponse(s, m).executed == s.executed
  {
  }

  lemma ExecuteQuiet(s: System, r: Request, outcome: Outcome, stored: bool)
    ensures SameCallers(s, AfterExecute(s, r, outcome, stored))
    ensures AfterExecute(s, r, outcome, stored).executed == s.executed + {Exec(r, outcome)}
  {
    hide ResponseFor, Spills, StoragePath;
  }

  lemma RemoteQuiet(s: System, step: Step)
    requires Enabled(s, step) && AtRemote(step)
    ensures SameCallers(s, Apply(s, step)) && s.executed <= Apply(s, step).executed
  {
    hide AfterRegister, AfterPublish, AfterDeliverRequest, AfterExecute, AfterRespond, AfterDeliverResponse, AfterSend,
      AfterReceive, AfterGiveUp, AfterReturn, AfterResolve;
    match step
    case DeliverRequest(r, connected) => BusQuiet(s, r, Mail("", Response("", "", [], "")), connected);
    case Execute(r, outcome, stored) => ExecuteQuiet(s, r, outcome, stored);
    case Respond(m, ok) => BusQuiet(s, Request("", "", 0, []), m, ok);
    case DeliverResponse(m) => BusQuiet(s, Request("", "", 0, []), m, true);
  }

  /** The responses between executors and callers are the same. */
  predicate SameTraffic(s: System, t: System) { t.ready == s.ready && t.mail == s.mail }

  /** One call has moved on; nothing was executed, and at most its own request was sent. */
  ghost predicate Moved(s: System, t: System, id: string) {
    && id in s.calls && t.calls.Keys == s.calls.Keys
    && t.calls[id].request == s.calls[id].request
    && (forall x :: x in s.calls && x != id ==> t.calls[x] == s.calls[x])
    && t.channels.Keys == s.channels.Keys
    && t.running == s.running && t.executed == s.executed && SameTraffic(s, t)
    && (t.requests == s.requests || t.requests == s.requests + {s.calls[id].request})
  }

  lemma PublishMoves(s: System, id: string, ok: bool)
    requires Enabled(s, Publish(id, ok))
    ensures var t := AfterPublish(s, id, ok);
            Moved(s, t, id) && t.pending == s.pending && InFlight(t.calls[id])
  {
  }

  lemma ReceiveMoves(s: System, id: string)
    requires Enabled(s, Receive(id))
    ensures var t := AfterReceive(s, id);
            Moved(s, t, id) && t.pending == s.pending && InFlight(t.calls[id])
  {
    hide Received;
  }

  lemma GiveUpMoves(s: System, id: string, why: Failed)
    requires Enabled(s, GiveUp(id, why))
    ensures var t := AfterGiveUp(s, id, why);
            Moved(s, t, id) && t.pending == s.pending && InFlight(t.calls[id])
  {
  }

  lemma ReturnMoves(s: System, id: string)
    requires Enabled(s, Return(id))
    ensures Moved(s, AfterReturn(s, id), id) && AfterReturn(s, id).calls[id].phase.Returned?
  {
  }

  lemma ResolveMoves(s: System, id: string)
    requires Enabled(s, Resolve(id))
    ensures var t := AfterResolve(s, id);
            Moved(s, t, id) && t.pending == s.pending && t.calls[id].phase.Resolved?
  {
  }

  lemma SendQuiet(s: System, h: Handler)
    ensures var t := AfterSend(s, h);
            && t.calls == s.calls && t.pending == s.pending && t.channels.Keys == s.channels.Keys
            && t.requests == s.requests && t.running == s.running && t.executed == s.executed && SameTraffic(s, t)
  {
  }

  predicate Moves(step: Step) {
    step.Publish? || step.Receive? || step.GiveUp? || step.Return? || step.Resolve?
  }

  lemma StepMoves(s: System, step: Step)
    requires Enabled(s, step) && Moves(step)
    ensures var t := Apply(s, step);
            && Moved(s, t, step.id)
            && !s.calls[step.id].phase.Resolved?
            && (t.calls[step.id].phase.Resolved? ==> step.Resolve?)
  {
    hide AfterRegister, AfterPublish, AfterDeliverRequest, AfterExecute, AfterRespond, AfterDeliverResponse, AfterSend,
      AfterReceive, AfterGiveUp, AfterReturn, AfterResolve;
    match step
    case Publish(id, ok) => PublishMoves(s, id, ok);
    case Receive(id) => ReceiveMoves(s, id);
    case GiveUp(id, why) => GiveUpMoves(s, id, why);
    case Return(id) => ReturnMoves(s, id);
    case Resolve(id) => ResolveMoves(s, id);
  }

  /** A call moves within its flight, or after it. */
  lemma MovedPending(s: System, t: System, id: string)
    requires PendingOk(s) && Moved(s, t, id) && t.pending == s.pending && InFlight(s.calls[id]) == InFlight(t.calls[id])
    ensures PendingOk(t)
  {
    forall i, x ensures (i, x) in t.pending <==>
                        x in t.calls && InFlight(t.calls[x]) && t.calls[x].request.instance == i
    {
      assert (i, x) in s.pending <==> x in s.calls && InFlight(s.calls[x]) && s.calls[x].request.instance == i;
    }
  }

  lemma RegisterPending(s: System, r: Request)
    requires PendingOk(s) && Enabled(s, Register(r))
    ensures PendingOk(AfterRegister(s, r))
  {
  }

  lemma ReturnPending(s: System, id: string)
    requires PendingOk(s) && Enabled(s, Return(id))
    ensures PendingOk(AfterReturn(s, id))
  {
  }

  lemma PendingStep(s: System, step: Step)
    requires PendingOk(s) && Enabled(s, step)
    ensures PendingOk(Apply(s, step))
  {
    hide PendingOk, Moved;
    hide AfterRegister, AfterPublish, AfterDeliverRequest, AfterExecute, AfterRespond, AfterDeliverResponse, AfterSend,
      AfterReceive, AfterGiveUp, AfterReturn, AfterResolve;
    match step
    case Register(r) => RegisterPending(s, r);
    case Return(id) => ReturnPending(s, id);
    case Send(h) =>
      SendQuiet(s, h);
      SamePending(s, AfterSend(s, h));
    case Publish(id, ok) =>
      PublishMoves(s, id, ok);
      MovedPending(s, AfterPublish(s, id, ok), id);
    case Receive(id) =>
      ReceiveMoves(s, id);
      MovedPending(s, AfterReceive(s, id), id);
    case GiveUp(id, why) =>
      GiveUpMoves(s, id, why);
      MovedPending(s, AfterGiveUp(s, id, why), id);
    case Resolve(id) =>
      ResolveMoves(s, id);
      MovedPending(s, AfterResolve(s, id), id);
    case _ =>
      RemoteQuiet(s, step);
      SamePending(s, Apply(s, step));
  }

  lemma SamePending(s: System, t: System)
    requires PendingOk(s) && t.calls == s.calls && t.pending == s.pending && t.channels.Keys == s.channels.Keys
    ensures PendingOk(t)
  {
    assert forall id :: id in t.channels <==> id in t.channels.Keys;
    assert forall id :: id in s.channels <==> id in s.channels.Keys;
  }

  /** Calls are never forgotten, nor is what they asked for, nor what was executed. */
  ghost predicate Extends(s: System, t: System) {
    && (forall id :: id in s.calls ==> id in t.calls && t.calls[id].request == s.calls[id].request)
    && (forall id :: Settled(s, id) ==> Settled(t, id) && t.calls[id] == s.calls[id])
    && s.requests <= t.requests && s.executed <= t.executed
  }

  lemma StepExtends(s: System, step: Step)
    requires Enabled(s, step)
    ensures Extends(s, Apply(s, step))
  {
    hide AfterRegister, AfterPublish, AfterDeliverRequest, AfterExecute, AfterRespond, AfterDeliverResponse, AfterSend,
      AfterReceive, AfterGiveUp, AfterReturn, AfterResolve;
    if Moves(step) {
      StepMoves(s, step);
    } else if step.Send? {
      SendQuiet(s, step.handler);
    } else if step.Register? {
      RegisterExtends(s, step.request);
    } else {
      RemoteQuiet(s, step);
    }
  }

  lemma RegisterExtends(s: System, r: Request)
    requires r.id !in s.calls
    ensures var t := AfterRegister(s, r);
            && Extends(s, t) && t.requests == s.requests && t.running == s.running && t.executed == s.executed
            && t.calls == s.calls[r.id := Call(r, Registered)] && SameTraffic(s, t)
  {
  }

  lemma AskedStep(s: System, step: Step)
    requires PendingOk(s) && AskedOk(s) && Enabled(s, step)
    ensures AskedOk(Apply(s, step))
  {
    hide Moved, Extends;
    hide AfterRegister, AfterPublish, AfterDeliverRequest, AfterExecute, AfterRespond, AfterDeliverResponse, AfterSend,
      AfterReceive, AfterGiveUp, AfterReturn, AfterResolve;
    if Moves(step) {
      StepMoves(s, step);
      MovedAsked(s, Apply(s, step), step.id);
    } else if step.Send? {
      SendQuiet(s, step.handler);
    } else if step.Register? {
      RegisterExtends(s, step.request);
    } else {
      RemoteAsked(s, step);
    }
  }

  lemma MovedAsked(s: System, t: System, id: string)
    requires PendingOk(s) && AskedOk(s) && Moved(s, t, id)
    ensures AskedOk(t)
  {
  }

  lemma RemoteAsked(s: System, step: Step)
    requires AskedOk(s) && Enabled(s, step) && AtRemote(step)
    ensures AskedOk(Apply(s, step))
  {
    hide Apply;
    RemoteQuiet(s, step);
    var t := Apply(s, step);
    forall r | r in t.running ensures r in t.requests { RunningFrom(s, step, r); }
    forall e | e in t.executed ensures e.request in t.requests { ExecutedFrom(s, step, e); }
  }

  lemma RunningFrom(s: System, step: Step, r: Request)
    requires Enabled(s, step) && AtRemote(step) && r in Apply(s, step).running
    ensures r in s.running || r in s.requests
  {
    hide ResponseFor, Spills, StoragePath, AfterRegister, AfterPublish, AfterSend, AfterReceive, AfterGiveUp,
      AfterReturn, AfterResolve;
  }

  lemma ExecutedFrom(s: System, step: Step, e: Exec)
    requires Enabled(s, step) && AtRemote(step) && e in Apply(s, step).executed
    ensures e in s.executed || e.request in s.running
  {
    hide ResponseFor, Spills, StoragePath, AfterRegister, AfterPublish, AfterSend, AfterReceive, AfterGiveUp,
      AfterReturn, AfterResolve;
  }

  // ---------------------------------------------------------------------------
  // Responses stay honest
  // ---------------------------------------------------------------------------

  lemma RanStays(s: System, t: System, id: string, outcome: Outcome)
    requires Extends(s, t) && Ran(s, id, outcome)
    ensures Ran(t, id, outcome)
  {
  }

  lemma StoragePathInjective(a: string, b: string)
    ensures StoragePath(a) == StoragePath(b) ==> a == b
    ensures StoragePath(a) != ""
  {
    assert StoragePath(a)[|STORAGE_PREFIX|..] == a && StoragePath(b)[|STORAGE_PREFIX|..] == b;
  }

  /** An execution that stores its bytes is one of the call's own. */
  lemma ExecuteKeeps(s: System, step: Step, id: string)
    requires Inv(s) && Enabled(s, step) && step.Execute? && Kept(s, id)
    ensures Kept(Apply(s, step), id)
  {
    hide PendingOk, ResponsesOk, ResolvedOk, ResponseFor, StoragePath, AfterRegister, AfterPublish,
      AfterDeliverRequest, AfterRespond, AfterDeliverResponse, AfterSend, AfterReceive, AfterGiveUp, AfterReturn,
      AfterResolve;
    StoragePathInjective(id, step.request.id);
    RemoteQuiet(s, step);
  }

  lemma ResolveKeeps(s: System, step: Step, id: string)
    requires Inv(s) && Enabled(s, step) && step.Resolve? && Kept(s, id)
    ensures Kept(Apply(s, step), id) || Settled(Apply(s, step), id)
  {
    hide PendingOk, AskedOk, ResolvedOk, StoragePath, AfterRegister, AfterPublish, AfterDeliverRequest, AfterExecute,
      AfterRespond, AfterDeliverResponse, AfterSend, AfterReceive, AfterGiveUp, AfterReturn;
    var r := s.calls[step.id].phase.result.value;
    assert Holds(s.calls[step.id], r);
    StoragePathInjective(id, step.id);
  }

  lemma KeptStays(s: System, step: Step, id: string)
    requires Inv(s) && Enabled(s, step) && Kept(s, id)
    ensures Kept(Apply(s, step), id) || Settled(Apply(s, step), id)
  {
    hide Inv, ResponseFor, Spills, Received, StoragePath, Extends;
    if step.Execute? {
      ExecuteKeeps(s, step, id);
    } else if step.Resolve? {
      ResolveKeeps(s, step, id);
    } else {
      StepExtends(s, step);
      RanStays(s, Apply(s, step), id, Bytes(s.storage[StoragePath(id)]));
    }
  }

  lemma HonestStays(s: System, step: Step, r: Response)
    requires Inv(s) && Enabled(s, step) && Honest(s, r)
    ensures Honest(Apply(s, step), r)
  {
    hide Inv, Apply, Kept, StoragePath;
    StepExtends(s, step);
    if r.path != "" && r.error == "" && Kept(s, r.id) { KeptStays(s, step, r.id); }
  }

  lemma NewResponse(s: System, step: Step)
    requires Inv(s) && Enabled(s, step) && step.Execute?
    ensures Honest(Apply(s, step), ResponseFor(step.request.id, step.outcome, step.stored))
  {
    hide PendingOk, ResponsesOk, ResolvedOk, StoragePath, AfterRegister, AfterPublish, AfterDeliverRequest,
      AfterRespond, AfterDeliverResponse, AfterSend, AfterReceive, AfterGiveUp, AfterReturn, AfterResolve;
    var t := Apply(s, step);
    RemoteQuiet(s, step);
    StoragePathInjective(step.request.id, step.request.id);
    assert Exec(step.request, step.outcome) in t.executed;
    assert Ran(t, step.request.id, step.outcome);
  }

  lemma ReadyFrom(s: System, step: Step, m: Mail)
    requires Enabled(s, step) && m in Apply(s, step).ready
    ensures m in s.ready ||
            (step.Execute? && m.response == ResponseFor(step.request.id, step.outcome, step.stored))
  {
    hide AfterRegister, AfterPublish, AfterDeliverRequest, AfterExecute, AfterRespond, AfterDeliverResponse, AfterSend,
      AfterReceive, AfterGiveUp, AfterReturn, AfterResolve;
    if AtRemote(step) { RemoteReady(s, step, m); } else { LocalTraffic(s, step); }
  }

  lemma RemoteReady(s: System, step: Step, m: Mail)
    requires Enabled(s, step) && AtRemote(step) && m in Apply(s, step).ready
    ensures m in s.ready ||
            (step.Execute? && m.response == ResponseFor(step.request.id, step.outcome, step.stored))
  {
    hide ResponseFor, Spills, StoragePath, AfterRegister, AfterPublish, AfterSend, AfterReceive, AfterGiveUp,
      AfterReturn, AfterResolve;
  }

  lemma LocalTraffic(s: System, step: Step)
    requires Enabled(s, step) && !AtRemote(step)
    ensures SameTraffic(s, Apply(s, step))
  {
    hide Extends;
    hide AfterRegister, AfterPublish, AfterDeliverRequest, AfterExecute, AfterRespond, AfterDeliverResponse, AfterSend,
      AfterReceive, AfterGiveUp, AfterReturn, AfterResolve;
    if Moves(step) {
      StepMoves(s, step);
    } else if step.Send? {
      SendQuiet(s, step.handler);
    } else {
      RegisterExtends(s, step.request);
    }
  }

  lemma MailFrom(s: System, step: Step, m: Mail)
    requires Enabled(s, step) && m in Apply(s, step).mail
    ensures m in s.mail || m in s.ready
  {
    hide ResponseFor, Spills, StoragePath, AfterRegister, AfterPublish, AfterSend, AfterReceive, AfterGiveUp,
      AfterReturn, AfterResolve;
    if !AtRemote(step) { LocalTraffic(s, step); }
  }

  lemma ReadyStep(s: System, step: Step)
    requires Inv(s) && Enabled(s, step)
    ensures var t := Apply(s, step);
            && (forall m :: m in t.ready ==> Honest(t, m.response))
            && (forall m :: m in t.mail ==> Honest(t, m.response))
  {
    hide Apply, PendingOk, AskedOk, ResolvedOk, Honest, ResponseFor;
    var t := Apply(s, step);
    if step.Execute? { NewResponse(s, step); }
    forall m | m in t.ready ensures Honest(t, m.response) {
      ReadyFrom(s, step, m);
      if m in s.ready { HonestStays(s, step, m.response); }
    }
    forall m | m in t.mail ensures Honest(t, m.response) {
      MailFrom(s, step, m);
      HonestStays(s, step, m.response);
    }
  }

  lemma HandlersStep(s: System, step: Step)
    requires Inv(s) && Enabled(s, step)
    ensures var t := Apply(s, step);
            forall h :: h in t.handlers ==> h.id == h.response.id && Honest(t, h.response)
  {
    hide PendingOk, AskedOk, ResolvedOk, Honest, ResponseFor, Spills, Received, StoragePath;
    var t := Apply(s, step);
    forall h | h in t.handlers ensures h.id == h.response.id && Honest(t, h.response) {
      assert h in s.handlers || (step.DeliverResponse? && h == Handler(step.item.response.id, step.item.response));
      HonestStays(s, step, h.response);
    }
  }

  lemma ChannelsStep(s: System, step: Step)
    requires Inv(s) && Enabled(s, step)
    ensures var t := Apply(s, step);
            forall id :: id in t.channels && t.channels[id].Some? ==>
              t.channels[id].value.id == id && Honest(t, t.channels[id].value)
  {
    hide PendingOk, AskedOk, ResolvedOk, Honest, ResponseFor, Spills, Received, StoragePath;
    var t := Apply(s, step);
    forall id | id in t.channels && t.channels[id].Some?
      ensures t.channels[id].value.id == id && Honest(t, t.channels[id].value)
    {
      assert (id in s.channels && s.channels[id] == t.channels[id]) ||
             (step.Send? && id == step.handler.id && t.channels[id].value == step.handler.response);
      HonestStays(s, step, t.channels[id].value);
    }
  }

  /** A call accepts a response only from its own channel. */
  lemma HeldFrom(s: System, step: Step, id: string, r: Response)
    requires Enabled(s, step) && id in Apply(s, step).calls && Holds(Apply(s, step).calls[id], r)
    ensures || (id in s.calls && Holds(s.calls[id], r))
            || (id in s.channels && s.channels[id] == Some(r) && r.error == "")
  {
    hide ResponseFor, Spills, StoragePath;
    if AtRemote(step) { RemoteQuiet(s, step); }
  }

  lemma HeldStep(s: System, step: Step)
    requires Inv(s) && Enabled(s, step)
    ensures var t := Apply(s, step);
            forall id, r :: id in t.calls && Holds(t.calls[id], r) ==> r.id == id && r.error == "" && Honest(t, r)
  {
    hide PendingOk, AskedOk, ResolvedOk, Honest, Apply, Holds;
    var t := Apply(s, step);
    forall id, r | id in t.calls && Holds(t.calls[id], r) ensures r.id == id && r.error == "" && Honest(t, r) {
      HeldFrom(s, step, id, r);
      HonestStays(s, step, r);
    }
  }

  lemma ResolvedStep(s: System, step: Step)
    requires Inv(s) && Enabled(s, step)
    ensures ResolvedOk(Apply(s, step))
  {
    hide PendingOk, AskedOk, ResponsesOk, ResponseFor, Spills, Received, StoragePath, Extends;
    var t := Apply(s, step);
    StepExtends(s, step);
    forall id | Settled(t, id)
      ensures && t.calls[id].phase.bytes.Success?
              && var b := t.calls[id].phase.bytes.value;
                 Ran(t, id, Bytes(b)) || (b == [] && Ran(t, id, Fault("")))
    {
      if Settled(s, id) {
        StillResolved(s, t, id);
      } else {
        OnlyResolve(s, step, id);
        ResolvesHonestly(s, id);
      }
    }
  }

  lemma StillResolved(s: System, t: System, id: string)
    requires ResolvedOk(s) && Extends(s, t) && Settled(s, id)
    ensures && t.calls[id] == s.calls[id] && t.calls[id].phase.bytes.Success?
            && var b := t.calls[id].phase.bytes.value;
               Ran(t, id, Bytes(b)) || (b == [] && Ran(t, id, Fault("")))
  {
  }

  lemma OnlyResolve(s: System, step: Step, id: string)
    requires Enabled(s, step) && Settled(Apply(s, step), id) && !Settled(s, id)
    ensures step == Resolve(id)
  {
    hide ResponseFor, Spills, Received, StoragePath;
    if AtRemote(step) { RemoteQuiet(s, step); }
  }

  /** Fetching the answer always succeeds, with bytes some execution of the request gave. */
  lemma ResolvesHonestly(s: System, id: string)
    requires Inv(s) && Enabled(s, Resolve(id))
    ensures var t := Apply(s, Resolve(id));
            && Settled(t, id) && t.calls[id].phase.bytes.Success?
            && var b := t.calls[id].phase.bytes.value;
               Ran(t, id, Bytes(b)) || (b == [] && Ran(t, id, Fault("")))
  {
    hide PendingOk, AskedOk, ResolvedOk, StoragePath;
    var r := s.calls[id].phase.result.value;
    assert Holds(s.calls[id], r);
    StoragePathInjective(id, id);
  }

  lemma StepInv(s: System, step: Step)
    requires Inv(s) && Enabled(s, step)
    ensures Inv(Apply(s, step))
  {
    hide PendingOk, AskedOk, ResolvedOk, Honest, Apply, Holds;
    PendingStep(s, step);
    AskedStep(s, step);
    ReadyStep(s, step);
    HandlersStep(s, step);
    ChannelsStep(s, step);
    HeldStep(s, step);
    ResolvedStep(s, step);
  }

  lemma {:induction false} RunInv(steps: seq<Step>)
    ensures Run(steps).Some? ==> Inv(Run(steps).value)
  {
    hide Apply, Enabled;
    if steps == [] {
      assert Inv(INIT);
    } else {
      var before := Run(steps[..|steps| - 1]);
      RunInv(steps[..|steps| - 1]);
      if before.Some? && Enabled(before.value, steps[|steps| - 1]) {
        StepInv(before.value, steps[|steps| - 1]);
      }
    }
  }

  // ---------------------------------------------------------------------------
  // What callers may rely on
  // ---------------------------------------------------------------------------

  /** A dispatch that succeeds does so with a response to its own request, which tells what
      some execution of that very request answered. */
  lemma SucceedsWithOwnResponse(steps: seq<Step>, id: string, r: Response)
    requires Run(steps).Some? && id in Run(steps).value.calls && Holds(Run(steps).value.calls[id], r)
    ensures r.id == id && r.error == "" && Honest(Run(steps).value, r)
  {
    hide Run, Honest, Holds, PendingOk, AskedOk, ResolvedOk;
    RunInv(steps);
  }

  /** In every run each instance's pending map holds exactly its calls in flight. */
  lemma PendingExactly(steps: seq<Step>, instance: string, id: string)
    requires Run(steps).Some?
    ensures var s := Run(steps).value;
            (instance, id) in s.pending <==>
            id in s.calls && InFlight(s.calls[id]) && s.calls[id].request.instance == instance
  {
    hide Run, AskedOk, ResponsesOk, ResolvedOk;
    RunInv(steps);
  }

  /** The channel a handler sends to exists, and its one step leaves a response there, ends the
      handler and touches nothing else. */
  lemma SendFillsOwnChannel(steps: seq<Step>, h: Handler)
    requires Run(steps).Some? && h in Run(steps).value.handlers
    ensures var s := Run(steps).value;
            && Run(steps + [Send(h)]) == Some(AfterSend(s, h))
            && SentOnly(s, AfterSend(s, h), h)
  {
    hide AfterSend, SentOnly;
    assert (steps + [Send(h)])[..|steps|] == steps;
    HandlerHasChannel(steps, h);
    SendExactly(Run(steps).value, h);
  }

  ghost predicate SentOnly(s: System, t: System, h: Handler) {
    && t.handlers == s.handlers - multiset{h}
    && h.id in t.channels && t.channels[h.id].Some?
    && (forall id :: id in s.channels && id != h.id ==> id in t.channels && t.channels[id] == s.channels[id])
    && t == s.(handlers := t.handlers, channels := t.channels)
  }

  lemma SendExactly(s: System, h: Handler)
    requires h.id in s.channels
    ensures SentOnly(s, AfterSend(s, h), h)
  {
  }

  /** A handler only exists for a request that has a channel. */
  lemma {:induction false} HandlerHasChannel(steps: seq<Step>, h: Handler)
    requires Run(steps).Some? && h in Run(steps).value.handlers
    ensures h.id in Run(steps).value.channels
  {
    hide Apply, Enabled, PendingOk, AskedOk, ResponsesOk, ResolvedOk;
    if steps == [] {
      assert false;
    } else {
      var before, step := Run(steps[..|steps| - 1]).value, steps[|steps| - 1];
      RunInv(steps[..|steps| - 1]);
      HandlerFrom(before, step, h);
      PendingStep(before, step);
      if h in before.handlers { HandlerHasChannel(steps[..|steps| - 1], h); }
      ChannelsLast(before, step, h.id);
    }
  }

  /** A new handler has just found its request pending. */
  lemma HandlerFrom(s: System, step: Step, h: Handler)
    requires Enabled(s, step) && PendingOk(s) && h in Apply(s, step).handlers
    ensures h in s.handlers || h.id in s.channels
  {
    hide ResponseFor, Spills, Received, StoragePath;
    if step.DeliverResponse? && (step.item.instance, step.item.response.id) in s.pending {
      assert step.item.response.id in s.calls;
    }
  }

  lemma ChannelsLast(s: System, step: Step, id: string)
    requires Enabled(s, step) && PendingOk(s) && PendingOk(Apply(s, step)) && id in s.channels
    ensures id in Apply(s, step).channels
  {
    hide Apply;
    StepExtends(s, step);
  }

  /** A proxy call that ends has the bytes of an execution of its own request, whether they
      came inline or through storage. If the request ran once, they are that run's bytes. */
  lemma ProxyGetsExecutorsBytes(steps: seq<Step>, id: string, outcome: Outcome)
    requires Run(steps).Some? && Settled(Run(steps).value, id)
    requires var s := Run(steps).value;
             forall e :: e in s.executed && e.request.id == id ==> e.outcome == outcome
    ensures var s := Run(steps).value;
            && s.calls[id].phase.bytes.Success?
            && (outcome.Bytes? ==> s.calls[id].phase.bytes.value == outcome.data)
            && (outcome.Fault? ==> outcome.message == "" && s.calls[id].phase.bytes.value == [])
  {
    hide Run, AskedOk, ResponsesOk;
    RunInv(steps);
    var s := Run(steps).value;
    assert s.calls[id].request.id == id;
    var b := s.calls[id].phase.bytes.value;
    if Ran(s, id, Bytes(b)) {
      assert Exec(s.calls[id].request, Bytes(b)) in s.executed;
    } else {
      assert Exec(s.calls[id].request, Fault("")) in s.executed;
    }
  }

  // ---------------------------------------------------------------------------
  // Without faults the answer arrives
  // ---------------------------------------------------------------------------

  /** The call of r stands at this phase, is pending at its instance, and its channel holds
      this. */
  predicate At(s: System, r: Request, phase: Phase, channel: Option<Response>) {
    && r.id in s.calls && s.calls[r.id] == Call(r, phase) && (r.instance, r.id) in s.pending
    && r.id in s.channels && s.channels[r.id] == channel
  }

  lemma GoRegister(s: System, r: Request)
    requires r.id !in s.calls
    ensures At(AfterRegister(s, r), r, Registered, None) && AfterRegister(s, r).storage == s.storage
  {
  }

  lemma GoPublish(s: System, r: Request)
    requires At(s, r, Registered, None)
    ensures var t := AfterPublish(s, r.id, true);
            At(t, r, Waiting, None) && r in t.requests && t.storage == s.storage
  {
  }

  lemma GoDeliver(s: System, r: Request)
    requires At(s, r, Waiting, None)
    ensures var t := AfterDeliverRequest(s, r, true);
            At(t, r, Waiting, None) && r in t.running && t.storage == s.storage
  {
  }

  /** What an executor answers: bytes inline up to the threshold or where storing them failed,
      by reference otherwise, errors as text. */
  predicate Tells(response: Response, id: string, outcome: Outcome, stored: bool) {
    match outcome
    case Fault(message) => response == Response(id, message, [], "")
    case Bytes(data) =>
      if |data| > 4096 && stored then response == Response(id, "", [], "httpproxy/" + id)
      else response == Response(id, "", data, "")
  }

  lemma GoExecute(s: System, r: Request, outcome: Outcome, stored: bool, response: Response)
    requires At(s, r, Waiting, None) && Tells(response, r.id, outcome, stored)
    ensures var t := AfterExecute(s, r, outcome, stored);
            && At(t, r, Waiting, None) && Mail(r.instance, response) in t.ready
            && (response.path != "" ==> outcome.Bytes?)
            && t.storage == if response.path == "" then s.storage else s.storage[response.path := outcome.data]
  {
  }

  lemma GoRespond(s: System, r: Request, m: Mail)
    requires At(s, r, Waiting, None)
    ensures var t := AfterRespond(s, m, true); At(t, r, Waiting, None) && m in t.mail && t.storage == s.storage
  {
  }

  lemma GoReceive(s: System, r: Request, response: Response)
    requires At(s, r, Waiting, None) && response.id == r.id
    ensures var h := Handler(r.id, response);
            var t := AfterDeliverResponse(s, Mail(r.instance, response));
            && At(t, r, Waiting, None) && h in t.handlers && t.storage == s.storage
            && At(AfterSend(t, h), r, Waiting, Some(response)) && AfterSend(t, h).storage == s.storage
  {
  }

  /** A response without an error is a success, one with an error a failure with its text. */
  lemma GoLeave(s: System, r: Request, response: Response)
    requires At(s, r, Waiting, Some(response))
    ensures var result := if response.error == "" then Success(response) else Failure(Remote(response.error));
            var t := AfterReceive(s, r.id);
            && r.id in t.calls && t.calls[r.id] == Call(r, Leaving(result))
            && var u := AfterReturn(t, r.id);
               r.id in u.calls && u.calls[r.id] == Call(r, Returned(result)) && u.storage == s.storage
  {
  }

  lemma GoResolve(s: System, r: Request, response: Response, data: seq<byte>)
    requires r.id in s.calls && s.calls[r.id] == Call(r, Returned(Success(response)))
    requires if response.path == "" then response.data == data
             else response.path in s.storage && s.storage[response.path] == data
    ensures var t := AfterResolve(s, r.id);
            && r.id in t.calls && t.calls[r.id] == Call(r, Resolved(Success(data)))
            && t.storage == if response.path == "" then s.storage else s.storage - {response.path}
  {
  }

  lemma RunOne(steps: seq<Step>, step: Step)
    requires Run(steps).Some? && Enabled(Run(steps).value, step)
    ensures Run(steps + [step]) == Some(Apply(Run(steps).value, step))
  {
    hide Apply, Enabled;
    assert (steps + [step])[..|steps|] == steps;
  }

  /** The steps of a call on which nothing goes wrong, up to the return of the dispatch. */
  function FaultFree(r: Request, outcome: Outcome, stored: bool, response: Response): seq<Step> {
    [Register(r), Publish(r.id, true), DeliverRequest(r, true), Execute(r, outcome, stored),
     Respond(Mail(r.instance, response), true), DeliverResponse(Mail(r.instance, response)),
     Send(Handler(r.id, response)), Receive(r.id), Return(r.id)]
  }

  /** The request reaches an executor. */
  lemma FirstHalf(steps: seq<Step>, r: Request)
    requires Run(steps).Some? && r.id !in Run(steps).value.calls
    ensures var asked := steps + [Register(r)] + [Publish(r.id, true)] + [DeliverRequest(r, true)];
            && Run(asked).Some? && At(Run(asked).value, r, Waiting, None) && r in Run(asked).value.running
            && Run(asked).value.storage == Run(steps).value.storage
  {
    hide Run, AfterRegister, AfterPublish, AfterDeliverRequest;
    var s0 := steps + [Register(r)];
    var s1 := s0 + [Publish(r.id, true)];
    RunOne(steps, Register(r));
    GoRegister(Run(steps).value, r);
    RunOne(s0, Publish(r.id, true));
    GoPublish(Run(s0).value, r);
    RunOne(s1, DeliverRequest(r, true));
    GoDeliver(Run(s1).value, r);
  }

  /** Its answer reaches the channel of the call. */
  lemma SecondHalf(steps: seq<Step>, r: Request, outcome: Outcome, stored: bool, response: Response)
    requires Run(steps).Some? && At(Run(steps).value, r, Waiting, None) && r in Run(steps).value.running
    requires Tells(response, r.id, outcome, stored)
    ensures var m := Mail(r.instance, response);
            var told := steps + [Execute(r, outcome, stored)] + [Respond(m, true)] + [DeliverResponse(m)] +
                        [Send(Handler(r.id, response))];
            && Run(told).Some? && At(Run(told).value, r, Waiting, Some(response))
            && (response.path != "" ==> outcome.Bytes?)
            && var storage := Run(steps).value.storage;
               Run(told).value.storage ==
               if response.path == "" then storage else storage[response.path := outcome.data]
  {
    hide Run, AfterExecute, AfterRespond, AfterDeliverResponse, AfterSend;
    var m, h := Mail(r.instance, response), Handler(r.id, response);
    var s3 := steps + [Execute(r, outcome, stored)];
    var s4 := s3 + [Respond(m, true)];
    var s5 := s4 + [DeliverResponse(m)];
    RunOne(steps, Execute(r, outcome, stored));
    GoExecute(Run(steps).value, r, outcome, stored, response);
    RunOne(s3, Respond(m, true));
    GoRespond(Run(s3).value, r, m);
    RunOne(s4, DeliverResponse(m));
    GoReceive(Run(s4).value, r, response);
    RunOne(s5, Send(h));
  }

  /** From every reachable state, for every new request and every outcome: if nothing goes
      wrong the dispatch returns the executor's answer, as a success or as its error, and a
      proxy call then ends with the executor's bytes, inline or through storage, and leaves
      nothing of its own in storage. */
  lemma FaultFreeDelivers(steps: seq<Step>, r: Request, outcome: Outcome, stored: bool, response: Response)
    requires Run(steps).Some? && r.id !in Run(steps).value.calls && Tells(response, r.id, outcome, stored)
    ensures var done := steps + FaultFree(r, outcome, stored, response);
            && Run(done).Some?
            && r.id in Run(done).value.calls
            && var phase := Run(done).value.calls[r.id].phase;
            match outcome
            case Fault(message) =>
              phase == Returned(if message == "" then Success(response) else Failure(Remote(message)))
            case Bytes(data) =>
              && phase == Returned(Success(response))
              && Run(done + [Resolve(r.id)]).Some?
              && r.id in Run(done + [Resolve(r.id)]).value.calls
              && Run(done + [Resolve(r.id)]).value.calls[r.id].phase == Resolved(Success(data))
              && Run(done + [Resolve(r.id)]).value.storage ==
                 if |data| > 4096 && stored then Run(steps).value.storage - {"httpproxy/" + r.id}
                 else Run(steps).value.storage
  {
    hide Run, AfterReceive, AfterReturn, AfterResolve;
    var m := Mail(r.instance, response);
    var asked := steps + [Register(r)] + [Publish(r.id, true)] + [DeliverRequest(r, true)];
    var told := asked + [Execute(r, outcome, stored)] + [Respond(m, true)] + [DeliverResponse(m)] +
                [Send(Handler(r.id, response))];
    FirstHalf(steps, r);
    SecondHalf(asked, r, outcome, stored, response);
    GoLeave(Run(told).value, r, response);
    RunOne(told, Receive(r.id));
    RunOne(told + [Receive(r.id)], Return(r.id));
    var done := told + [Receive(r.id)] + [Return(r.id)];
    assert done == steps + FaultFree(r, outcome, stored, response);
    if outcome.Bytes? {
      RunOne(done, Resolve(r.id));
      GoResolve(Run(done).value, r, response, outcome.data);
    }
  }

  // ---------------------------------------------------------------------------
  // How calls end
  // ---------------------------------------------------------------------------

  lemma ChannelStays(s: System, step: Step, id: string, r: Response)
    requires PendingOk(s) && Enabled(s, step) && id in s.channels && s.channels[id] == Some(r) && step != Receive(id)
    ensures var t := Apply(s, step); id in t.channels && t.channels[id] == Some(r)
  {
    hide ResponseFor, Spills, Received, StoragePath;
  }

  /** The first response in a call's channel stays there until the call takes it; later ones are
      dropped. */
  lemma {:induction false} FirstResponseWins(steps: seq<Step>, more: seq<Step>, id: string, r: Response)
    requires Run(steps).Some? && Run(steps + more).Some? && Receive(id) !in more
    requires id in Run(steps).value.channels && Run(steps).value.channels[id] == Some(r)
    ensures var t := Run(steps + more).value; id in t.channels && t.channels[id] == Some(r)
  {
    hide Apply, Enabled, AskedOk, ResponsesOk, ResolvedOk, PendingOk;
    var all := steps + more;
    if more == [] {
      assert all == steps;
    } else {
      var rest, last := more[..|more| - 1], more[|more| - 1];
      assert more == rest + [last];
      assert all[..|all| - 1] == steps + rest;
      FirstResponseWins(steps, rest, id, r);
      RunInv(steps + rest);
      ChannelStays(Run(steps + rest).value, last, id, r);
    }
  }

  /** The call has come to this failure. */
  predicate FailedWith(s: System, id: string, why: Failed) {
    && id in s.calls
    && (s.calls[id].phase == Leaving(Failure(why)) || s.calls[id].phase == Returned(Failure(why)))
  }

  /** The step that makes a call fail without an answer. */
  predicate Fails(step: Step, id: string, why: Failed) {
    (step == Publish(id, false) && why == NotPublished) || step == GiveUp(id, why)
  }

  /** Where a moved call stands. */
  lemma OwnPhase(s: System, step: Step)
    requires Enabled(s, step) && Moves(step)
    ensures step.id in s.calls && step.id in Apply(s, step).calls
    ensures var phase := Apply(s, step).calls[step.id].phase;
            match step
            case Publish(_, ok) => phase == if ok then Waiting else Leaving(Failure(NotPublished))
            case Receive(id) => phase == Leaving(Received(s.channels[id].value))
            case GiveUp(_, why) => phase == Leaving(Failure(why))
            case Return(id) => phase == Returned(s.calls[id].phase.result)
            case Resolve(_) => phase.Resolved?
  {
    hide Received;
  }

  /** A call that a step does not name stays as it is. */
  lemma OthersStay(s: System, step: Step, id: string)
    requires Enabled(s, step) && (Moves(step) ==> step.id != id) && (step.Register? ==> step.request.id != id)
    ensures var t := Apply(s, step);
            (id in t.calls <==> id in s.calls) && (id in s.calls ==> t.calls[id] == s.calls[id])
  {
    hide AfterPublish, AfterDeliverRequest, AfterExecute, AfterRespond, AfterDeliverResponse, AfterSend,
      AfterReceive, AfterGiveUp, AfterReturn, AfterResolve;
    if Moves(step) {
      StepMoves(s, step);
    } else if AtRemote(step) {
      RemoteQuiet(s, step);
    } else if step.Send? {
      SendQuiet(s, step.handler);
    }
  }

  lemma FailsStep(s: System, step: Step, id: string, why: Failed)
    requires Enabled(s, step) && why in {NotPublished, Cancelled, TimedOut}
    ensures FailedWith(Apply(s, step), id, why) <==> FailedWith(s, id, why) || Fails(step, id, why)
  {
    hide Apply;
    if Moves(step) && step.id == id {
      OwnPhase(s, step);
    } else if step.Register? && step.request.id == id {
      NewCall(s, step.request);
    } else {
      OthersStay(s, step, id);
    }
  }

  lemma NewCall(s: System, r: Request)
    requires Enabled(s, Register(r))
    ensures r.id !in s.calls && Apply(s, Register(r)).calls == s.calls[r.id := Call(r, Registered)]
  {
  }

  ghost predicate SomeFails(steps: seq<Step>, id: string, why: Failed) {
    exists k :: 0 <= k < |steps| && Fails(steps[k], id, why)
  }

  lemma SomeFailsSnoc(steps: seq<Step>, step: Step, id: string, why: Failed)
    ensures SomeFails(steps + [step], id, why) <==> SomeFails(steps, id, why) || Fails(step, id, why)
  {
    hide Fails;
    if SomeFails(steps, id, why) {
      var k :| 0 <= k < |steps| && Fails(steps[k], id, why);
      assert (steps + [step])[k] == steps[k];
    }
    assert (steps + [step])[|steps|] == step;
  }

  /** A call fails without an answer exactly when its publishing failed, or it was cancelled or
      timed out while it waited, and the failure it reports names which. */
  lemma {:induction false} FailsExactly(steps: seq<Step>, id: string, why: Failed)
    requires Run(steps).Some? && why in {NotPublished, Cancelled, TimedOut}
    ensures FailedWith(Run(steps).value, id, why) <==> SomeFails(steps, id, why)
  {
    hide Apply, Enabled, Fails, SomeFails;
    if steps == [] {
      NothingFailed(id, why);
    } else {
      var init, step := steps[..|steps| - 1], steps[|steps| - 1];
      assert steps == init + [step];
      FailsExactly(init, id, why);
      FailsStep(Run(init).value, step, id, why);
      SomeFailsSnoc(init, step, id, why);
    }
  }

  lemma NothingFailed(id: string, why: Failed)
    ensures !SomeFails([], id, why)
  {
  }

  /** Every other failure of a dispatch is an error that an execution of its request gave. */
  lemma {:induction false} RemoteFailure(steps: seq<Step>, id: string, why: Failed)
    requires Run(steps).Some? && FailedWith(Run(steps).value, id, why) && why !in {NotPublished, Cancelled, TimedOut}
    ensures why.Remote? && why.message != "" && Ran(Run(steps).value, id, Fault(why.message))
  {
    hide Apply, Enabled, AskedOk, PendingOk, ResolvedOk, ResponsesOk, Extends;
    if steps == [] {
      assert false;
    } else {
      var init, step := steps[..|steps| - 1], steps[|steps| - 1];
      var s := Run(init).value;
      RunInv(init);
      StepExtends(s, step);
      FailureFrom(s, step, id, why);
      if FailedWith(s, id, why) { RemoteFailure(init, id, why); } else { ToldOf(s, id, s.channels[id].value); }
      RanStays(s, Run(steps).value, id, Fault(why.message));
    }
  }

  lemma FailureFrom(s: System, step: Step, id: string, why: Failed)
    requires Enabled(s, step) && FailedWith(Apply(s, step), id, why) && why !in {NotPublished, Cancelled, TimedOut}
    ensures || FailedWith(s, id, why)
            || (&& id in s.channels && s.channels[id].Some?
                && s.channels[id].value.error != "" && why == Remote(s.channels[id].value.error))
  {
    hide Apply;
    if Moves(step) && step.id == id {
      OwnPhase(s, step);
    } else if step.Register? && step.request.id == id {
      NewCall(s, step.request);
    } else {
      OthersStay(s, step, id);
    }
  }

  lemma ToldOf(s: System, id: string, r: Response)
    requires ResponsesOk(s) && id in s.channels && s.channels[id] == Some(r) && r.error != ""
    ensures Ran(s, id, Fault(r.error))
  {
  }

  // ---------------------------------------------------------------------------
  // One instance's pending map
  // ---------------------------------------------------------------------------

  /** The map of one instance, and the channels it holds. The ghost arguments tie each locked
      section to a step of the system. */
  class PendingRequests {
    const instance: string
    var channels: map<string, Option<Response>>

    ghost predicate Matches(s: System)
      reads this
    {
      && (forall id :: id in channels <==> (instance, id) in s.pending)
      && (forall id :: id in channels ==> id in s.channels && channels[id] == s.channels[id])
    }

    constructor (instance: string)
      ensures this.instance == instance && Matches(INIT)
    {
      this.instance, channels := instance, map[];
    }

    method Insert(request: Request, ghost s: System)
      requires Matches(s) && PendingOk(s) && request.id !in s.calls && request.instance == instance
      modifies this
      ensures Matches(AfterRegister(s, request))
    {
      channels := channels[request.id := None];
    }

    method Remove(id: string, ghost s: System)
      requires Matches(s) && id in s.calls && s.calls[id].phase.Leaving? && s.calls[id].request.instance == instance
      modifies this
      ensures Matches(AfterReturn(s, id))
    {
      channels := channels - {id};
    }

    /** Finds the channel of a response; without one the response is ignored. */
    method Lookup(response: Response, ghost s: System) returns (found: bool)
      requires Matches(s)
      ensures AfterDeliverResponse(s, Mail(instance, response)) ==
              if found then s.(handlers := s.handlers + multiset{Handler(response.id, response)}) else s
    {
      return response.id in channels;
    }

    /** The non-blocking send. */
    method Offer(h: Handler, ghost s: System)
      requires Matches(s) && h.id in channels
      modifies this
      ensures Matches(AfterSend(s, h))
    {
      if channels[h.id].None? { channels := channels[h.id := Some(h.response)]; }
    }
  }
}
