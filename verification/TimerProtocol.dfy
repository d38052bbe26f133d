/**
 The asynchronous timer as a state machine over values.

 One State holds the flag the Timer class keeps, the queue the deadline_timer beneath it keeps, the
 handler that is half-way through on the strand, and a log of everything observable. A run is a
 sequence of events; calls from outside may fall anywhere, also between the two halves of a handler.

 What is assumed of Asio:
  - re-arming and cancelling abort exactly the waits that are still live;
  - a wait that has expired keeps its success code;
  - a settled wait is delivered once, in any order, and never while another handler is on the strand;
  - calls on one deadline_timer are serialised, so each call is one step.
 */
module TimerProtocol {

  datatype Code = Success | OperationAborted | OtherError

  // What the bound callback does when it runs: note the payload, or start the same timer again.
  datatype Callback = Quiet | Restart(seconds: int)

  datatype Status = Live | Settled(code: Code)

  datatype Wait<P> = Wait(deadline: int, payload: P, callback: Callback, status: Status)

  // The handler on the strand: none, or one that has cleared the flag and not yet run its callback.
  datatype Handler<P> = NoHandler | Handling(id: nat, wait: Wait<P>)

  datatype Obs<P> =
    | Accepted(id: nat, payload: P, at: int, deadline: int)
    | Refused(payload: P, at: int)
    | Stopped(mark: nat, at: int)
    | Delivered(id: nat, code: Code, at: int)
    | Called(id: nat, payload: P, at: int)
    | ErrorLogged(id: nat, at: int)

  datatype Kind = KAccepted | KRefused | KStopped | KDelivered(code: Code) | KCalled | KErrorLogged

  // Waits are numbered in the order in which their start was accepted.
  datatype State<P> = State(
    running: bool,
    clock: int,
    nextId: nat,
    pending: map<nat, Wait<P>>,
    handler: Handler<P>,
    log: seq<Obs<P>>)

  datatype Event<P> =
    | Start(seconds: int, payload: P, callback: Callback)
    | Stop
    | Tick(to: int)
    | Expire(id: nat)
    | Fail(id: nat)
    | Deliver(id: nat)
    | Finish

  function Initial<P>(clock: int): State<P> {
    State(false, clock, 0, map[], NoHandler, [])
  }

  function AbortLive<P>(pending: map<nat, Wait<P>>): (r: map<nat, Wait<P>>)
    ensures r.Keys == pending.Keys
    ensures forall id :: id in pending ==> !r[id].status.Live?
  {
    map id | id in pending ::
      if pending[id].status.Live? then pending[id].(status := Settled(OperationAborted)) else pending[id]
  }

  function StartStep<P>(s: State<P>, seconds: int, payload: P, callback: Callback): State<P> {
    if s.running then
      s.(log := s.log + [Refused(payload, s.clock)])
    else
      s.(running := true,
         nextId := s.nextId + 1,
         pending := AbortLive(s.pending)[s.nextId := Wait(s.clock + seconds, payload, callback, Live)],
         log := s.log + [Accepted(s.nextId, payload, s.clock, s.clock + seconds)])
  }

  function StopStep<P>(s: State<P>): State<P> {
    if s.running then
      s.(running := false, pending := AbortLive(s.pending), log := s.log + [Stopped(s.nextId, s.clock)])
    else
      s
  }

  function SettleStep<P>(s: State<P>, id: nat, code: Code): State<P>
    requires id in s.pending
  {
    s.(pending := s.pending[id := s.pending[id].(status := Settled(code))])
  }

  // First half of a handler: the flag is cleared, whatever the code is.
  function DeliverStep<P>(s: State<P>, id: nat): State<P>
    requires id in s.pending && s.pending[id].status.Settled?
  {
    s.(running := false,
       pending := s.pending - {id},
       handler := Handling(id, s.pending[id]),
       log := s.log + [Delivered(id, s.pending[id].status.code, s.clock)])
  }

  // Second half, up to the point where the callback has run but has not yet started anything.
  function ReturnStep<P>(s: State<P>): State<P>
    requires s.handler.Handling? && s.handler.wait.status.Settled?
  {
    match s.handler.wait.status.code
    case Success =>
      s.(handler := NoHandler, log := s.log + [Called(s.handler.id, s.handler.wait.payload, s.clock)])
    case OperationAborted =>
      s.(handler := NoHandler)
    case OtherError =>
      s.(handler := NoHandler, log := s.log + [ErrorLogged(s.handler.id, s.clock)])
  }

  predicate Restarts<P>(s: State<P>) {
    s.handler.Handling? && s.handler.wait.status == Settled(Success) && s.handler.wait.callback.Restart?
  }

  function FinishStep<P>(s: State<P>): State<P>
    requires s.handler.Handling? && s.handler.wait.status.Settled?
  {
    if Restarts(s) then
      StartStep(ReturnStep(s), s.handler.wait.callback.seconds, s.handler.wait.payload, s.handler.wait.callback)
    else
      ReturnStep(s)
  }

  predicate Enabled<P>(s: State<P>, e: Event<P>) {
    match e
    case Start(_, _, _) => true
    case Stop => true
    case Tick(to) => s.clock <= to
    case Expire(id) => id in s.pending && s.pending[id].status.Live? && s.pending[id].deadline <= s.clock
    case Fail(id) => id in s.pending && s.pending[id].status.Live?
    case Deliver(id) => id in s.pending && s.pending[id].status.Settled? && s.handler.NoHandler?
    case Finish => s.handler.Handling? && s.handler.wait.status.Settled?
  }

  function Step<P>(s: State<P>, e: Event<P>): State<P>
    requires Enabled(s, e)
  {
    match e
    case Start(seconds, payload, callback) => StartStep(s, seconds, payload, callback)
    case Stop => StopStep(s)
    case Tick(to) => s.(clock := to)
    case Expire(id) => SettleStep(s, id, Success)
    case Fail(id) => SettleStep(s, id, OtherError)
    case Deliver(id) => DeliverStep(s, id)
    case Finish => FinishStep(s)
  }

  predicate Possible<P>(s: State<P>, es: seq<Event<P>>)
    decreases |es|
  {
    es == [] || (Enabled(s, es[0]) && Possible(Step(s, es[0]), es[1..]))
  }

  function After<P>(s: State<P>, es: seq<Event<P>>): State<P>
    requires Possible(s, es)
    decreases |es|
  {
    if es == [] then s else After(Step(s, es[0]), es[1..])
  }

  // Reading the log

  function KindOf<P>(o: Obs<P>): Kind {
    match o
    case Accepted(_, _, _, _) => KAccepted
    case Refused(_, _) => KRefused
    case Stopped(_, _) => KStopped
    case Delivered(_, code, _) => KDelivered(code)
    case Called(_, _, _) => KCalled
    case ErrorLogged(_, _) => KErrorLogged
  }

  // The observations of one kind, in order.
  function Pick<P>(log: seq<Obs<P>>, k: Kind): (r: seq<Obs<P>>)
    ensures forall i :: 0 <= i < |r| ==> KindOf(r[i]) == k
  {
    if log == [] then []
    else
      var rest := Pick(log[..|log| - 1], k);
      if KindOf(log[|log| - 1]) == k then rest + [log[|log| - 1]] else rest
  }

  lemma PickAppend<P>(log: seq<Obs<P>>, o: Obs<P>)
    ensures forall k :: Pick(log + [o], k) == if KindOf(o) == k then Pick(log, k) + [o] else Pick(log, k)
  {
    assert (log + [o])[..|log|] == log;
  }

  function Accepts<P>(s: State<P>): (r: seq<Obs<P>>)
    ensures forall i :: 0 <= i < |r| ==> r[i].Accepted?
  {
    Pick(s.log, KAccepted)
  }

  function Deliveries<P>(s: State<P>, code: Code): (r: seq<Obs<P>>)
    ensures forall i :: 0 <= i < |r| ==> r[i].Delivered? && r[i].code == code
  {
    Pick(s.log, KDelivered(code))
  }

  function Calls<P>(s: State<P>): (r: seq<Obs<P>>)
    ensures forall i :: 0 <= i < |r| ==> r[i].Called?
  {
    Pick(s.log, KCalled)
  }

  // The number of starts accepted before the latest stop that took effect.
  function Mark<P>(s: State<P>): nat {
    var stops := Pick(s.log, KStopped);
    if stops == [] then 0 else stops[|stops| - 1].mark
  }

  // The last half of a handler logs at most one observation: a call or an error.
  lemma ReturnLog<P>(s: State<P>)
    requires Enabled(s, Finish)
    ensures forall k :: k != KCalled && k != KErrorLogged ==> Pick(ReturnStep(s).log, k) == Pick(s.log, k)
    ensures Calls(ReturnStep(s)) ==
            if s.handler.wait.status.code == Success
            then Calls(s) + [Called(s.handler.id, s.handler.wait.payload, s.clock)]
            else Calls(s)
  {
    match s.handler.wait.status.code
    case Success => PickAppend(s.log, Called(s.handler.id, s.handler.wait.payload, s.clock));
    case OperationAborted =>
    case OtherError => PickAppend(s.log, ErrorLogged(s.handler.id, s.clock));
  }

  lemma StartLog<P>(s: State<P>, seconds: int, payload: P, callback: Callback)
    ensures forall k :: k != KAccepted && k != KRefused ==>
              Pick(StartStep(s, seconds, payload, callback).log, k) == Pick(s.log, k)
    ensures Accepts(StartStep(s, seconds, payload, callback)) ==
            if s.running then Accepts(s)
            else Accepts(s) + [Accepted(s.nextId, payload, s.clock, s.clock + seconds)]
  {
    if s.running {
      PickAppend(s.log, Refused(payload, s.clock));
    } else {
      PickAppend(s.log, Accepted(s.nextId, payload, s.clock, s.clock + seconds));
    }
  }

  lemma StopLog<P>(s: State<P>)
    requires s.running
    ensures forall k :: k != KStopped ==> Pick(StopStep(s).log, k) == Pick(s.log, k)
    ensures Mark(StopStep(s)) == s.nextId
  {
    PickAppend(s.log, Stopped(s.nextId, s.clock));
  }

  lemma DeliverLog<P>(s: State<P>, id: nat)
    requires id in s.pending && s.pending[id].status.Settled?
    ensures forall k :: k != KDelivered(s.pending[id].status.code) ==> Pick(DeliverStep(s, id).log, k) == Pick(s.log, k)
    ensures var code := s.pending[id].status.code;
            Deliveries(DeliverStep(s, id), code) == Deliveries(s, code) + [Delivered(id, code, s.clock)]
  {
    PickAppend(s.log, Delivered(id, s.pending[id].status.code, s.clock));
  }

  lemma FinishLog<P>(s: State<P>)
    requires Enabled(s, Finish)
    ensures forall k :: k != KAccepted && k != KRefused ==> Pick(Step(s, Finish).log, k) == Pick(ReturnStep(s).log, k)
  {
    if Restarts(s) {
      StartLog(ReturnStep(s), s.handler.wait.callback.seconds, s.handler.wait.payload, s.handler.wait.callback);
    }
  }

  // Only the end of a handler can log a call.
  lemma CallsLogged<P>(s: State<P>, e: Event<P>)
    requires Enabled(s, e)
    ensures Calls(Step(s, e)) ==
            if e.Finish? && s.handler.wait.status.code == Success
            then Calls(s) + [Called(s.handler.id, s.handler.wait.payload, s.clock)]
            else Calls(s)
  {
    match e
    case Start(seconds, payload, callback) => StartLog(s, seconds, payload, callback);
    case Stop =>
      if s.running {
        StopLog(s);
      }
    case Deliver(id) => DeliverLog(s, id);
    case Finish =>
      ReturnLog(s);
      FinishLog(s);
    case _ =>
  }

  lemma SameMark<P>(s: State<P>, t: State<P>)
    requires Pick(t.log, KStopped) == Pick(s.log, KStopped)
    ensures Mark(t) == Mark(s)
  {
  }

  // Only an effective stop moves the mark.
  lemma MarkLogged<P>(s: State<P>, e: Event<P>)
    requires Enabled(s, e)
    ensures Mark(Step(s, e)) == if e.Stop? && s.running then s.nextId else Mark(s)
  {
    match e
    case Start(seconds, payload, callback) =>
      StartLog(s, seconds, payload, callback);
      SameMark(s, Step(s, e));
    case Stop =>
      if s.running {
        StopLog(s);
      }
    case Deliver(id) =>
      DeliverLog(s, id);
      SameMark(s, Step(s, e));
    case Finish =>
      ReturnLog(s);
      FinishLog(s);
      SameMark(s, Step(s, e));
    case _ =>
  }

  // Prefixing a run with one event.
  lemma Prefixed<P>(s: State<P>, e: Event<P>, es: seq<Event<P>>)
    requires Enabled(s, e) && Possible(Step(s, e), es)
    ensures Possible(s, [e] + es) && After(s, [e] + es) == After(Step(s, e), es)
  {
    assert ([e] + es)[1..] == es;
  }

  lemma {:induction false} RunsCompose<P>(s: State<P>, es: seq<Event<P>>, rest: seq<Event<P>>)
    ensures Possible(s, es + rest) <==> Possible(s, es) && Possible(After(s, es), rest)
    ensures Possible(s, es + rest) ==> After(s, es + rest) == After(After(s, es), rest)
    decreases |es|
  {
    if es == [] {
      assert es + rest == rest;
    } else {
      assert (es + rest)[1..] == es[1..] + rest;
      if Enabled(s, es[0]) {
        RunsCompose(Step(s, es[0]), es[1..], rest);
      }
    }
  }

  // Runs of a few given events.
  lemma RunOfTwo<P>(s: State<P>, a: Event<P>, b: Event<P>)
    requires Enabled(s, a) && Enabled(Step(s, a), b)
    ensures Possible(s, [a, b]) && After(s, [a, b]) == Step(Step(s, a), b)
  {
    var one: seq<Event<P>> := [b];
    Prefixed(Step(s, a), b, []);
    assert [b] + [] == one;
    Prefixed(s, a, one);
    assert [a] + one == [a, b];
  }

  lemma RunOfThree<P>(s: State<P>, a: Event<P>, b: Event<P>, c: Event<P>)
    requires Enabled(s, a) && Enabled(Step(s, a), b) && Enabled(Step(Step(s, a), b), c)
    ensures Possible(s, [a, b, c]) && After(s, [a, b, c]) == Step(Step(Step(s, a), b), c)
  {
    RunOfTwo(Step(s, a), b, c);
    Prefixed(s, a, [b, c]);
    assert [a] + [b, c] == [a, b, c];
  }

  lemma RunOfFour<P>(s: State<P>, a: Event<P>, b: Event<P>, c: Event<P>, d: Event<P>)
    requires Enabled(s, a) && Enabled(Step(s, a), b) && Enabled(Step(Step(s, a), b), c)
    requires Enabled(Step(Step(Step(s, a), b), c), d)
    ensures Possible(s, [a, b, c, d]) && After(s, [a, b, c, d]) == Step(Step(Step(Step(s, a), b), c), d)
  {
    RunOfThree(Step(s, a), b, c, d);
    Prefixed(s, a, [b, c, d]);
    assert [a] + [b, c, d] == [a, b, c, d];
  }

  // The invariants of every run

  // A wait carries the payload and the deadline its start was accepted with, and a success code
  // only once the deadline has passed.
  ghost predicate Owns<P>(s: State<P>, id: nat, w: Wait<P>) {
    && id < |Accepts(s)|
    && w.payload == Accepts(s)[id].payload
    && w.deadline == Accepts(s)[id].deadline
    && (w.status == Settled(Success) ==> w.deadline <= s.clock)
  }

  ghost predicate WaitsInv<P>(s: State<P>) {
    && |Accepts(s)| == s.nextId
    && (forall i {:trigger Accepts(s)[i]} :: 0 <= i < |Accepts(s)| ==>
          Accepts(s)[i].id == i && Accepts(s)[i].at <= s.clock)
    && (forall id :: id in s.pending ==> Owns(s, id, s.pending[id]))
    && (forall id :: id in s.pending && s.pending[id].status.Live? ==> id == s.nextId - 1)
    && (s.running ==> s.nextId > 0 && s.nextId - 1 in s.pending
                      && s.pending[s.nextId - 1].status != Settled(OperationAborted))
    && (s.handler.Handling? ==>
          && s.handler.wait.status.Settled?
          && s.handler.id !in s.pending
          && Owns(s, s.handler.id, s.handler.wait))
  }

  // No id occurs in both sequences, or twice when they are one and the same.
  ghost predicate Apart<P>(xs: seq<Obs<P>>, ys: seq<Obs<P>>, same: bool)
    requires forall i :: 0 <= i < |xs| ==> xs[i].Delivered?
    requires forall j :: 0 <= j < |ys| ==> ys[j].Delivered?
  {
    forall i, j :: 0 <= i < |xs| && 0 <= j < |ys| && !(same && i == j) ==> xs[i].id != ys[j].id
  }

  ghost predicate DeliveriesInv<P>(s: State<P>) {
    && (forall c, i :: 0 <= i < |Deliveries(s, c)| ==>
          Deliveries(s, c)[i].id < s.nextId && Deliveries(s, c)[i].id !in s.pending)
    && (forall c, d :: Apart(Deliveries(s, c), Deliveries(s, d), c == d))
    && s.nextId == |Deliveries(s, Success)| + |Deliveries(s, OperationAborted)|
       + |Deliveries(s, OtherError)| + |s.pending|
  }

  // The callbacks that have run are the successful deliveries, in order, less the one on the strand.
  ghost predicate CallsInv<P>(s: State<P>) {
    var mid := s.handler.Handling? && s.handler.wait.status == Settled(Success);
    && |Deliveries(s, Success)| == |Calls(s)| + (if mid then 1 else 0)
    && (mid ==> Deliveries(s, Success)[|Calls(s)|].id == s.handler.id)
    && (forall i {:trigger Calls(s)[i]} :: 0 <= i < |Calls(s)| ==>
          && Calls(s)[i].id == Deliveries(s, Success)[i].id
          && Calls(s)[i].id < |Accepts(s)|
          && Calls(s)[i].payload == Accepts(s)[Calls(s)[i].id].payload
          && Accepts(s)[Calls(s)[i].id].deadline <= Calls(s)[i].at <= s.clock)
  }

  ghost predicate Inv<P>(s: State<P>) {
    WaitsInv(s) && DeliveriesInv(s) && CallsInv(s)
  }

  lemma InvInitial<P>(clock: int)
    ensures Inv<P>(Initial(clock))
  {
  }

  lemma WaitsStart<P>(s: State<P>, seconds: int, payload: P, callback: Callback)
    requires WaitsInv(s)
    ensures WaitsInv(StartStep(s, seconds, payload, callback))
  {
    StartLog(s, seconds, payload, callback);
  }

  // Observations of other kinds leave the deliveries as they are.
  lemma SameDeliveries<P>(s: State<P>, t: State<P>)
    requires DeliveriesInv(s)
    requires forall c :: Deliveries(t, c) == Deliveries(s, c)
    requires s.nextId <= t.nextId && t.nextId - s.nextId == |t.pending| - |s.pending|
    requires forall id :: id in t.pending ==> id in s.pending || s.nextId <= id
    ensures DeliveriesInv(t)
  {
  }

  lemma DeliveriesStart<P>(s: State<P>, seconds: int, payload: P, callback: Callback)
    requires DeliveriesInv(s) && (forall id :: id in s.pending ==> id < s.nextId)
    ensures DeliveriesInv(StartStep(s, seconds, payload, callback))
  {
    var t := StartStep(s, seconds, payload, callback);
    StartLog(s, seconds, payload, callback);
    if !s.running {
      assert t.pending.Keys == s.pending.Keys + {s.nextId};
      assert |t.pending.Keys| == |s.pending.Keys| + 1;
    }
    SameDeliveries(s, t);
  }

  lemma CallsStart<P>(s: State<P>, seconds: int, payload: P, callback: Callback)
    requires CallsInv(s)
    ensures CallsInv(StartStep(s, seconds, payload, callback))
  {
    StartLog(s, seconds, payload, callback);
  }

  lemma InvStart<P>(s: State<P>, seconds: int, payload: P, callback: Callback)
    requires Inv(s)
    ensures Inv(StartStep(s, seconds, payload, callback))
  {
    WaitsStart(s, seconds, payload, callback);
    DeliveriesStart(s, seconds, payload, callback);
    CallsStart(s, seconds, payload, callback);
  }

  lemma WaitsStop<P>(s: State<P>)
    requires WaitsInv(s) && s.running && Accepts(StopStep(s)) == Accepts(s)
    ensures WaitsInv(StopStep(s))
  {
  }

  lemma InvStop<P>(s: State<P>)
    requires Inv(s)
    ensures Inv(StopStep(s))
  {
    if s.running {
      StopLog(s);
      WaitsStop(s);
      assert |StopStep(s).pending.Keys| == |s.pending.Keys|;
      SameDeliveries(s, StopStep(s));
    }
  }

  lemma WaitsSettle<P>(s: State<P>, id: nat, code: Code)
    requires WaitsInv(s) && id in s.pending && s.pending[id].status.Live? && code != OperationAborted
    requires code == Success ==> s.pending[id].deadline <= s.clock
    ensures WaitsInv(SettleStep(s, id, code))
  {
  }

  lemma InvSettle<P>(s: State<P>, id: nat, code: Code)
    requires Inv(s) && id in s.pending && s.pending[id].status.Live? && code != OperationAborted
    requires code == Success ==> s.pending[id].deadline <= s.clock
    ensures Inv(SettleStep(s, id, code))
  {
    var t := SettleStep(s, id, code);
    assert t.pending.Keys == s.pending.Keys;
    assert |t.pending.Keys| == |s.pending.Keys|;
    WaitsSettle(s, id, code);
    SameDeliveries(s, t);
  }

  lemma WaitsDeliver<P>(s: State<P>, id: nat)
    requires WaitsInv(s) && Enabled(s, Deliver(id))
    ensures WaitsInv(DeliverStep(s, id))
  {
    DeliverLog(s, id);
    assert Accepts(DeliverStep(s, id)) == Accepts(s);
  }

  // One delivery more, of an id that neither sequence has, in one of them or in the one they are.
  lemma StillApart<P>(xs: seq<Obs<P>>, ys: seq<Obs<P>>, xs': seq<Obs<P>>, ys': seq<Obs<P>>, same: bool, o: Obs<P>)
    requires (forall i :: 0 <= i < |xs| ==> xs[i].Delivered?) && (forall j :: 0 <= j < |ys| ==> ys[j].Delivered?)
    requires o.Delivered? && Apart(xs, ys, same)
    requires (forall i :: 0 <= i < |xs| ==> xs[i].id != o.id) && (forall j :: 0 <= j < |ys| ==> ys[j].id != o.id)
    requires if same then xs == ys && xs' == ys' else xs' == xs || ys' == ys
    requires (xs' == xs || xs' == xs + [o]) && (ys' == ys || ys' == ys + [o])
    ensures Apart(xs', ys', same)
  {
  }

  lemma DeliveriesApart<P>(s: State<P>, id: nat, c: Code, d: Code)
    requires DeliveriesInv(s) && Enabled(s, Deliver(id)) && id < s.nextId
    ensures Apart(Deliveries(DeliverStep(s, id), c), Deliveries(DeliverStep(s, id), d), c == d)
  {
    var t := DeliverStep(s, id);
    DeliverLog(s, id);
    StillApart(Deliveries(s, c), Deliveries(s, d), Deliveries(t, c), Deliveries(t, d), c == d,
               Delivered(id, s.pending[id].status.code, s.clock));
  }

  lemma DeliveriesGone<P>(s: State<P>, id: nat, c: Code, i: nat)
    requires DeliveriesInv(s) && Enabled(s, Deliver(id)) && id < s.nextId
    requires i < |Deliveries(DeliverStep(s, id), c)|
    ensures var t := DeliverStep(s, id); Deliveries(t, c)[i].id < t.nextId && Deliveries(t, c)[i].id !in t.pending
  {
    DeliverLog(s, id);
  }

  lemma DeliveriesCount<P>(s: State<P>, id: nat)
    requires Enabled(s, Deliver(id))
    ensures var t := DeliverStep(s, id);
            |Deliveries(t, Success)| + |Deliveries(t, OperationAborted)| + |Deliveries(t, OtherError)| + |t.pending|
            == |Deliveries(s, Success)| + |Deliveries(s, OperationAborted)| + |Deliveries(s, OtherError)| + |s.pending|
  {
    var t := DeliverStep(s, id);
    DeliverLog(s, id);
    assert t.pending.Keys == s.pending.Keys - {id};
    assert |t.pending.Keys| == |s.pending.Keys| - 1;
    match s.pending[id].status.code
    case Success =>
    case OperationAborted =>
    case OtherError =>
  }

  lemma DeliveriesDeliver<P>(s: State<P>, id: nat)
    requires DeliveriesInv(s) && Enabled(s, Deliver(id)) && id < s.nextId
    ensures DeliveriesInv(DeliverStep(s, id))
  {
    var t := DeliverStep(s, id);
    forall c, d
      ensures Apart(Deliveries(t, c), Deliveries(t, d), c == d)
    {
      DeliveriesApart(s, id, c, d);
    }
    forall c, i | 0 <= i < |Deliveries(t, c)|
      ensures Deliveries(t, c)[i].id < t.nextId && Deliveries(t, c)[i].id !in t.pending
    {
      DeliveriesGone(s, id, c, i);
    }
    DeliveriesCount(s, id);
  }

  lemma CallsDeliver<P>(s: State<P>, id: nat)
    requires CallsInv(s) && Enabled(s, Deliver(id))
    ensures CallsInv(DeliverStep(s, id))
  {
    var t := DeliverStep(s, id);
    DeliverLog(s, id);
    assert Accepts(t) == Accepts(s) && Calls(t) == Calls(s);
    assert Deliveries(s, Success) <= Deliveries(t, Success);
  }

  lemma InvDeliver<P>(s: State<P>, id: nat)
    requires Inv(s) && Enabled(s, Deliver(id))
    ensures Inv(DeliverStep(s, id))
  {
    WaitsDeliver(s, id);
    DeliveriesDeliver(s, id);
    CallsDeliver(s, id);
  }

  lemma CallsReturn<P>(s: State<P>)
    requires CallsInv(s) && Enabled(s, Finish)
    requires Owns(s, s.handler.id, s.handler.wait)
    ensures CallsInv(ReturnStep(s))
  {
    ReturnLog(s);
  }

  lemma WaitsReturn<P>(s: State<P>)
    requires WaitsInv(s) && Enabled(s, Finish)
    ensures WaitsInv(ReturnStep(s))
  {
    ReturnLog(s);
    assert ReturnStep(s).pending == s.pending;
  }

  lemma DeliveriesReturn<P>(s: State<P>)
    requires DeliveriesInv(s) && Enabled(s, Finish)
    ensures DeliveriesInv(ReturnStep(s))
  {
    ReturnLog(s);
    assert ReturnStep(s).pending == s.pending;
    SameDeliveries(s, ReturnStep(s));
  }

  lemma InvReturn<P>(s: State<P>)
    requires Inv(s) && Enabled(s, Finish)
    ensures Inv(ReturnStep(s))
  {
    WaitsReturn(s);
    DeliveriesReturn(s);
    CallsReturn(s);
  }

  lemma InvTick<P>(s: State<P>, to: int)
    requires Inv(s) && s.clock <= to
    ensures Inv(s.(clock := to))
  {
    assert forall c :: Deliveries(s.(clock := to), c) == Deliveries(s, c);
  }

  lemma InvStep<P>(s: State<P>, e: Event<P>)
    requires Inv(s) && Enabled(s, e)
    ensures Inv(Step(s, e))
  {
    match e
    case Start(seconds, payload, callback) => InvStart(s, seconds, payload, callback);
    case Stop => InvStop(s);
    case Tick(to) => InvTick(s, to);
    case Expire(id) => InvSettle(s, id, Success);
    case Fail(id) => InvSettle(s, id, OtherError);
    case Deliver(id) => InvDeliver(s, id);
    case Finish =>
      InvReturn(s);
      if Restarts(s) {
        InvStart(ReturnStep(s), s.handler.wait.callback.seconds, s.handler.wait.payload, s.handler.wait.callback);
      }
  }

  lemma {:induction false} InvAfter<P>(s: State<P>, es: seq<Event<P>>)
    requires Inv(s) && Possible(s, es)
    ensures Inv(After(s, es))
    decreases |es|
  {
    if es == [] {
    } else {
      InvStep(s, es[0]);
      InvAfter(Step(s, es[0]), es[1..]);
    }
  }
}
