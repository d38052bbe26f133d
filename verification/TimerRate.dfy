/** How often a timer lets something through: counting what is at least a period apart. */
module TimerRate {
  import opened TimerProtocol
  import opened TimerRhythm
  import opened TimerGaps
  import TimerRuns

  lemma OnceMore(n: int, x: int)
    ensures (n + 1) * x == n * x + x
  {
  }

  lemma {:induction false} SpacedApart<P>(accepts: seq<Obs<P>>, period: int, i: nat, j: nat)
    requires forall k :: 0 <= k < |accepts| ==> accepts[k].Accepted?
    requires Spaced(accepts, period) && i <= j < |accepts|
    ensures (j - i) * period <= accepts[j].at - accepts[i].at
    decreases j
  {
    if i == j {
    } else {
      SpacedApart(accepts, period, i, j - 1);
      OnceMore(j - 1 - i, period);
      assert accepts[j - 1].at + period <= accepts[(j - 1) + 1].at;
    }
  }

  // How many of the observations were made between two times.
  function CountWithin<P>(accepts: seq<Obs<P>>, from: int, to: int): nat
    requires forall k :: 0 <= k < |accepts| ==> accepts[k].Accepted?
  {
    if accepts == [] then 0
    else
      CountWithin(accepts[..|accepts| - 1], from, to)
      + (if from <= accepts[|accepts| - 1].at <= to then 1 else 0)
  }

  lemma OneMore(count: int, gap: int, period: int)
    requires gap >= 1 && period > 0
    ensures count * period <= (count - 1) * period + gap * period
  {
    assert gap * period == (gap - 1) * period + period;
  }

  // A nonempty count leaves a latest acceptance, at least count - 1 periods after the beginning.
  lemma {:induction false} CountTakesTime<P>(accepts: seq<Obs<P>>, period: int, from: int, to: int) returns (last: nat)
    requires forall k :: 0 <= k < |accepts| ==> accepts[k].Accepted?
    requires Spaced(accepts, period) && period > 0 && CountWithin(accepts, from, to) > 0
    ensures last < |accepts| && accepts[last].at <= to
    ensures (CountWithin(accepts, from, to) - 1) * period <= accepts[last].at - from
    decreases |accepts|
  {
    var n := |accepts| - 1;
    var rest := accepts[..n];
    var count := CountWithin(rest, from, to);
    if count > 0 {
      last := CountTakesTime(rest, period, from, to);
      if from <= accepts[n].at <= to {
        SpacedApart(accepts, period, last, n);
        OneMore(count, n - last, period);
        last := n;
      }
    } else {
      last := n;
    }
  }

  lemma CountIsBounded<P>(accepts: seq<Obs<P>>, period: int, from: int, to: int)
    requires forall k :: 0 <= k < |accepts| ==> accepts[k].Accepted?
    requires Spaced(accepts, period) && period > 0 && from <= to
    ensures CountWithin(accepts, from, to) <= (to - from) / period + 1
  {
    var count := CountWithin(accepts, from, to);
    if count > 0 {
      var last := CountTakesTime(accepts, period, from, to);
      QuotientBound(count - 1, period, to - from);
    } else {
      QuotientBound(0, period, to - from);
    }
  }

  lemma MulCancel(a: int, b: int, p: int)
    requires p > 0 && a * p < b * p
    ensures a < b
  {
  }

  lemma QuotientBound(k: int, period: int, span: int)
    requires period > 0 && k * period <= span
    ensures k <= span / period
  {
    assert span < (span / period + 1) * period;
    MulCancel(k, span / period + 1, period);
  }

  // What succeeded

  // Every acceptance after that of id comes no earlier than its deadline.
  ghost predicate HoldsBack<P>(accepts: seq<Obs<P>>, id: nat)
    requires forall k :: 0 <= k < |accepts| ==> accepts[k].Accepted?
  {
    forall j :: id < j < |accepts| ==> accepts[id].deadline <= accepts[j].at
  }

  // A wait that has succeeded, delivered or not, was not aborted by a later start.
  ghost predicate SuccessInv<P>(s: State<P>) {
    && (forall id :: id in s.pending && s.pending[id].status == Settled(Success) ==> HoldsBack(Accepts(s), id))
    && (forall i {:trigger Deliveries(s, Success)[i]} :: 0 <= i < |Deliveries(s, Success)| ==>
          var id := Deliveries(s, Success)[i].id;
          && id < |Accepts(s)|
          && Accepts(s)[id].deadline <= s.clock
          && HoldsBack(Accepts(s), id))
  }

  lemma SuccessStart<P>(s: State<P>, seconds: int, payload: P, callback: Callback)
    requires WaitsInv(s) && SuccessInv(s)
    ensures SuccessInv(StartStep(s, seconds, payload, callback))
  {
    StartLog(s, seconds, payload, callback);
    var t := StartStep(s, seconds, payload, callback);
    assert Deliveries(t, Success) == Deliveries(s, Success);
    forall id | id in t.pending && t.pending[id].status == Settled(Success)
      ensures HoldsBack(Accepts(t), id)
    {
      assert Owns(s, id, s.pending[id]);
    }
  }

  lemma SuccessDeliver<P>(s: State<P>, id: nat)
    requires WaitsInv(s) && SuccessInv(s) && Enabled(s, Deliver(id))
    ensures SuccessInv(DeliverStep(s, id))
  {
    var t := DeliverStep(s, id);
    DeliverLog(s, id);
    assert Owns(s, id, s.pending[id]);
    assert Accepts(t) == Accepts(s);
    if s.pending[id].status.code != Success {
      assert Deliveries(t, Success) == Deliveries(s, Success);
    }
    forall i | 0 <= i < |Deliveries(t, Success)|
      ensures var d := Deliveries(t, Success)[i].id;
              d < |Accepts(t)| && Accepts(t)[d].deadline <= t.clock && HoldsBack(Accepts(t), d)
    {
      if i < |Deliveries(s, Success)| {
        assert Deliveries(t, Success)[i] == Deliveries(s, Success)[i];
      }
    }
  }

  lemma SuccessReturn<P>(s: State<P>)
    requires SuccessInv(s) && Enabled(s, Finish)
    ensures SuccessInv(ReturnStep(s))
  {
    ReturnLog(s);
    assert Accepts(ReturnStep(s)) == Accepts(s);
    assert Deliveries(ReturnStep(s), Success) == Deliveries(s, Success);
  }

  // Stopping and settling: only the newest wait is live, and nothing was accepted after it.
  lemma SuccessQuietly<P>(s: State<P>, t: State<P>)
    requires WaitsInv(s) && SuccessInv(s) && Accepts(t) == Accepts(s) && s.clock <= t.clock
    requires Deliveries(t, Success) == Deliveries(s, Success)
    requires forall id :: id in t.pending && t.pending[id].status == Settled(Success) ==>
                            id in s.pending && (s.pending[id].status == Settled(Success) || s.pending[id].status.Live?)
    ensures SuccessInv(t)
  {
    forall id | id in t.pending && t.pending[id].status == Settled(Success)
      ensures HoldsBack(Accepts(t), id)
    {
      assert s.pending[id].status.Live? ==> id == |Accepts(s)| - 1;
    }
    forall i | 0 <= i < |Deliveries(t, Success)|
      ensures var id := Deliveries(t, Success)[i].id;
              id < |Accepts(t)| && Accepts(t)[id].deadline <= t.clock && HoldsBack(Accepts(t), id)
    {
      assert Deliveries(t, Success)[i] == Deliveries(s, Success)[i];
    }
  }

  lemma SuccessStep<P>(s: State<P>, e: Event<P>)
    requires Inv(s) && SuccessInv(s) && Enabled(s, e)
    ensures SuccessInv(Step(s, e))
  {
    match e
    case Start(seconds, payload, callback) => SuccessStart(s, seconds, payload, callback);
    case Stop =>
      if s.running {
        StopLog(s);
        SuccessQuietly(s, Step(s, e));
      }
    case Deliver(id) => SuccessDeliver(s, id);
    case Finish =>
      SuccessReturn(s);
      if Restarts(s) {
        InvReturn(s);
        SuccessStart(ReturnStep(s), s.handler.wait.callback.seconds, s.handler.wait.payload, s.handler.wait.callback);
      }
    case _ => SuccessQuietly(s, Step(s, e));
  }

  lemma {:induction false} SuccessAfter<P>(s: State<P>, es: seq<Event<P>>)
    requires Inv(s) && SuccessInv(s) && Possible(s, es)
    ensures SuccessInv(After(s, es))
    decreases |es|
  {
    if es == [] {
    } else {
      SuccessStep(s, es[0]);
      InvStep(s, es[0]);
      SuccessAfter(Step(s, es[0]), es[1..]);
    }
  }

  // In every run, with stops, failures and deliveries in any order: once a wait has run its callback, every
  // start accepted after its own came no earlier than its deadline.
  lemma CallsHoldBack<P>(clock: int, es: seq<Event<P>>, n: nat, j: nat)
    requires Possible(Initial(clock), es) && n < |Calls(After(Initial(clock), es))|
    requires Calls(After(Initial(clock), es))[n].id < j < |Accepts(After(Initial(clock), es))|
    ensures var s := After(Initial(clock), es); Accepts(s)[Calls(s)[n].id].deadline <= Accepts(s)[j].at
  {
    InvInitial<P>(clock);
    InvAfter(Initial(clock), es);
    SuccessAfter(Initial(clock), es);
    var s := After(Initial(clock), es);
    assert Calls(s)[n].id == Deliveries(s, Success)[n].id;
  }

  // The acceptances with some of the ids, in order.
  function Kept<P>(accepts: seq<Obs<P>>, ids: set<nat>): (r: seq<Obs<P>>)
    requires forall k :: 0 <= k < |accepts| ==> accepts[k].Accepted?
    ensures forall k :: 0 <= k < |r| ==> r[k].Accepted?
  {
    if accepts == [] then []
    else
      var n := |accepts| - 1;
      var rest := Kept(accepts[..n], ids);
      if n in ids then rest + [accepts[n]] else rest
  }

  // Acceptances that hold each other back, all with the same period.
  ghost predicate Paced<P>(accepts: seq<Obs<P>>, ids: set<nat>, period: int)
    requires forall k :: 0 <= k < |accepts| ==> accepts[k].Accepted?
  {
    && (forall k :: 0 <= k < |accepts| ==> accepts[k].deadline == accepts[k].at + period)
    && (forall a: nat, b: nat :: a in ids && b in ids && a < b < |accepts| ==> accepts[a].deadline <= accepts[b].at)
  }

  ghost predicate IsAmong<P>(o: Obs<P>, accepts: seq<Obs<P>>, ids: set<nat>) {
    exists k: nat :: k in ids && k < |accepts| && accepts[k] == o
  }

  lemma {:induction false} KeptIsSpaced<P>(accepts: seq<Obs<P>>, ids: set<nat>, period: int)
    requires forall k :: 0 <= k < |accepts| ==> accepts[k].Accepted?
    requires Paced(accepts, ids, period)
    ensures Spaced(Kept(accepts, ids), period)
    ensures forall i :: 0 <= i < |Kept(accepts, ids)| ==> IsAmong(Kept(accepts, ids)[i], accepts, ids)
  {
    if accepts == [] {
    } else {
      var n := |accepts| - 1;
      var rest := Kept(accepts[..n], ids);
      KeptIsSpaced(accepts[..n], ids, period);
      forall i | 0 <= i < |rest|
        ensures IsAmong(rest[i], accepts, ids)
        ensures n in ids ==> rest[i].deadline <= accepts[n].at
        ensures rest[i].deadline == rest[i].at + period
      {
        assert IsAmong(rest[i], accepts[..n], ids);
        var k: nat :| k in ids && k < |accepts[..n]| && accepts[..n][k] == rest[i];
        assert accepts[k] == rest[i];
      }
      if n in ids {
        assert IsAmong(accepts[n], accepts, ids);
      }
    }
  }

  // The ids of some calls.
  function Ids<P>(calls: seq<Obs<P>>): set<nat>
    requires forall i :: 0 <= i < |calls| ==> calls[i].Called?
  {
    if calls == [] then {} else Ids(calls[..|calls| - 1]) + {calls[|calls| - 1].id}
  }

  lemma {:induction false} CallOfId<P>(calls: seq<Obs<P>>, id: nat) returns (i: nat)
    requires forall i :: 0 <= i < |calls| ==> calls[i].Called?
    requires id in Ids(calls)
    ensures i < |calls| && calls[i].id == id
  {
    var n := |calls| - 1;
    if calls[n].id == id {
      i := n;
    } else {
      i := CallOfId(calls[..n], id);
    }
  }

  lemma {:induction false} IdOfCall<P>(calls: seq<Obs<P>>, i: nat)
    requires forall i :: 0 <= i < |calls| ==> calls[i].Called?
    requires i < |calls|
    ensures calls[i].id in Ids(calls)
  {
    var n := |calls| - 1;
    if i == n {
    } else {
      IdOfCall(calls[..n], i);
    }
  }

  function CalledIds<P>(s: State<P>): set<nat> {
    Ids(Calls(s))
  }

  lemma {:induction false} IdsSize<P>(calls: seq<Obs<P>>)
    requires forall i :: 0 <= i < |calls| ==> calls[i].Called?
    requires forall i, j :: 0 <= i < j < |calls| ==> calls[i].id != calls[j].id
    ensures |Ids(calls)| == |calls|
  {
    if calls == [] {
    } else {
      var n := |calls| - 1;
      IdsSize(calls[..n]);
      if calls[n].id in Ids(calls[..n]) {
        var i := CallOfId(calls[..n], calls[n].id);
        assert false;
      }
    }
  }

  lemma {:induction false} KeptSize<P>(accepts: seq<Obs<P>>, ids: set<nat>)
    requires forall k :: 0 <= k < |accepts| ==> accepts[k].Accepted?
    requires forall id :: id in ids ==> id < |accepts|
    ensures |Kept(accepts, ids)| == |ids|
  {
    if accepts == [] {
      assert ids == {};
    } else {
      var n := |accepts| - 1;
      KeptSize(accepts[..n], ids - {n});
      SameKept(accepts[..n], ids, ids - {n});
    }
  }

  lemma {:induction false} SameKept<P>(accepts: seq<Obs<P>>, ids: set<nat>, others: set<nat>)
    requires forall k :: 0 <= k < |accepts| ==> accepts[k].Accepted?
    requires forall k: nat :: k < |accepts| ==> (k in ids <==> k in others)
    ensures Kept(accepts, ids) == Kept(accepts, others)
  {
    if accepts == [] {
    } else {
      SameKept(accepts[..|accepts| - 1], ids, others);
    }
  }

  // What is picked from a log is in the order of time.
  lemma {:induction false} PickedInTime<P>(log: seq<Obs<P>>, kind: Kind)
    requires InTime(log)
    ensures InTime(Pick(log, kind))
    ensures forall i :: 0 <= i < |Pick(log, kind)| ==> log != [] && Pick(log, kind)[i].at <= log[|log| - 1].at
  {
    if log == [] {
    } else {
      var rest := log[..|log| - 1];
      PickedInTime(rest, kind);
      assert rest != [] ==> rest[|rest| - 1].at <= log[|log| - 1].at;
    }
  }

  // The n + 1 first calls are of starts accepted n periods apart, and the last of those was due by then.
  lemma CallsTakeTime<P>(clock: int, es: seq<Event<P>>, period: int, callback: Callback, n: nat)
    requires Possible(Initial(clock), es) && MetBy(es, period, callback, true, true) && Regular(callback, period)
    requires n < |Calls(After(Initial(clock), es))|
    ensures var s := After(Initial(clock), es);
            Accepts(s) != [] && Accepts(s)[0].at + (n + 1) * period <= Calls(s)[n].at
  {
    var s := After(Initial(clock), es);
    CalledIsPaced(clock, es, period, callback);
    assert InTime(s.log) && WaitsInv(s) && CallsInv(s) by {
      InvInitial<P>(clock);
      InvAfter(Initial(clock), es);
      LoggedAfter(Initial(clock), es);
    }
    PickedInTime(s.log, KAccepted);
    PickedInTime(s.log, KCalled);
    forall i, j | 0 <= i < j < |Calls(s)|
      ensures Calls(s)[i].id != Calls(s)[j].id
    {
      TimerRuns.CallbackContract(clock, es, i);
    }
    SpanOfCalls(Accepts(s), Calls(s), period, n);
  }

  lemma SpanOfCalls<P>(accepts: seq<Obs<P>>, calls: seq<Obs<P>>, period: int, n: nat)
    requires forall k :: 0 <= k < |accepts| ==> accepts[k].Accepted?
    requires forall k :: 0 <= k < |calls| ==> calls[k].Called? && calls[k].id < |accepts|
    requires forall k :: 0 <= k < |calls| ==> accepts[calls[k].id].deadline <= calls[k].at
    requires forall i, j :: 0 <= i < j < |calls| ==> calls[i].id != calls[j].id
    requires InTime(accepts) && InTime(calls) && Paced(accepts, Ids(calls), period) && n < |calls|
    ensures accepts != [] && accepts[0].at + (n + 1) * period <= calls[n].at
  {
    var first := calls[..n + 1];
    FirstCallsPaced(accepts, calls, first, period);
    IdsSize(first);
    KeptSize(accepts, Ids(first));
    KeptSpan(accepts, Ids(first), period, n);
    DueByThen(accepts, calls, n, Kept(accepts, Ids(first))[n]);
    OnceMore(n, period);
  }

  lemma FirstCallsPaced<P>(accepts: seq<Obs<P>>, calls: seq<Obs<P>>, first: seq<Obs<P>>, period: int)
    requires forall k :: 0 <= k < |accepts| ==> accepts[k].Accepted?
    requires forall k :: 0 <= k < |calls| ==> calls[k].Called? && calls[k].id < |accepts|
    requires Paced(accepts, Ids(calls), period) && first <= calls
    ensures forall id :: id in Ids(first) ==> id < |accepts|
    ensures Paced(accepts, Ids(first), period)
  {
    forall id | id in Ids(first)
      ensures id < |accepts| && id in Ids(calls)
    {
      var i := CallOfId(first, id);
      IdOfCall(calls, i);
    }
  }

  lemma KeptSpan<P>(accepts: seq<Obs<P>>, ids: set<nat>, period: int, n: nat)
    requires forall k :: 0 <= k < |accepts| ==> accepts[k].Accepted?
    requires InTime(accepts) && Paced(accepts, ids, period) && |Kept(accepts, ids)| == n + 1
    ensures var last := Kept(accepts, ids)[n];
            && accepts != [] && accepts[0].at + n * period + period <= last.deadline
            && IsAmong(last, accepts, ids)
  {
    var kept := Kept(accepts, ids);
    KeptIsSpaced(accepts, ids, period);
    SpacedApart(kept, period, 0, n);
    assert IsAmong(kept[0], accepts, ids) && IsAmong(kept[n], accepts, ids);
  }

  // What is among the acceptances of the first calls was due by the last of these.
  lemma DueByThen<P>(accepts: seq<Obs<P>>, calls: seq<Obs<P>>, n: nat, o: Obs<P>)
    requires forall k :: 0 <= k < |accepts| ==> accepts[k].Accepted?
    requires forall k :: 0 <= k < |calls| ==> calls[k].Called? && calls[k].id < |accepts|
    requires forall k :: 0 <= k < |calls| ==> accepts[calls[k].id].deadline <= calls[k].at
    requires InTime(calls) && n < |calls| && IsAmong(o, accepts, Ids(calls[..n + 1]))
    ensures o.Accepted? && o.deadline <= calls[n].at
  {
    var last: nat :| last in Ids(calls[..n + 1]) && last < |accepts| && accepts[last] == o;
    var m := CallOfId(calls[..n + 1], last);
    assert calls[m].at <= calls[n].at;
  }

  lemma CalledIsPaced<P>(clock: int, es: seq<Event<P>>, period: int, callback: Callback)
    requires Possible(Initial(clock), es) && MetBy(es, period, callback, true, true) && Regular(callback, period)
    ensures var s := After(Initial(clock), es); Paced(Accepts(s), CalledIds(s), period)
  {
    var s := After(Initial(clock), es);
    CarriesAfter(Initial(clock), es, period, callback);
    AcceptsCarry(s, period, callback);
    forall a: nat, b: nat | a in CalledIds(s) && b in CalledIds(s) && a < b < |Accepts(s)|
      ensures Accepts(s)[a].deadline <= Accepts(s)[b].at
    {
      var n := CallOfId(Calls(s), a);
      CallsHoldBack(clock, es, n, b);
    }
  }

  // Each picked observation is one of the log.
  lemma {:induction false} PickedFrom<P>(log: seq<Obs<P>>, kind: Kind, i: nat) returns (k: nat)
    requires i < |Pick(log, kind)|
    ensures k < |log| && log[k] == Pick(log, kind)[i]
  {
    var n := |log| - 1;
    if i == |Pick(log[..n], kind)| {
      k := n;
    } else {
      k := PickedFrom(log[..n], kind, i);
    }
  }

  lemma AcceptsCarry<P>(s: State<P>, period: int, callback: Callback)
    requires Carries(s, period, callback)
    ensures forall i :: 0 <= i < |Accepts(s)| ==> Accepts(s)[i].deadline == Accepts(s)[i].at + period
  {
    forall i | 0 <= i < |Accepts(s)|
      ensures Accepts(s)[i].deadline == Accepts(s)[i].at + period
    {
      var k := PickedFrom(s.log, KAccepted, i);
    }
  }

  // In every run, the snapshots that were delivered were accepted at the rate of the period.
  lemma CalledRateIsBounded<P>(clock: int, es: seq<Event<P>>, period: int, callback: Callback, from: int, to: int)
    requires Possible(Initial(clock), es) && MetBy(es, period, callback, true, true) && Regular(callback, period)
    requires period > 0 && from <= to
    ensures var s := After(Initial(clock), es);
            CountWithin(Kept(Accepts(s), CalledIds(s)), from, to) <= (to - from) / period + 1
  {
    var s := After(Initial(clock), es);
    CalledIsPaced(clock, es, period, callback);
    KeptIsSpaced(Accepts(s), CalledIds(s), period);
    CountIsBounded(Kept(Accepts(s), CalledIds(s)), period, from, to);
  }
}
