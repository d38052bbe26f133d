/** The rate of acceptances in any run: each stop, failed or stale delivery can add one. */
module TimerDisturbances {
  import opened TimerProtocol
  import opened TimerRhythm
  import opened TimerGaps
  import opened TimerRate

  function AcceptsIn<P>(log: seq<Obs<P>>): (r: seq<Obs<P>>)
    ensures forall i :: 0 <= i < |r| ==> r[i].Accepted?
  {
    Pick(log, KAccepted)
  }

  // A stop that took effect, or a delivery other than that of the newest wait with success.
  predicate Disturbs<P>(before: seq<Obs<P>>, o: Obs<P>) {
    o.Stopped? || (o.Delivered? && !(o.code == Success && o.id + 1 == |AcceptsIn(before)|))
  }

  function Disturbances<P>(log: seq<Obs<P>>, from: int, to: int): nat {
    if log == [] then 0
    else
      var n := |log| - 1;
      Disturbances(log[..n], from, to) + (if Disturbs(log[..n], log[n]) && from <= log[n].at <= to then 1 else 0)
  }

  lemma {:induction false} MoreDisturbances<P>(log: seq<Obs<P>>, from: int, to: int, p: nat, q: nat)
    requires p <= q <= |log|
    ensures Disturbances(log[..p], from, to) <= Disturbances(log[..q], from, to)
    decreases q
  {
    if p == q {
    } else {
      MoreDisturbances(log, from, to, p, q - 1);
      assert log[..q][..q - 1] == log[..q - 1];
    }
  }

  lemma OneDisturbance<P>(log: seq<Obs<P>>, from: int, to: int, p: nat, k: nat, q: nat)
    requires p <= k < q <= |log| && Disturbs(log[..k], log[k]) && from <= log[k].at <= to
    ensures Disturbances(log[..p], from, to) + 1 <= Disturbances(log[..q], from, to)
  {
    MoreDisturbances(log, from, to, p, k);
    assert log[..k + 1][..k] == log[..k];
    MoreDisturbances(log, from, to, k + 1, q);
  }

  ghost predicate Succeeds<P>(accepted: Obs<P>, o: Obs<P>) {
    accepted.Accepted? && o.Delivered? && accepted.id == o.id && o.code == Success
  }

  ghost predicate NoneEarly<P>(log: seq<Obs<P>>) {
    forall j, k :: 0 <= j < |log| && 0 <= k < |log| && Succeeds(log[j], log[k]) ==> log[j].deadline <= log[k].at
  }

  // What is relied on of a log: acceptances are numbered and one period from their deadlines, they are made
  // only on a clear flag, and a success comes no earlier than its deadline.
  ghost predicate Regulated<P>(log: seq<Obs<P>>, period: int) {
    && InTime(log)
    && (forall k :: 0 <= k < |log| && log[k].Accepted? ==>
          && !Set(log[..k])
          && log[k].id == |AcceptsIn(log[..k])|
          && log[k].deadline == log[k].at + period)
    && NoneEarly(log)
  }

  lemma RegulatedPrefix<P>(log: seq<Obs<P>>, period: int, n: nat)
    requires Regulated(log, period) && n <= |log|
    ensures Regulated(log[..n], period)
  {
    forall k | 0 <= k < n && log[..n][k].Accepted?
      ensures log[..n][..k] == log[..k]
    {
    }
  }

  // No acceptance after position p and before k: as many acceptances before k as up to p.
  lemma {:induction false} NoneBetween<P>(log: seq<Obs<P>>, p: nat, k: nat)
    requires p < k <= |log| && log[p].Accepted? && forall i :: p < i < k ==> !log[i].Accepted?
    ensures |AcceptsIn(log[..k])| == |AcceptsIn(log[..p])| + 1
    decreases k
  {
    assert log[..k][..k - 1] == log[..k - 1];
    if k == p + 1 {
    } else {
      NoneBetween(log, p, k - 1);
    }
  }

  // From one acceptance to the next: a period, or a disturbance between them.
  lemma NextAccept<P>(log: seq<Obs<P>>, period: int, from: int, to: int, p: nat, q: nat)
    requires Regulated(log, period) && p < q < |log| && log[p].Accepted? && log[q].Accepted?
    requires forall i :: p < i < q ==> !log[i].Accepted?
    requires from <= log[p].at && log[q].at <= to
    ensures || log[p].at + period <= log[q].at
            || Disturbances(log[..p], from, to) + 1 <= Disturbances(log[..q], from, to)
  {
    var k := Clearing(log, p, q);
    NoneBetween(log, p, k);
    if Disturbs(log[..k], log[k]) {
      OneDisturbance(log, from, to, p, k, q);
    }
  }

  lemma CountOne<P>(log: seq<Obs<P>>, n: nat, from: int, to: int)
    requires n < |log|
    ensures CountWithin(AcceptsIn(log[..n + 1]), from, to)
            == CountWithin(AcceptsIn(log[..n]), from, to)
               + (if log[n].Accepted? && from <= log[n].at <= to then 1 else 0)
  {
    assert log[..n + 1] == log[..n] + [log[n]];
    PickAppend(log[..n], log[n]);
    if log[n].Accepted? {
      assert (AcceptsIn(log[..n]) + [log[n]])[..|AcceptsIn(log[..n])|] == AcceptsIn(log[..n]);
    }
  }

  // Where n positions of the log have acceptances in the span, the latest of them comes at least as many periods
  // after its beginning as there are acceptances but one and disturbances.
  ghost predicate Potential<P>(log: seq<Obs<P>>, n: nat, period: int, from: int, to: int, last: nat)
    requires n <= |log|
  {
    && last < n && log[last].Accepted? && from <= log[last].at <= to
    && (forall i :: last < i < n && log[i].Accepted? ==> to < log[i].at)
    && (CountWithin(AcceptsIn(log[..n]), from, to) - 1 - Disturbances(log[..last], from, to)) * period
       <= log[last].at - from
  }

  lemma Multiply(a: int, b: int, period: int)
    requires a <= b && period > 0
    ensures a * period <= b * period
  {
  }

  lemma PotentialStep<P>(log: seq<Obs<P>>, n: nat, period: int, from: int, to: int, last: nat)
    requires Regulated(log, period) && period > 0 && n < |log| && Potential(log, n, period, from, to, last)
    requires log[n].Accepted? && log[n].at <= to
    ensures Potential(log, n + 1, period, from, to, n)
  {
    CountOne(log, n, from, to);
    NextAccept(log, period, from, to, last, n);
    MoreDisturbances(log, from, to, last, n);
    Exchange(CountWithin(AcceptsIn(log[..n]), from, to), Disturbances(log[..last], from, to),
             Disturbances(log[..n], from, to), period, log[last].at - from, log[n].at - from);
  }

  // Either a period has passed since, or there is a disturbance more.
  lemma Exchange(count: int, d: int, e: int, period: int, before: int, after: int)
    requires period > 0 && (count - 1 - d) * period <= before && before <= after && d <= e
    requires before + period <= after || d + 1 <= e
    ensures (count - e) * period <= after
  {
    if d + 1 <= e {
      Multiply(count - e, count - 1 - d, period);
    } else {
      Multiply(count - e, count - 1 - d + 1, period);
      OnceMore(count - 1 - d, period);
    }
  }

  lemma FirstInSpan<P>(log: seq<Obs<P>>, n: nat, period: int, from: int, to: int)
    requires period > 0 && n < |log| && log[n].Accepted? && from <= log[n].at <= to
    requires CountWithin(AcceptsIn(log[..n]), from, to) == 0
    ensures Potential(log, n + 1, period, from, to, n)
  {
    CountOne(log, n, from, to);
    var d: int := Disturbances(log[..n], from, to);
    Multiply(-d, 0, period);
    assert CountWithin(AcceptsIn(log[..n + 1]), from, to) - 1 - d == -d;
  }

  // An element that does not count changes nothing.
  lemma PotentialStays<P>(log: seq<Obs<P>>, n: nat, period: int, from: int, to: int, last: nat)
    requires Regulated(log, period) && n < |log| && Potential(log, n, period, from, to, last)
    requires log[n].Accepted? ==> to < log[n].at
    ensures Potential(log, n + 1, period, from, to, last)
  {
    CountOne(log, n, from, to);
  }

  lemma {:induction false} LatestAccept<P>(log: seq<Obs<P>>, n: nat, period: int, from: int, to: int)
    returns (last: nat)
    requires Regulated(log, period) && period > 0 && n <= |log|
    requires CountWithin(AcceptsIn(log[..n]), from, to) > 0
    ensures Potential(log, n, period, from, to, last)
    decreases n
  {
    if n == 0 {
      assert false;
    } else {
      var m := n - 1;
      CountOne(log, m, from, to);
      var before := CountWithin(AcceptsIn(log[..m]), from, to);
      if before == 0 {
        last := m;
        FirstInSpan(log, m, period, from, to);
      } else {
        last := LatestAccept(log, m, period, from, to);
        if log[m].Accepted? && log[m].at <= to {
          PotentialStep(log, m, period, from, to, last);
          last := m;
        } else {
          PotentialStays(log, m, period, from, to, last);
        }
      }
    }
  }

  lemma {:induction false} NumberedInLog<P>(log: seq<Obs<P>>, k: nat)
    requires k < |log| && log[k].Accepted?
    ensures |AcceptsIn(log[..k])| < |AcceptsIn(log)| && AcceptsIn(log)[|AcceptsIn(log[..k])|] == log[k]
  {
    var n := |log| - 1;
    if k == n {
    } else {
      NumberedInLog(log[..n], k);
      assert log[..n][..k] == log[..k];
    }
  }

  lemma RunIsRegulated<P>(clock: int, es: seq<Event<P>>, period: int, callback: Callback)
    requires Possible(Initial(clock), es) && MetBy(es, period, callback, true, true) && Regular(callback, period)
    ensures Regulated(After(Initial(clock), es).log, period)
  {
    var s := After(Initial(clock), es);
    assert LogInv(s) by {
      InvInitial<P>(clock);
      LoggedAfter(Initial(clock), es);
    }
    assert Carries(s, period, callback) by {
      CarriesAfter(Initial(clock), es, period, callback);
    }
    StateIsRegulated(s, period, callback);
  }

  lemma StateIsRegulated<P>(s: State<P>, period: int, callback: Callback)
    requires LogInv(s) && Carries(s, period, callback)
    ensures Regulated(s.log, period)
  {
    forall k | 0 <= k < |s.log| && s.log[k].Accepted?
      ensures s.log[k].id == |AcceptsIn(s.log[..k])|
    {
      NumberedInState(s, k);
    }
    assert NoneEarly(s.log) by { TimesAreNotEarly(s); }
  }

  lemma NumberedInState<P>(s: State<P>, k: nat)
    requires WaitsInv(s) && k < |s.log| && s.log[k].Accepted?
    ensures s.log[k].id == |AcceptsIn(s.log[..k])|
  {
    NumberedInLog(s.log, k);
    assert Accepts(s)[|AcceptsIn(s.log[..k])|] == s.log[k];
  }

  lemma TimesAreNotEarly<P>(s: State<P>)
    requires TimesLogged(s)
    ensures NoneEarly(s.log)
  {
  }

  // In any span of any run, with stops, failures and deliveries in any order: one acceptance more than the
  // number of whole periods passes, and one for each disturbance in the span.
  lemma RateInAnyRun<P>(clock: int, es: seq<Event<P>>, period: int, callback: Callback, from: int, to: int)
    requires Possible(Initial(clock), es) && MetBy(es, period, callback, true, true) && Regular(callback, period)
    requires period > 0 && from <= to
    ensures var s := After(Initial(clock), es);
            CountWithin(Accepts(s), from, to) <= (to - from) / period + 1 + Disturbances(s.log, from, to)
  {
    RunIsRegulated(clock, es, period, callback);
    LogRate(After(Initial(clock), es).log, period, from, to);
  }

  lemma LogRate<P>(log: seq<Obs<P>>, period: int, from: int, to: int)
    requires Regulated(log, period) && period > 0 && from <= to
    ensures CountWithin(AcceptsIn(log), from, to) <= (to - from) / period + 1 + Disturbances(log, from, to)
  {
    var n, count := |log|, CountWithin(AcceptsIn(log), from, to);
    assert log[..n] == log;
    QuotientBound(0, period, to - from);
    if count > 0 {
      var last := LatestAccept(log, n, period, from, to);
      var k: int := count - 1 - Disturbances(log[..last], from, to);
      QuotientBound(k, period, to - from);
      MoreDisturbances(log, from, to, last, n);
    }
  }
}
