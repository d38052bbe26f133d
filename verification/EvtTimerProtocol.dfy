/** The five timers of EvtTimer: one clock, one strand, otherwise apart. */
module EvtTimerProtocol {
  import opened TimerProtocol
  import opened TimerRhythm
  import TimerRuns
  import FilterTimer
  import TimerDisturbances
  import TimerRate
  import PeriodicTimer

  datatype Which = DeviceStatus | Heartbeat | First | Second | Third

  datatype System<P> = System(
    device: State<P>, heartbeat: State<P>, first: State<P>, second: State<P>, third: State<P>)
  {
    function Get(k: Which): State<P> {
      match k
      case DeviceStatus => device
      case Heartbeat => heartbeat
      case First => first
      case Second => second
      case Third => third
    }

    function With(k: Which, s: State<P>): (r: System<P>)
      ensures forall j :: r.Get(j) == if j == k then s else Get(j)
    {
      match k
      case DeviceStatus => this.(device := s)
      case Heartbeat => this.(heartbeat := s)
      case First => this.(first := s)
      case Second => this.(second := s)
      case Third => this.(third := s)
    }
  }

  lemma SameSystem<P>(a: System<P>, b: System<P>)
    requires forall k :: a.Get(k) == b.Get(k)
    ensures a == b
  {
    assert a.Get(DeviceStatus) == b.Get(DeviceStatus) && a.Get(Heartbeat) == b.Get(Heartbeat);
    assert a.Get(First) == b.Get(First) && a.Get(Second) == b.Get(Second) && a.Get(Third) == b.Get(Third);
  }

  function InitialSystem<P>(clock: int): System<P> {
    System(Initial(clock), Initial(clock), Initial(clock), Initial(clock), Initial(clock))
  }

  datatype SysEvent<P> = On(which: Which, event: Event<P>) | TickAll(to: int)

  ghost predicate StrandFree<P>(s: System<P>) {
    forall k :: s.Get(k).handler.NoHandler?
  }

  // Time passes for all timers at once; a handler starts only when no timer's handler is on the strand.
  ghost predicate SysEnabled<P>(s: System<P>, e: SysEvent<P>) {
    match e
    case On(k, event) => !event.Tick? && Enabled(s.Get(k), event) && (event.Deliver? ==> StrandFree(s))
    case TickAll(to) => forall k :: Enabled(s.Get(k), Tick(to))
  }

  ghost function SysStep<P>(s: System<P>, e: SysEvent<P>): System<P>
    requires SysEnabled(s, e)
  {
    match e
    case On(k, event) => s.With(k, Step(s.Get(k), event))
    case TickAll(to) =>
      System(s.device.(clock := to), s.heartbeat.(clock := to), s.first.(clock := to),
             s.second.(clock := to), s.third.(clock := to))
  }

  ghost predicate SysPossible<P>(s: System<P>, es: seq<SysEvent<P>>)
    decreases |es|
  {
    es == [] || (SysEnabled(s, es[0]) && SysPossible(SysStep(s, es[0]), es[1..]))
  }

  ghost function SysAfter<P>(s: System<P>, es: seq<SysEvent<P>>): System<P>
    requires SysPossible(s, es)
    decreases |es|
  {
    if es == [] then s else SysAfter(SysStep(s, es[0]), es[1..])
  }

  // What one timer sees of a run of the system.
  function Seen<P>(e: SysEvent<P>, k: Which): seq<Event<P>> {
    match e
    case On(j, event) => if j == k then [event] else []
    case TickAll(to) => [Tick(to)]
  }

  function Project<P>(es: seq<SysEvent<P>>, k: Which): seq<Event<P>> {
    if es == [] then [] else Seen(es[0], k) + Project(es[1..], k)
  }

  datatype Strand = Free | HeldBy(which: Which)

  ghost predicate Holds<P>(s: System<P>, strand: Strand) {
    forall k :: s.Get(k).handler.Handling? <==> strand == HeldBy(k)
  }

  // A handler begins only on a free strand, and no tick is addressed to a single timer.
  predicate Admits<P>(strand: Strand, e: SysEvent<P>) {
    e.On? ==> !e.event.Tick? && (e.event.Deliver? ==> strand.Free?)
  }

  function NextStrand<P>(strand: Strand, e: SysEvent<P>): Strand {
    if e.On? && e.event.Deliver? then HeldBy(e.which)
    else if e.On? && e.event.Finish? then Free
    else strand
  }

  predicate Exclusive<P>(strand: Strand, es: seq<SysEvent<P>>)
    decreases |es|
  {
    es == [] || (Admits(strand, es[0]) && Exclusive(NextStrand(strand, es[0]), es[1..]))
  }

  lemma SingleRun<P>(s: State<P>, e: Event<P>)
    ensures Possible(s, [e]) <==> Enabled(s, e)
    ensures Enabled(s, e) ==> After(s, [e]) == Step(s, e)
  {
    assert [e][1..] == [];
  }

  lemma EventParts<P>(s: System<P>, e: SysEvent<P>, strand: Strand)
    requires Holds(s, strand)
    ensures SysEnabled(s, e) <==> Admits(strand, e) && forall k :: Possible(s.Get(k), Seen(e, k))
    ensures SysEnabled(s, e) ==>
              && Holds(SysStep(s, e), NextStrand(strand, e))
              && forall k :: SysStep(s, e).Get(k) == After(s.Get(k), Seen(e, k))
  {
    match e
    case On(which, event) =>
      SingleRun(s.Get(which), event);
      assert Seen(e, which) == [event];
      assert StrandFree(s) <==> strand.Free? by {
        if strand.HeldBy? {
          assert s.Get(strand.which).handler.Handling?;
        }
      }
    case TickAll(to) =>
      forall k
        ensures Possible(s.Get(k), Seen(e, k)) <==> Enabled(s.Get(k), Tick(to))
        ensures Possible(s.Get(k), Seen(e, k)) ==> After(s.Get(k), Seen(e, k)) == s.Get(k).(clock := to)
      {
        SingleRun(s.Get(k), Tick(to));
      }
  }

  // A sequence of events is a run of the system if and only if each timer's part of it is a run of
  // that timer alone and the handlers do not overlap; and each timer ends where its part takes it.
  lemma {:induction false} TimersDoNotInterfere<P>(s: System<P>, es: seq<SysEvent<P>>, strand: Strand)
    requires Holds(s, strand)
    ensures SysPossible(s, es) <==> Exclusive(strand, es) && forall k :: Possible(s.Get(k), Project(es, k))
    ensures SysPossible(s, es) ==> forall k :: SysAfter(s, es).Get(k) == After(s.Get(k), Project(es, k))
    decreases |es|
  {
    if es == [] {
    } else {
      var e, rest := es[0], es[1..];
      EventParts(s, e, strand);
      forall k
        ensures Possible(s.Get(k), Project(es, k)) <==>
                Possible(s.Get(k), Seen(e, k)) && Possible(After(s.Get(k), Seen(e, k)), Project(rest, k))
        ensures Possible(s.Get(k), Project(es, k)) ==>
                After(s.Get(k), Project(es, k)) == After(After(s.Get(k), Seen(e, k)), Project(rest, k))
      {
        RunsCompose(s.Get(k), Seen(e, k), Project(rest, k));
      }
      if SysEnabled(s, e) {
        TimersDoNotInterfere(SysStep(s, e), rest, NextStrand(strand, e));
      }
    }
  }

  lemma RunOfOne<P>(clock: int, es: seq<SysEvent<P>>, k: Which)
    requires SysPossible(InitialSystem<P>(clock), es)
    ensures Possible(Initial<P>(clock), Project(es, k))
    ensures SysAfter(InitialSystem<P>(clock), es).Get(k) == After(Initial<P>(clock), Project(es, k))
  {
    assert InitialSystem<P>(clock).Get(k) == Initial<P>(clock);
    TimersDoNotInterfere(InitialSystem<P>(clock), es, Free);
  }

  // The periods are read from the configuration; the callbacks are fixed by EvtTimer.
  datatype Config = Config(deviceStatus: int, heartbeat: int, filter: int)

  function Period(cfg: Config, k: Which): int {
    match k
    case DeviceStatus => cfg.deviceStatus
    case Heartbeat => cfg.heartbeat
    case _ => cfg.filter
  }

  function CallbackOf(cfg: Config, k: Which): Callback {
    if k.DeviceStatus? || k.Heartbeat? then Restart(Period(cfg, k)) else Quiet
  }

  // What EvtTimer lets its callers do: starts use the configured period, and only filters can be stopped.
  predicate OfApi<P>(cfg: Config, e: SysEvent<P>) {
    e.On? ==>
      && (e.event.Start? ==> e.event.seconds == Period(cfg, e.which) && e.event.callback == CallbackOf(cfg, e.which))
      && (e.event.Stop? ==> e.which != DeviceStatus && e.which != Heartbeat)
  }

  predicate ThroughApi<P>(cfg: Config, es: seq<SysEvent<P>>) {
    forall i :: 0 <= i < |es| ==> OfApi(cfg, es[i])
  }

  predicate NeverFails<P>(es: seq<SysEvent<P>>, k: Which) {
    forall i :: 0 <= i < |es| && es[i].On? && es[i].which == k ==> !es[i].event.Fail?
  }

  predicate NeverStopped<P>(es: seq<SysEvent<P>>, k: Which) {
    forall i :: 0 <= i < |es| && es[i].On? && es[i].which == k ==> !es[i].event.Stop?
  }

  // What one timer meets in a run of the system.
  lemma {:induction false} PartOf<P>(cfg: Config, es: seq<SysEvent<P>>, k: Which, stops: bool, failures: bool)
    requires ThroughApi(cfg, es) && (stops || NeverStopped(es, k)) && (failures || NeverFails(es, k))
    ensures MetBy(Project(es, k), Period(cfg, k), CallbackOf(cfg, k), stops, failures)
    decreases |es|
  {
    if es == [] {
    } else {
      assert forall i :: 0 <= i < |es[1..]| ==> es[1..][i] == es[i + 1];
      PartOf(cfg, es[1..], k, stops, failures);
      assert MetBy(Seen(es[0], k), Period(cfg, k), CallbackOf(cfg, k), stops, failures);
    }
  }

  // Whatever is done to the filters, the two self-restarting timers stay alive while their waits succeed.
  lemma SelfRestartingTimersStayAlive<P>(cfg: Config, clock: int, es: seq<SysEvent<P>>, k: Which)
    requires k == DeviceStatus || k == Heartbeat
    requires SysPossible(InitialSystem<P>(clock), es) && ThroughApi(cfg, es) && NeverFails(es, k)
    requires Accepts(SysAfter(InitialSystem<P>(clock), es).Get(k)) != []
    ensures var s := SysAfter(InitialSystem<P>(clock), es).Get(k);
            |s.pending| <= 1 && (s.handler.NoHandler? ==> |s.pending| == 1)
  {
    RunOfOne(clock, es, k);
    PartOf(cfg, es, k, false, false);
    PeriodicTimer.ChainNeverDies(clock, Project(es, k), Period(cfg, k));
  }

  // A filter that is itself never stopped keeps its rate, whatever is done to the other four timers.
  lemma FilterKeepsItsRate<P>(cfg: Config, clock: int, es: seq<SysEvent<P>>, k: Which, from: int, to: int)
    requires k == First || k == Second || k == Third
    requires SysPossible(InitialSystem<P>(clock), es) && ThroughApi(cfg, es)
    requires NeverFails(es, k) && NeverStopped(es, k)
    requires cfg.filter > 0 && from <= to
    ensures TimerRate.CountWithin(Accepts(SysAfter(InitialSystem<P>(clock), es).Get(k)), from, to)
            <= (to - from) / cfg.filter + 1
  {
    RunOfOne(clock, es, k);
    PartOf(cfg, es, k, false, false);
    FilterTimer.RateIsBounded(clock, Project(es, k), cfg.filter, from, to);
  }

  // Whatever is done to a filter: its rate, but for one acceptance more for each disturbance in the span.
  lemma FilterRateInAnyRun<P>(cfg: Config, clock: int, es: seq<SysEvent<P>>, k: Which, from: int, to: int)
    requires k == First || k == Second || k == Third
    requires SysPossible(InitialSystem<P>(clock), es) && ThroughApi(cfg, es)
    requires cfg.filter > 0 && from <= to
    ensures var s := SysAfter(InitialSystem<P>(clock), es).Get(k);
            TimerRate.CountWithin(Accepts(s), from, to)
            <= (to - from) / cfg.filter + 1 + TimerDisturbances.Disturbances(s.log, from, to)
  {
    RunOfOne(clock, es, k);
    PartOf(cfg, es, k, true, true);
    TimerDisturbances.RateInAnyRun(clock, Project(es, k), Period(cfg, k), CallbackOf(cfg, k), from, to);
  }

  // A filter that is not itself stopped delivers in order, whether or not its waits fail.
  lemma FilterDeliversInOrder<P>(cfg: Config, clock: int, es: seq<SysEvent<P>>, k: Which)
    requires SysPossible(InitialSystem<P>(clock), es) && ThroughApi(cfg, es) && NeverStopped(es, k)
    ensures var s := SysAfter(InitialSystem<P>(clock), es).Get(k);
            FilterTimer.Subsequence(FilterTimer.Payloads(Calls(s)), FilterTimer.Offered(s.log))
  {
    RunOfOne(clock, es, k);
    PartOf(cfg, es, k, false, true);
    FilterTimer.DeliveredInOrder(clock, Project(es, k));
  }

  // With stops and failures anywhere: a filter spaces two snapshots wherever it is itself undisturbed.
  lemma FilterSpacesWhereUndisturbed<P>(cfg: Config, clock: int, es: seq<SysEvent<P>>, k: Which, p: nat, q: nat)
    requires k == First || k == Second || k == Third
    requires SysPossible(InitialSystem<P>(clock), es) && ThroughApi(cfg, es)
    requires var log := SysAfter(InitialSystem<P>(clock), es).Get(k).log;
             && p < q < |log| && log[p].Accepted? && log[q].Accepted?
             && forall i :: p < i < q ==>
                  !log[i].Stopped? && (log[i].Delivered? ==> log[i].id == log[p].id && log[i].code == Success)
    ensures var log := SysAfter(InitialSystem<P>(clock), es).Get(k).log; log[p].at + cfg.filter <= log[q].at
  {
    RunOfOne(clock, es, k);
    PartOf(cfg, es, k, true, true);
    FilterTimer.SpacedWhereUndisturbed(clock, Project(es, k), Period(cfg, k), p, q);
  }

  // Every wait of a timer carries the callback that EvtTimer gave it, so a restart is a start through EvtTimer.
  lemma OwnCallbacks<P>(cfg: Config, clock: int, es: seq<SysEvent<P>>, k: Which)
    requires SysPossible(InitialSystem<P>(clock), es) && ThroughApi(cfg, es)
    ensures Carries(SysAfter(InitialSystem<P>(clock), es).Get(k), Period(cfg, k), CallbackOf(cfg, k))
  {
    RunOfOne(clock, es, k);
    PartOf(cfg, es, k, true, true);
    CarriesAfter(Initial<P>(clock), Project(es, k), Period(cfg, k), CallbackOf(cfg, k));
  }

  ghost predicate DueAfter<P>(s: State<P>, period: int) {
    forall i :: 0 <= i < |s.log| && s.log[i].Accepted? ==> s.log[i].deadline == s.log[i].at + period
  }

  // Each timer runs with the period that is configured for it.
  lemma ConfiguredPeriods<P>(cfg: Config, clock: int, es: seq<SysEvent<P>>)
    requires SysPossible(InitialSystem<P>(clock), es) && ThroughApi(cfg, es)
    ensures var s := SysAfter(InitialSystem<P>(clock), es);
            && DueAfter(s.device, cfg.deviceStatus)
            && DueAfter(s.heartbeat, cfg.heartbeat)
            && DueAfter(s.first, cfg.filter) && DueAfter(s.second, cfg.filter) && DueAfter(s.third, cfg.filter)
  {
    OwnCallbacks(cfg, clock, es, DeviceStatus);
    OwnCallbacks(cfg, clock, es, Heartbeat);
    OwnCallbacks(cfg, clock, es, First);
    OwnCallbacks(cfg, clock, es, Second);
    OwnCallbacks(cfg, clock, es, Third);
  }

  // In every run through EvtTimer the n-th timeout of a periodic timer comes n + 1 of its own configured periods
  // after its first start, or later.
  lemma TimeoutsAreNotEarly<P>(cfg: Config, clock: int, es: seq<SysEvent<P>>, n: nat)
    requires SysPossible(InitialSystem<P>(clock), es) && ThroughApi(cfg, es)
    ensures var s := SysAfter(InitialSystem<P>(clock), es).device;
            n < |Calls(s)| ==> Accepts(s) != [] && Accepts(s)[0].at + (n + 1) * cfg.deviceStatus <= Calls(s)[n].at
    ensures var s := SysAfter(InitialSystem<P>(clock), es).heartbeat;
            n < |Calls(s)| ==> Accepts(s) != [] && Accepts(s)[0].at + (n + 1) * cfg.heartbeat <= Calls(s)[n].at
  {
    TimeoutNotEarly(cfg, clock, es, DeviceStatus, n);
    TimeoutNotEarly(cfg, clock, es, Heartbeat, n);
  }

  lemma TimeoutNotEarly<P>(cfg: Config, clock: int, es: seq<SysEvent<P>>, k: Which, n: nat)
    requires SysPossible(InitialSystem<P>(clock), es) && ThroughApi(cfg, es) && (k == DeviceStatus || k == Heartbeat)
    ensures var s := SysAfter(InitialSystem<P>(clock), es).Get(k);
            n < |Calls(s)| ==> Accepts(s) != [] && Accepts(s)[0].at + (n + 1) * Period(cfg, k) <= Calls(s)[n].at
  {
    RunOfOne(clock, es, k);
    PartOf(cfg, es, k, true, true);
    if n < |Calls(SysAfter(InitialSystem<P>(clock), es).Get(k))| {
      PeriodicTimer.DriftBelow(clock, Project(es, k), Period(cfg, k), n);
    }
  }

  // While its waits do not fail and every call is at most lag late, it comes after n + 1 periods lengthened by
  // the lag, or earlier.
  lemma TimeoutsAreNotLate<P>(cfg: Config, clock: int, es: seq<SysEvent<P>>, lag: int, n: nat)
    requires SysPossible(InitialSystem<P>(clock), es) && ThroughApi(cfg, es)
    ensures var s := SysAfter(InitialSystem<P>(clock), es).device;
            NeverFails(es, DeviceStatus) && PeriodicTimer.Prompt(s, lag) && n < |Calls(s)| ==>
              Accepts(s) != [] && Calls(s)[n].at <= Accepts(s)[0].at + (n + 1) * (cfg.deviceStatus + lag)
    ensures var s := SysAfter(InitialSystem<P>(clock), es).heartbeat;
            NeverFails(es, Heartbeat) && PeriodicTimer.Prompt(s, lag) && n < |Calls(s)| ==>
              Accepts(s) != [] && Calls(s)[n].at <= Accepts(s)[0].at + (n + 1) * (cfg.heartbeat + lag)
  {
    TimeoutNotLate(cfg, clock, es, DeviceStatus, lag, n);
    TimeoutNotLate(cfg, clock, es, Heartbeat, lag, n);
  }

  lemma TimeoutNotLate<P>(cfg: Config, clock: int, es: seq<SysEvent<P>>, k: Which, lag: int, n: nat)
    requires SysPossible(InitialSystem<P>(clock), es) && ThroughApi(cfg, es) && (k == DeviceStatus || k == Heartbeat)
    ensures var s := SysAfter(InitialSystem<P>(clock), es).Get(k);
            NeverFails(es, k) && PeriodicTimer.Prompt(s, lag) && n < |Calls(s)| ==>
              Accepts(s) != [] && Calls(s)[n].at <= Accepts(s)[0].at + (n + 1) * (Period(cfg, k) + lag)
  {
    RunOfOne(clock, es, k);
    var s := SysAfter(InitialSystem<P>(clock), es).Get(k);
    if NeverFails(es, k) && PeriodicTimer.Prompt(s, lag) && n < |Calls(s)| {
      PartOf(cfg, es, k, false, false);
      PeriodicTimer.DriftAbove(clock, Project(es, k), Period(cfg, k), lag, n);
    }
  }

  // The end of a handler whose wait succeeded: for the two self-restarting timers it is the return of the
  // handler and then a start as EvtTimer makes it, with the payload of the wait; for a filter, the return alone.
  lemma HandlerEnd<P>(cfg: Config, s: System<P>, k: Which)
    requires SysEnabled(s, On(k, Finish)) && s.Get(k).handler.wait.callback == CallbackOf(cfg, k)
    ensures var returned := s.With(k, ReturnStep(s.Get(k)));
            SysStep(s, On(k, Finish)) ==
            if (k == DeviceStatus || k == Heartbeat) && s.Get(k).handler.wait.status == Settled(Success)
            then SysStep(returned, On(k, Start(Period(cfg, k), s.Get(k).handler.wait.payload, CallbackOf(cfg, k))))
            else returned
  {
    var returned := s.With(k, ReturnStep(s.Get(k)));
    SameSystem(SysStep(s, On(k, Finish)),
               returned.With(k, FinishStep(s.Get(k))));
  }

  // Every timer's callbacks run at most once, on time, with their own payload and never for an aborted or failed
  // wait, in any system run.
  lemma CallbacksInTheSystem<P>(clock: int, es: seq<SysEvent<P>>, k: Which, i: nat)
    requires SysPossible(InitialSystem<P>(clock), es)
    requires i < |Calls(SysAfter(InitialSystem<P>(clock), es).Get(k))|
    ensures var s := SysAfter(InitialSystem<P>(clock), es).Get(k);
            var c := Calls(s)[i];
            && c.id < |Accepts(s)|
            && c.payload == Accepts(s)[c.id].payload
            && Accepts(s)[c.id].deadline <= c.at
            && (forall j :: 0 <= j < |Calls(s)| && Calls(s)[j].id == c.id ==> j == i)
            && (forall code, j :: code != Success && 0 <= j < |Deliveries(s, code)| ==>
                  Deliveries(s, code)[j].id != c.id)
  {
    RunOfOne(clock, es, k);
    TimerRuns.CallbackContract(clock, Project(es, k), i);
  }
}
