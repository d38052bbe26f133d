/** EvtTimer: the owner of the five timers. Each method is one event of the system, at one timer. */
module EvtTimerObject {
  import opened Structures
  import opened TimerProtocol
  import TimerRhythm
  import opened TimerObject
  import opened EvtTimerProtocol

  // The two self-restarting timers are started with no argument; the filters carry a copy of the lot.
  type Payload = Option<ParkingLot>

  ghost predicate Unshared(a: Timer<Payload>, b: Timer<Payload>) {
    a != b && a.timer != b.timer
  }

  class EvtTimer {
    const cfg: Config
    const deviceStatusUpdateTimer: Timer<Payload>
    const heartbeatCentralTimer: Timer<Payload>
    const firstParkingLotFilterTimer: Timer<Payload>
    const secondParkingLotFilterTimer: Timer<Payload>
    const thirdParkingLotFilterTimer: Timer<Payload>

    constructor FnTimerInitialization(cfg: Config, clock: int)
      ensures Valid() && this.cfg == cfg && SysState() == InitialSystem(clock)
      ensures forall k :: fresh(TimerOf(k)) && fresh(TimerOf(k).timer)
    {
      this.cfg := cfg;
      deviceStatusUpdateTimer := new Timer(clock);
      heartbeatCentralTimer := new Timer(clock);
      firstParkingLotFilterTimer := new Timer(clock);
      secondParkingLotFilterTimer := new Timer(clock);
      thirdParkingLotFilterTimer := new Timer(clock);
      new;
      UnsharedIsValid();
    }

    lemma UnsharedIsValid()
      requires Unshared(deviceStatusUpdateTimer, heartbeatCentralTimer)
               && Unshared(deviceStatusUpdateTimer, firstParkingLotFilterTimer)
      requires Unshared(deviceStatusUpdateTimer, secondParkingLotFilterTimer)
               && Unshared(deviceStatusUpdateTimer, thirdParkingLotFilterTimer)
      requires Unshared(heartbeatCentralTimer, firstParkingLotFilterTimer)
               && Unshared(heartbeatCentralTimer, secondParkingLotFilterTimer)
      requires Unshared(heartbeatCentralTimer, thirdParkingLotFilterTimer)
               && Unshared(firstParkingLotFilterTimer, secondParkingLotFilterTimer)
      requires Unshared(firstParkingLotFilterTimer, thirdParkingLotFilterTimer)
               && Unshared(secondParkingLotFilterTimer, thirdParkingLotFilterTimer)
      ensures Valid()
    {
    }

    function TimerOf(k: Which): Timer<Payload> {
      match k
      case DeviceStatus => deviceStatusUpdateTimer
      case Heartbeat => heartbeatCentralTimer
      case First => firstParkingLotFilterTimer
      case Second => secondParkingLotFilterTimer
      case Third => thirdParkingLotFilterTimer
    }

    ghost function Objects(): set<object> {
      {deviceStatusUpdateTimer, heartbeatCentralTimer, firstParkingLotFilterTimer,
       secondParkingLotFilterTimer, thirdParkingLotFilterTimer,
       deviceStatusUpdateTimer.timer, heartbeatCentralTimer.timer, firstParkingLotFilterTimer.timer,
       secondParkingLotFilterTimer.timer, thirdParkingLotFilterTimer.timer}
    }

    // No two of the timers share an object.
    ghost predicate Valid() {
      forall j, k {:trigger TimerOf(j), TimerOf(k)} :: j != k ==>
        Unshared(TimerOf(j), TimerOf(k))
    }

    ghost function SysState(): System<Payload>
      reads Objects()
    {
      System(deviceStatusUpdateTimer.State(), heartbeatCentralTimer.State(), firstParkingLotFilterTimer.State(),
             secondParkingLotFilterTimer.State(), thirdParkingLotFilterTimer.State())
    }

    ghost function StartOf(k: Which, payload: Payload): SysEvent<Payload> {
      On(k, Start(Period(cfg, k), payload, CallbackOf(cfg, k)))
    }

    // Starting one timer.
    method StartTimer(k: Which, payload: Payload)
      requires Valid()
      modifies TimerOf(k), TimerOf(k).timer
      ensures SysState() == SysStep(old(SysState()), StartOf(k, payload))
    {
      TimerOf(k).Start(Period(cfg, k), payload, CallbackOf(cfg, k));
      Framed(k);
    }

    method StopTimer(k: Which)
      requires Valid()
      modifies TimerOf(k), TimerOf(k).timer
      ensures SysState() == SysStep(old(SysState()), On(k, Stop))
    {
      TimerOf(k).Stop();
      Framed(k);
    }

    // The end of a handler at one timer: its callback is the timeout method of that timer.
    method EndHandler(k: Which)
      requires Valid() && Enabled(TimerOf(k).State(), Finish)
      requires TimerOf(k).handler.wait.callback == CallbackOf(cfg, k)
      requires k == DeviceStatus || k == Heartbeat ==> TimerOf(k).handler.wait.payload == None
      modifies TimerOf(k), TimerOf(k).timer
      ensures SysState() == SysStep(old(SysState()), On(k, Finish))
    {
      HandlerEnd(cfg, SysState(), k);
      var wait := TimerOf(k).ReturnHandler();
      Framed(k);
      if wait.status.code == Success {
        match k {
          case DeviceStatus => OnDeviceStatusUpdateTimerTimeout();
          case Heartbeat => OnHeartbeatCentralTimerTimeout();
          case _ =>
        }
      }
    }

    // A change confined to one timer's objects changes one component of the system.
    twostate lemma Framed(k: Which)
      requires Valid()
      requires forall j :: j != k ==> unchanged(TimerOf(j)) && unchanged(TimerOf(j).timer)
      ensures SysState() == old(SysState()).With(k, TimerOf(k).State())
    {
      forall j
        ensures SysState().Get(j) == TimerOf(j).State()
        ensures j != k ==> TimerOf(j).State() == old(TimerOf(j).State())
        ensures old(SysState()).Get(j) == old(TimerOf(j).State())
      {
      }
      SameSystem(SysState(), old(SysState()).With(k, TimerOf(k).State()));
    }

    method FnStartDeviceStatusUpdateTimer()
      requires Valid()
      modifies deviceStatusUpdateTimer, deviceStatusUpdateTimer.timer
      ensures SysState() == SysStep(old(SysState()), StartOf(DeviceStatus, None))
      ensures deviceStatusUpdateTimer.State()
              == StartStep(old(deviceStatusUpdateTimer.State()), cfg.deviceStatus, None, Restart(cfg.deviceStatus))
    {
      StartTimer(DeviceStatus, None);
    }

    method OnDeviceStatusUpdateTimerTimeout()
      requires Valid()
      modifies deviceStatusUpdateTimer, deviceStatusUpdateTimer.timer
      ensures SysState() == SysStep(old(SysState()), StartOf(DeviceStatus, None))
    {
      FnStartDeviceStatusUpdateTimer();
    }

    method FnStartHeartbeatCentralTimer()
      requires Valid()
      modifies heartbeatCentralTimer, heartbeatCentralTimer.timer
      ensures SysState() == SysStep(old(SysState()), StartOf(Heartbeat, None))
      ensures heartbeatCentralTimer.State()
              == StartStep(old(heartbeatCentralTimer.State()), cfg.heartbeat, None, Restart(cfg.heartbeat))
    {
      StartTimer(Heartbeat, None);
    }

    method OnHeartbeatCentralTimerTimeout()
      requires Valid()
      modifies heartbeatCentralTimer, heartbeatCentralTimer.timer
      ensures SysState() == SysStep(old(SysState()), StartOf(Heartbeat, None))
    {
      FnStartHeartbeatCentralTimer();
    }

    method FnStartFirstParkingLotFilterTimer(parkingLotInfo: ParkingLot)
      requires Valid()
      modifies firstParkingLotFilterTimer, firstParkingLotFilterTimer.timer
      ensures SysState() == SysStep(old(SysState()), StartOf(First, Some(parkingLotInfo)))
      ensures firstParkingLotFilterTimer.State()
              == StartStep(old(firstParkingLotFilterTimer.State()), cfg.filter, Some(parkingLotInfo), Quiet)
    {
      StartTimer(First, Some(parkingLotInfo));
    }

    method FnStopFirstParkingLotFilterTimer()
      requires Valid()
      modifies firstParkingLotFilterTimer, firstParkingLotFilterTimer.timer
      ensures SysState() == SysStep(old(SysState()), On(First, Stop))
      ensures firstParkingLotFilterTimer.State() == StopStep(old(firstParkingLotFilterTimer.State()))
    {
      StopTimer(First);
    }

    method FnIsFirstParkingLotFilterTimerRunning() returns (running: bool)
      ensures running == SysState().first.running
    {
      running := firstParkingLotFilterTimer.IsRunning();
    }

    method FnStartSecondParkingLotFilterTimer(parkingLotInfo: ParkingLot)
      requires Valid()
      modifies secondParkingLotFilterTimer, secondParkingLotFilterTimer.timer
      ensures SysState() == SysStep(old(SysState()), StartOf(Second, Some(parkingLotInfo)))
      ensures secondParkingLotFilterTimer.State()
              == StartStep(old(secondParkingLotFilterTimer.State()), cfg.filter, Some(parkingLotInfo), Quiet)
    {
      StartTimer(Second, Some(parkingLotInfo));
    }

    method FnStopSecondParkingLotFilterTimer()
      requires Valid()
      modifies secondParkingLotFilterTimer, secondParkingLotFilterTimer.timer
      ensures SysState() == SysStep(old(SysState()), On(Second, Stop))
      ensures secondParkingLotFilterTimer.State() == StopStep(old(secondParkingLotFilterTimer.State()))
    {
      StopTimer(Second);
    }

    method FnIsSecondParkingLotFilterTimerRunning() returns (running: bool)
      ensures running == SysState().second.running
    {
      running := secondParkingLotFilterTimer.IsRunning();
    }

    method FnStartThirdParkingLotFilterTimer(parkingLotInfo: ParkingLot)
      requires Valid()
      modifies thirdParkingLotFilterTimer, thirdParkingLotFilterTimer.timer
      ensures SysState() == SysStep(old(SysState()), StartOf(Third, Some(parkingLotInfo)))
      ensures thirdParkingLotFilterTimer.State()
              == StartStep(old(thirdParkingLotFilterTimer.State()), cfg.filter, Some(parkingLotInfo), Quiet)
    {
      StartTimer(Third, Some(parkingLotInfo));
    }

    method FnStopThirdParkingLotFilterTimer()
      requires Valid()
      modifies thirdParkingLotFilterTimer, thirdParkingLotFilterTimer.timer
      ensures SysState() == SysStep(old(SysState()), On(Third, Stop))
      ensures thirdParkingLotFilterTimer.State() == StopStep(old(thirdParkingLotFilterTimer.State()))
    {
      StopTimer(Third);
    }

    method FnIsThirdParkingLotFilterTimerRunning() returns (running: bool)
      ensures running == SysState().third.running
    {
      running := thirdParkingLotFilterTimer.IsRunning();
    }

    // Below the class: time passes, a wait settles, the strand takes a handler up.

    method PassTime(to: int)
      requires Valid() && SysEnabled(SysState(), TickAll(to))
      modifies Objects()
      ensures SysState() == SysStep(old(SysState()), TickAll(to))
    {
      SetClock(DeviceStatus, to);
      SetClock(Heartbeat, to);
      SetClock(First, to);
      SetClock(Second, to);
      SetClock(Third, to);
    }

    method SetClock(k: Which, to: int)
      requires Valid()
      modifies TimerOf(k).timer
      ensures SysState() == old(SysState()).With(k, old(SysState()).Get(k).(clock := to))
    {
      assert SysState().Get(k) == TimerOf(k).State();
      TimerOf(k).timer.now := to;
      Framed(k);
    }

    method Settle(k: Which, id: nat, code: Code)
      requires Valid() && id in TimerOf(k).timer.queue
      modifies TimerOf(k).timer
      ensures SysState() == old(SysState()).With(k, SettleStep(old(TimerOf(k).State()), id, code))
    {
      TimerOf(k).timer.Settle(id, code);
      Framed(k);
    }

    // No other timer's handler may be on the strand.
    method BeginHandler(k: Which, id: nat)
      requires Valid() && SysEnabled(SysState(), On(k, Deliver(id)))
      modifies TimerOf(k), TimerOf(k).timer
      ensures SysState() == SysStep(old(SysState()), On(k, Deliver(id)))
    {
      assert SysState().Get(k) == TimerOf(k).State();
      TimerOf(k).BeginHandler(id);
      Framed(k);
    }

    method StartByMethod(k: Which, payload: Payload)
      requires Valid() && (payload == None <==> k == DeviceStatus || k == Heartbeat)
      modifies TimerOf(k), TimerOf(k).timer
      ensures SysState() == SysStep(old(SysState()), StartOf(k, payload))
    {
      match k {
        case DeviceStatus => FnStartDeviceStatusUpdateTimer();
        case Heartbeat => FnStartHeartbeatCentralTimer();
        case First => FnStartFirstParkingLotFilterTimer(payload.value);
        case Second => FnStartSecondParkingLotFilterTimer(payload.value);
        case Third => FnStartThirdParkingLotFilterTimer(payload.value);
      }
    }

    method StopByMethod(k: Which)
      requires Valid() && k != DeviceStatus && k != Heartbeat
      modifies TimerOf(k), TimerOf(k).timer
      ensures SysState() == SysStep(old(SysState()), On(k, Stop))
    {
      match k {
        case First => FnStopFirstParkingLotFilterTimer();
        case Second => FnStopSecondParkingLotFilterTimer();
        case Third => FnStopThirdParkingLotFilterTimer();
      }
    }

    // One event of the system.
    method Perform(e: SysEvent<Payload>)
      requires Valid() && SysEnabled(SysState(), e) && OfMethods(cfg, e) && Loyal(cfg, SysState())
      modifies Objects()
      ensures SysState() == SysStep(old(SysState()), e)
    {
      match e {
        case TickAll(to) => PassTime(to);
        case On(k, event) =>
          assert SysState().Get(k) == TimerOf(k).State();
          match event {
            case Start(_, payload, _) => StartByMethod(k, payload);
            case Stop => StopByMethod(k);
            case Expire(id) => Settle(k, id, Success);
            case Fail(id) => Settle(k, id, OtherError);
            case Deliver(id) => BeginHandler(k, id);
            case Finish => EndHandler(k);
          }
      }
    }

    // Every run of the system that comes about through the class's methods is carried out by it, and ends in
    // the same state.
    method Drive(es: seq<SysEvent<Payload>>)
      requires Valid() && SysPossible(SysState(), es) && ThroughMethods(cfg, es) && Loyal(cfg, SysState())
      modifies Objects()
      ensures SysState() == SysAfter(old(SysState()), es)
      decreases |es|
    {
      if es != [] {
        LoyalStep(cfg, SysState(), es[0]);
        Perform(es[0]);
        Drive(es[1..]);
      }
    }
  }

  // Events as the class makes them: the two self-restarting timers are started with no argument, the filters
  // with a lot.
  predicate OfMethods(cfg: Config, e: SysEvent<Payload>) {
    && OfApi(cfg, e)
    && (e.On? && e.event.Start? ==> (e.event.payload == None <==> e.which == DeviceStatus || e.which == Heartbeat))
  }

  predicate ThroughMethods(cfg: Config, es: seq<SysEvent<Payload>>) {
    forall i :: 0 <= i < |es| ==> OfMethods(cfg, es[i])
  }

  // Every wait carries the timeout method of its own timer, and no argument where that method takes none.
  ghost predicate Loyal(cfg: Config, s: System<Payload>) {
    forall k ::
      && TimerRhythm.Carries(s.Get(k), Period(cfg, k), CallbackOf(cfg, k))
      && (k == DeviceStatus || k == Heartbeat ==> TimerRhythm.Loaded(s.Get(k), None))
  }

  lemma LoyalStep(cfg: Config, s: System<Payload>, e: SysEvent<Payload>)
    requires Loyal(cfg, s) && SysEnabled(s, e) && OfMethods(cfg, e)
    ensures Loyal(cfg, SysStep(s, e))
  {
    match e
    case TickAll(to) =>
      forall k
        ensures SysStep(s, e).Get(k) == s.Get(k).(clock := to)
      {
      }
    case On(k, event) =>
      TimerRhythm.CarriesStep(s.Get(k), event, Period(cfg, k), CallbackOf(cfg, k));
      if k == DeviceStatus || k == Heartbeat {
        TimerRhythm.LoadedStep(s.Get(k), event, None);
      }
  }

  lemma {:induction false} LoyalAfter(cfg: Config, s: System<Payload>, es: seq<SysEvent<Payload>>)
    requires Loyal(cfg, s) && SysPossible(s, es) && ThroughMethods(cfg, es)
    ensures Loyal(cfg, SysAfter(s, es))
    decreases |es|
  {
    if es == [] {
    } else {
      LoyalStep(cfg, s, es[0]);
      LoyalAfter(cfg, SysStep(s, es[0]), es[1..]);
    }
  }

  // In each such run EvtTimer.EndHandler applies to whatever handler is on the strand.
  lemma EveryTimeoutIsTheMethod(cfg: Config, clock: int, es: seq<SysEvent<Payload>>, k: Which)
    requires SysPossible(InitialSystem(clock), es) && ThroughMethods(cfg, es)
    requires SysAfter(InitialSystem(clock), es).Get(k).handler.Handling?
    ensures var wait := SysAfter(InitialSystem(clock), es).Get(k).handler.wait;
            && wait.callback == CallbackOf(cfg, k)
            && (k == DeviceStatus || k == Heartbeat ==> wait.payload == None)
  {
    InitialIsLoyal(cfg, clock);
    LoyalAfter(cfg, InitialSystem(clock), es);
    assert TimerRhythm.Carries(SysAfter(InitialSystem(clock), es).Get(k), Period(cfg, k), CallbackOf(cfg, k));
  }

  lemma InitialIsLoyal(cfg: Config, clock: int)
    ensures Loyal(cfg, InitialSystem(clock))
  {
    forall k
      ensures InitialSystem<Payload>(clock).Get(k) == Initial(clock)
    {
    }
  }

  // A new EvtTimer carries out any run of the system that comes about through its methods.
  method RunOfClass(cfg: Config, clock: int, es: seq<SysEvent<Payload>>) returns (timer: EvtTimer)
    requires SysPossible(InitialSystem<Payload>(clock), es) && ThroughMethods(cfg, es)
    ensures timer.Valid() && timer.cfg == cfg && timer.SysState() == SysAfter(InitialSystem(clock), es)
  {
    timer := new EvtTimer.FnTimerInitialization(cfg, clock);
    InitialIsLoyal(cfg, clock);
    assert fresh(timer.TimerOf(DeviceStatus)) && fresh(timer.TimerOf(Heartbeat));
    assert fresh(timer.TimerOf(First)) && fresh(timer.TimerOf(Second)) && fresh(timer.TimerOf(Third));
    timer.Drive(es);
  }
}
