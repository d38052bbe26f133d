/** The Timer class and the deadline_timer it drives, each method proved to be one step of the protocol. */
module TimerObject {
  import opened TimerProtocol

  /** The part of Asio's deadline_timer that the Timer class uses: an expiry time and a queue of waits. */
  class DeadlineTimer<P> {
    var now: int
    var expiry: int
    var nextId: nat
    var queue: map<nat, Wait<P>>

    constructor (clock: int)
      ensures now == clock && nextId == 0 && queue == map[]
    {
      now, expiry, nextId, queue := clock, clock, 0, map[];
    }

    method ExpiresFromNow(seconds: int)
      modifies this`expiry, this`queue
      ensures expiry == now + seconds && queue == AbortLive(old(queue))
    {
      Cancel();
      expiry := now + seconds;
    }

    method Cancel()
      modifies this`queue
      ensures queue == AbortLive(old(queue))
    {
      queue := AbortLive(queue);
    }

    method AsyncWait(payload: P, callback: Callback)
      modifies this`nextId, this`queue
      ensures nextId == old(nextId) + 1
      ensures queue == old(queue)[old(nextId) := Wait(expiry, payload, callback, Live)]
    {
      queue := queue[nextId := Wait(expiry, payload, callback, Live)];
      nextId := nextId + 1;
    }

    method Settle(id: nat, code: Code)
      requires id in queue
      modifies this`queue
      ensures queue == old(queue)[id := old(queue)[id].(status := Settled(code))]
    {
      queue := queue[id := queue[id].(status := Settled(code))];
    }

    method Dequeue(id: nat) returns (wait: Wait<P>)
      requires id in queue
      modifies this`queue
      ensures wait == old(queue)[id] && queue == old(queue) - {id}
    {
      wait := queue[id];
      queue := queue - {id};
    }
  }

  class Timer<P> {
    const timer: DeadlineTimer<P>
    var isTimerRunning: bool
    var handler: Handler<P>
    ghost var log: seq<Obs<P>>

    constructor (clock: int)
      ensures fresh(timer)
      ensures State() == Initial(clock)
    {
      timer := new DeadlineTimer(clock);
      isTimerRunning, handler, log := false, NoHandler, [];
    }

    ghost function State(): State<P>
      reads this, timer
    {
      TimerProtocol.State(isTimerRunning, timer.now, timer.nextId, timer.queue, handler, log)
    }

    method Start(seconds: int, payload: P, callback: Callback)
      modifies this, timer
      ensures State() == StartStep(old(State()), seconds, payload, callback)
    {
      if !isTimerRunning {
        isTimerRunning := true;
        timer.ExpiresFromNow(seconds);
        log := log + [Accepted(timer.nextId, payload, timer.now, timer.expiry)];
        timer.AsyncWait(payload, callback);
      } else {
        log := log + [Refused(payload, timer.now)];
      }
    }

    predicate IsRunning(): (r: bool)
      reads this, timer
      ensures r == State().running
    {
      isTimerRunning
    }

    method Stop()
      modifies this, timer
      ensures State() == StopStep(old(State()))
    {
      if isTimerRunning {
        timer.Cancel();
        isTimerRunning := false;
        log := log + [Stopped(timer.nextId, timer.now)];
      }
    }

    // The strand takes a settled wait and runs its handler as far as the store to the flag.
    method BeginHandler(id: nat)
      requires Enabled(State(), Deliver(id))
      modifies this, timer
      ensures State() == Step(old(State()), Deliver(id))
    {
      var wait := timer.Dequeue(id);
      handler := Handling(id, wait);
      log := log + [Delivered(id, wait.status.code, timer.now)];
      isTimerRunning := false;
    }

    // The rest of the handler: the callback on success, a log line on an error other than an abort.
    method EndHandler()
      requires Enabled(State(), Finish)
      modifies this, timer
      ensures State() == Step(old(State()), Finish)
    {
      var wait := ReturnHandler();
      if wait.status.code == Success && wait.callback.Restart? {
        Start(wait.callback.seconds, wait.payload, wait.callback);
      }
    }

    // The handler as far as the callback has run, but for what it starts.
    method ReturnHandler() returns (wait: Wait<P>)
      requires Enabled(State(), Finish)
      modifies this
      ensures State() == ReturnStep(old(State())) && wait == old(handler.wait)
    {
      var id := handler.id;
      wait := handler.wait;
      handler := NoHandler;
      if wait.status.code == Success {
        log := log + [Called(id, wait.payload, timer.now)];
      } else if wait.status.code != OperationAborted {
        log := log + [ErrorLogged(id, timer.now)];
      }
    }

    // One step of the world around the timer.
    method Perform(e: Event<P>)
      requires Enabled(State(), e)
      modifies this, timer
      ensures State() == Step(old(State()), e)
    {
      match e {
        case Start(seconds, payload, callback) => Start(seconds, payload, callback);
        case Stop => Stop();
        case Tick(to) => timer.now := to;
        case Expire(id) => timer.Settle(id, Success);
        case Fail(id) => timer.Settle(id, OtherError);
        case Deliver(id) => BeginHandler(id);
        case Finish => EndHandler();
      }
    }

    // Every run of the protocol is a run of the object, and ends in the same state.
    method Drive(es: seq<Event<P>>)
      requires Possible(State(), es)
      modifies this, timer
      ensures State() == After(old(State()), es)
      decreases |es|
    {
      if es != [] {
        Perform(es[0]);
        Drive(es[1..]);
      }
    }
  }
}
