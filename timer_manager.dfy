/**
 * The page-side proxy of the deadline worker (manager/TimerManager.js): it
 * keeps `isRunning` and `initialDuration`, turns each call into exactly one
 * worker command, and turns worker replies into events. The manager's own
 * `emit` is modelled as a log of the events it emits, in order; which
 * listeners they reach is `EventEmitter.Emit`.
 */
module TimerManager {
  import W = DeadlineWorker

  // Event names of TIMER_EVENTS (core/config.js).
  const TimeUpdate := "timeUpdate"
  const TimerFinished := "timerFinished"
  const TimerStart := "timerStart"
  const TimerPause := "timerPause"
  const TimerReset := "timerReset"
  const AddTimeEvent := "addTime"

  /** The data argument of `emit`; `NoData` is an omitted argument. */
  datatype Payload = NoData | Flag(b: bool) | Seconds(n: int) | NotANumber

  datatype Emitted = Emitted(name: string, data: Payload)

  /**
   * The `worker.onmessage` mapping: any message with a `timeLeft` (0 and NaN
   * included) is a time update; only a message without one can be `finished`.
   */
  function ReplyEvent(r: W.Reply): (e: Emitted)
    ensures e.name == TimeUpdate <==> !r.Finished?
    ensures e.name == TimerFinished <==> r.Finished?
    ensures r.TimeLeft? ==> e.data == Seconds(r.seconds)
    ensures r.TimeLeftNaN? ==> e.data == NotANumber
  {
    match r
    case TimeLeft(t) => Emitted(TimeUpdate, Seconds(t))
    case TimeLeftNaN => Emitted(TimeUpdate, NotANumber)
    case Finished => Emitted(TimerFinished, NoData)
  }

  /** The manager's fields. */
  datatype Proxy = Proxy(isRunning: bool, initialDuration: int)

  /** A new manager: not running, initial duration 0. */
  const Fresh := Proxy(false, 0)

  /** A call on the manager from the application. */
  datatype Call = CallStart(duration: int) | CallPause | CallReset | CallAddTime(seconds: int)

  /** A call's new fields, the one command it posts and the one event it emits. */
  datatype Effect = Effect(next: Proxy, command: W.Command, event: Emitted)

  function Translate(p: Proxy, c: Call): (r: Effect)
    ensures c.CallAddTime? ==> r.next == p
    ensures c.CallReset? ==> r.command == W.Reset(p.initialDuration)
    ensures r.next.isRunning <==> c.CallStart? || (c.CallAddTime? && p.isRunning)
  {
    match c
    case CallStart(d) => Effect(Proxy(true, d), W.Start(d), Emitted(TimerStart, Flag(true)))
    case CallPause => Effect(p.(isRunning := false), W.Pause, Emitted(TimerPause, Flag(false)))
    case CallReset => Effect(p.(isRunning := false), W.Reset(p.initialDuration), Emitted(TimerReset, Seconds(p.initialDuration)))
    case CallAddTime(k) => Effect(p, W.AddTime(k), Emitted(AddTimeEvent, Seconds(k)))
  }

  /** The fields after a sequence of calls. */
  function After(p: Proxy, calls: seq<Call>): Proxy
    decreases |calls|
  {
    if calls == [] then p else After(Translate(p, calls[0]).next, calls[1..])
  }

  /** The commands posted to the worker by a sequence of calls, in call order. */
  function Commands(p: Proxy, calls: seq<Call>): (r: seq<W.Command>)
    ensures |r| == |calls|
    decreases |calls|
  {
    if calls == [] then []
    else
      var e := Translate(p, calls[0]);
      [e.command] + Commands(e.next, calls[1..])
  }

  /** The duration of the most recent start, or `initial` when there was none. */
  function LastStart(initial: int, calls: seq<Call>): int
    decreases |calls|
  {
    if calls == [] then initial
    else if calls[|calls| - 1].CallStart? then calls[|calls| - 1].duration
    else LastStart(initial, calls[..|calls| - 1])
  }

  predicate SameKind(c: Call, cmd: W.Command)
  {
    match c
    case CallStart(d) => cmd == W.Start(d)
    case CallPause => cmd == W.Pause
    case CallReset => cmd.Reset?
    case CallAddTime(k) => cmd == W.AddTime(k)
  }

  /** Each call posts exactly one worker message of its own kind, in call order. */
  lemma {:induction false} OneCommandPerCall(p: Proxy, calls: seq<Call>)
    ensures forall i :: 0 <= i < |calls| ==> SameKind(calls[i], Commands(p, calls)[i])
    decreases |calls|
  {
    if calls != [] {
      OneCommandPerCall(Translate(p, calls[0]).next, calls[1..]);
    }
  }

  lemma {:induction false} AfterAppend(p: Proxy, calls: seq<Call>, c: Call)
    ensures After(p, calls + [c]) == Translate(After(p, calls), c).next
    ensures Commands(p, calls + [c]) == Commands(p, calls) + [Translate(After(p, calls), c).command]
    decreases |calls|
  {
    if calls == [] {
      assert calls + [c] == [c];
    } else {
      assert (calls + [c])[0] == calls[0];
      assert (calls + [c])[1..] == calls[1..] + [c];
      AfterAppend(Translate(p, calls[0]).next, calls[1..], c);
    }
  }

  /**
   * `initialDuration` is the duration of the most recent start: pause, reset
   * and addTime never change it, so a reset after addTime restores the start duration.
   */
  lemma {:induction false} InitialDurationIsLastStart(p: Proxy, calls: seq<Call>)
    ensures After(p, calls).initialDuration == LastStart(p.initialDuration, calls)
    decreases |calls|
  {
    if calls != [] {
      var pre, c := calls[..|calls| - 1], calls[|calls| - 1];
      assert calls == pre + [c];
      AfterAppend(p, pre, c);
      InitialDurationIsLastStart(p, pre);
    }
  }

  /** A reset sends the most recent start's duration; before any start that is 0. */
  lemma ResetSendsLastStart(calls: seq<Call>)
    ensures Commands(Fresh, calls + [CallReset])
      == Commands(Fresh, calls) + [W.Reset(LastStart(0, calls))]
  {
    AfterAppend(Fresh, calls, CallReset);
    InitialDurationIsLastStart(Fresh, calls);
  }

  /** The worker events for commands delivered in order at the given times. */
  function Deliveries(cmds: seq<W.Command>, nows: seq<int>): (r: seq<W.Event>)
    requires |nows| == |cmds|
    ensures |r| == |cmds| && forall i :: 0 <= i < |cmds| ==> r[i] == W.Deliver(cmds[i], nows[i])
  {
    seq(|cmds|, i requires 0 <= i < |cmds| => W.Deliver(cmds[i], nows[i]))
  }

  /**
   * The cross-context protocol over an in-order channel: whatever the calls
   * and whatever the worker's state, once a reset has been delivered the worker
   * shows the most recent start's duration, paused and disarmed, and its last
   * reply is that duration.
   */
  lemma ProtocolReset(ws: W.State, calls: seq<Call>, nows: seq<int>, at: int)
    requires |nows| == |calls|
    ensures var cmds := Commands(Fresh, calls + [CallReset]);
      var r := W.Run(ws, Deliveries(cmds, nows + [at]));
      r.next.timeLeft == LastStart(0, calls) && r.next.isPaused && !r.next.armed &&
      |r.posted| > 0 && r.posted[|r.posted| - 1] == W.TimeLeft(LastStart(0, calls))
  {
    var cmds := Commands(Fresh, calls + [CallReset]);
    ResetSendsLastStart(calls);
    OneCommandPerCall(Fresh, calls);
    var d := LastStart(0, calls);
    var evs := Deliveries(cmds, nows + [at]);
    var front := Deliveries(Commands(Fresh, calls), nows);
    assert evs == front + [W.Deliver(W.Reset(d), at)];
    W.RunAppend(ws, front, [W.Deliver(W.Reset(d), at)]);
    var mid := W.Run(ws, front).next;
    assert [W.Deliver(W.Reset(d), at)][1..] == [];
    assert W.Run(mid, [W.Deliver(W.Reset(d), at)]) == W.ResetStep(mid, d, at);
  }

  /** The manager object: fields updated in place, worker messages and events appended. */
  class TimerManager {
    var isRunning: bool
    var initialDuration: int
    var toWorker: seq<W.Command>
    var emitted: seq<Emitted>

    function Snapshot(): Proxy
      reads this
    {
      Proxy(isRunning, initialDuration)
    }

    constructor ()
      ensures Snapshot() == Fresh && toWorker == [] && emitted == []
    {
      isRunning, initialDuration := false, 0;
      toWorker, emitted := [], [];
    }

    method Start(duration: int)
      modifies this
      ensures var e := Translate(old(Snapshot()), CallStart(duration));
        Snapshot() == e.next && toWorker == old(toWorker) + [e.command] && emitted == old(emitted) + [e.event]
    {
      initialDuration := duration;
      toWorker := toWorker + [W.Start(duration)];
      isRunning := true;
      emitted := emitted + [Emitted(TimerStart, Flag(isRunning))];
    }

    method Pause()
      modifies this
      ensures var e := Translate(old(Snapshot()), CallPause);
        Snapshot() == e.next && toWorker == old(toWorker) + [e.command] && emitted == old(emitted) + [e.event]
    {
      toWorker := toWorker + [W.Pause];
      isRunning := false;
      emitted := emitted + [Emitted(TimerPause, Flag(isRunning))];
    }

    method Reset()
      modifies this
      ensures var e := Translate(old(Snapshot()), CallReset);
        Snapshot() == e.next && toWorker == old(toWorker) + [e.command] && emitted == old(emitted) + [e.event]
    {
      toWorker := toWorker + [W.Reset(initialDuration)];
      isRunning := false;
      emitted := emitted + [Emitted(TimerReset, Seconds(initialDuration))];
    }

    method AddTime(seconds: int)
      modifies this
      ensures var e := Translate(old(Snapshot()), CallAddTime(seconds));
        Snapshot() == e.next && toWorker == old(toWorker) + [e.command] && emitted == old(emitted) + [e.event]
    {
      toWorker := toWorker + [W.AddTime(seconds)];
      emitted := emitted + [Emitted(AddTimeEvent, Seconds(seconds))];
    }

    /** A worker reply becomes one event; `finished` does not clear `isRunning`. */
    method OnWorkerMessage(r: W.Reply)
      modifies this`emitted
      ensures emitted == old(emitted) + [ReplyEvent(r)]
    {
      match r
      case TimeLeft(t) => emitted := emitted + [Emitted(TimeUpdate, Seconds(t))];
      case TimeLeftNaN => emitted := emitted + [Emitted(TimeUpdate, NotANumber)];
      case Finished => emitted := emitted + [Emitted(TimerFinished, NoData)];
    }
  }
}
