/**
 * The deadline-based timer worker (workers/timer-worker.js).
 *
 * The worker keeps four module-level variables and a 1-second interval. Every
 * tick recomputes the seconds left from an absolute deadline, so the value does
 * not depend on how many ticks ran. `Date.now()` is the `now` parameter of each
 * operation, the interval is the `armed` flag plus an explicit tick, and
 * `postMessage` appends to an outbox.
 */
module DeadlineWorker {
  import opened Wrappers

  /** The `command` field of a message from the page. */
  datatype Command =
    | Start(duration: int)
    | Pause
    | Reset(duration: int)
    | AddTime(seconds: int)
    | Stop
    | Unknown(name: string)   // any other command string, `resume` included

  /** What the worker posts: `{timeLeft}` (possibly NaN) or `{command: 'finished'}`. */
  datatype Reply = TimeLeft(seconds: int) | TimeLeftNaN | Finished

  /**
   * The values of `targetTime`, `timeLeft`, `isPaused` and the interval.
   * `numeric` is false while `targetTime` and `timeLeft` are still `undefined`
   * (before the first start or reset) or NaN (an addTime applied to `undefined`).
   */
  datatype State = State(targetTime: int, timeLeft: int, numeric: bool, isPaused: bool, armed: bool)

  /** The state when the worker script has just been loaded. */
  const Loaded := State(0, 0, false, false, false)

  /** The state after one message or tick, and what it posted, in order. */
  datatype Step = Step(next: State, posted: seq<Reply>)

  /** An armed interval always belongs to an unpaused countdown with a numeric deadline. */
  predicate Consistent(s: State)
  {
    s.armed ==> !s.isPaused && s.numeric
  }

  /** `Math.round(ms / 1000)` on whole milliseconds: the nearest integer, halves rounded up. */
  function RoundSeconds(ms: int): (r: int)
    ensures 1000 * r - 500 <= ms < 1000 * r + 500
  {
    (ms + 500) / 1000
  }

  /** `Math.max(0, Math.round((targetTime - now) / 1000))`. */
  function Remaining(targetTime: int, now: int): (r: nat)
    ensures r == 0 <==> targetTime - now < 500
    ensures r > 0 ==> 1000 * r - 500 <= targetTime - now < 1000 * r + 500
  {
    var x := RoundSeconds(targetTime - now);
    if x > 0 then x else 0
  }

  /** startTimer(duration) followed by runTimer(): a fresh deadline and one armed interval. */
  function StartStep(s: State, duration: int, now: int): (r: Step)
    ensures Consistent(r.next) && r.next.armed && r.posted == []
    ensures r.next.timeLeft == duration && r.next.targetTime == now + 1000 * duration
    ensures !r.next.isPaused && r.next.numeric
  {
    Step(State(now + duration * 1000, duration, true, false, true), [])
  }

  /** pauseTimer() and stopTimer() have the same effect: paused, interval cleared. */
  function HaltStep(s: State): (r: Step)
    ensures Consistent(r.next) && !r.next.armed && r.next.isPaused && r.posted == []
    ensures r.next.targetTime == s.targetTime && r.next.timeLeft == s.timeLeft && r.next.numeric == s.numeric
  {
    Step(s.(isPaused := true, armed := false), [])
  }

  /** resetTimer(duration): cleared, a fresh deadline, paused, one `{timeLeft: duration}`. */
  function ResetStep(s: State, duration: int, now: int): (r: Step)
    ensures Consistent(r.next) && !r.next.armed && r.next.isPaused
    ensures r.posted == [TimeLeft(duration)] && r.next.timeLeft == duration
    ensures r.next.targetTime == now + 1000 * duration && r.next.numeric
  {
    Step(State(now + duration * 1000, duration, true, true, false), [TimeLeft(duration)])
  }

  /** addTime(seconds): no state guard; both numbers move, the interval is untouched. */
  function AddTimeStep(s: State, seconds: int): (r: Step)
    ensures r.next.isPaused == s.isPaused && r.next.armed == s.armed && r.next.numeric == s.numeric
    ensures |r.posted| == 1 && (s.numeric <==> r.posted[0] == TimeLeft(r.next.timeLeft))
    ensures s.numeric ==> r.next.timeLeft == s.timeLeft + seconds
    ensures s.numeric ==> r.next.targetTime == s.targetTime + 1000 * seconds
  {
    if s.numeric then
      var t := s.timeLeft + seconds;
      Step(s.(timeLeft := t, targetTime := s.targetTime + seconds * 1000), [TimeLeft(t)])
    else
      Step(s, [TimeLeftNaN])
  }

  /** One firing of the interval callback. */
  function TickStep(s: State, now: int): (r: Step)
    ensures !s.armed || s.isPaused ==> r == Step(s, [])
    ensures s.armed && !s.isPaused ==> r.next.timeLeft == Remaining(s.targetTime, now)
    ensures r.next.targetTime == s.targetTime && r.next.numeric == s.numeric
    ensures r.next.isPaused == s.isPaused && (r.next.armed ==> s.armed)
    ensures s.armed && !s.isPaused ==>
      r.posted == [TimeLeft(r.next.timeLeft)] + (if r.next.timeLeft == 0 then [Finished] else [])
    ensures s.armed && !s.isPaused ==> (r.next.armed <==> r.next.timeLeft > 0)
  {
    if !s.armed || s.isPaused then Step(s, [])
    else
      var t := Remaining(s.targetTime, now);
      if t <= 0 then Step(s.(timeLeft := t, armed := false), [TimeLeft(t), Finished])
      else Step(s.(timeLeft := t), [TimeLeft(t)])
  }

  /** The `onmessage` dispatch: unknown commands change nothing and post nothing. */
  function Handle(s: State, cmd: Command, now: int): (r: Step)
    ensures cmd.Unknown? ==> r == Step(s, [])
    ensures r.next.armed ==> cmd.Start? || s.armed
    ensures Finished !in r.posted
  {
    match cmd
    case Start(d) => StartStep(s, d, now)
    case Pause => HaltStep(s)
    case Reset(d) => ResetStep(s, d, now)
    case AddTime(k) => AddTimeStep(s, k)
    case Stop => HaltStep(s)
    case Unknown(_) => Step(s, [])
  }

  /** What reaches the worker: a message delivered at time `at`, or the interval firing at `at`. */
  datatype Event = Deliver(cmd: Command, at: int) | Fire(at: int)

  function Apply(s: State, e: Event): Step
  {
    match e
    case Deliver(cmd, at) => Handle(s, cmd, at)
    case Fire(at) => TickStep(s, at)
  }

  /** Events applied in order; the replies are concatenated in posting order. */
  function Run(s: State, events: seq<Event>): Step
    decreases |events|
  {
    if events == [] then Step(s, [])
    else
      var a := Apply(s, events[0]);
      var b := Run(a.next, events[1..]);
      Step(b.next, a.posted + b.posted)
  }

  /** Unfolds `Run` once on a sequence given as its first event and the rest. */
  lemma RunCons(s: State, e: Event, rest: seq<Event>)
    ensures Run(s, [e] + rest) ==
      Step(Run(Apply(s, e).next, rest).next, Apply(s, e).posted + Run(Apply(s, e).next, rest).posted)
  {
    assert ([e] + rest)[0] == e && ([e] + rest)[1..] == rest;
  }

  lemma {:induction false} RunAppend(s: State, e1: seq<Event>, e2: seq<Event>)
    ensures Run(s, e1 + e2) ==
      Step(Run(Run(s, e1).next, e2).next, Run(s, e1).posted + Run(Run(s, e1).next, e2).posted)
    decreases |e1|, 1
  {
    if e1 == [] {
      assert e1 + e2 == e2;
    } else {
      assert e1 == [e1[0]] + e1[1..];
      RunAppendCons(s, e1[0], e1[1..], e2);
    }
  }

  /** The inductive step of `RunAppend`, for a first part given as its first event and the rest. */
  lemma {:induction false} RunAppendCons(s: State, e: Event, rest: seq<Event>, e2: seq<Event>)
    ensures Run(s, [e] + rest + e2) ==
      Step(Run(Run(s, [e] + rest).next, e2).next, Run(s, [e] + rest).posted + Run(Run(s, [e] + rest).next, e2).posted)
    decreases |rest| + 1, 0
  {
    var a := Apply(s, e);
    var b := Run(a.next, rest);
    var c := Run(b.next, e2);
    ConcatAssoc([e], rest, e2);
    RunCons(s, e, rest);
    RunCons(s, e, rest + e2);
    RunAppend(a.next, rest, e2);
    ConcatAssoc(a.posted, b.posted, c.posted);
  }

  function CountFinished(rs: seq<Reply>): nat
  {
    if rs == [] then 0 else (if rs[0] == Finished then 1 else 0) + CountFinished(rs[1..])
  }

  lemma {:induction false} CountFinishedAppend(a: seq<Reply>, b: seq<Reply>)
    ensures CountFinished(a + b) == CountFinished(a) + CountFinished(b)
  {
    if a != [] {
      assert (a + b)[0] == a[0];
      assert (a + b)[1..] == a[1..] + b;
      CountFinishedAppend(a[1..], b);
    } else {
      assert a + b == b;
    }
  }

  predicate IsStart(e: Event) { e.Deliver? && e.cmd.Start? }

  /** Events that leave the deadline alone: ticks, pause, stop and unknown commands. */
  predicate KeepsDeadline(e: Event)
  {
    e.Fire? || e.cmd.Pause? || e.cmd.Stop? || e.cmd.Unknown?
  }

  /** Every message and tick keeps an armed interval tied to a running, numeric countdown. */
  lemma {:induction false} RunKeepsConsistent(s: State, events: seq<Event>)
    requires Consistent(s)
    ensures Consistent(Run(s, events).next)
    decreases |events|
  {
    if events != [] {
      RunKeepsConsistent(Apply(s, events[0]).next, events[1..]);
    }
  }

  /**
   * Between two starts at most one `finished` is posted, and none at all when
   * the interval was not armed to begin with (after a pause, stop or reset).
   */
  lemma {:induction false} FinishedAtMostOncePerRun(s: State, events: seq<Event>)
    requires forall i :: 0 <= i < |events| ==> !IsStart(events[i])
    ensures CountFinished(Run(s, events).posted) <= if s.armed then 1 else 0
    decreases |events|
  {
    if events != [] {
      var a := Apply(s, events[0]);
      var b := Run(a.next, events[1..]);
      FinishedAtMostOncePerRun(a.next, events[1..]);
      CountFinishedAppend(a.posted, b.posted);
      if events[0].Fire? && s.armed && !s.isPaused && a.next.timeLeft == 0 {
        assert CountFinished(a.posted) == 1;
      } else {
        assert CountFinished(a.posted) == 0;
      }
    }
  }

  /** After a reset, nothing short of a new start makes the worker post `finished`. */
  lemma ResetSilencesFinished(s: State, duration: int, now: int, events: seq<Event>)
    requires forall i :: 0 <= i < |events| ==> !IsStart(events[i])
    ensures CountFinished(Run(ResetStep(s, duration, now).next, events).posted) == 0
  {
    FinishedAtMostOncePerRun(ResetStep(s, duration, now).next, events);
  }

  /** A run that is never paused posts `finished` exactly once once a tick lands within half a second of the deadline. */
  lemma {:induction false} FinishedExactlyOnce(s: State, nows: seq<int>)
    requires s.armed && !s.isPaused
    requires |nows| > 0 && s.targetTime - nows[|nows| - 1] < 500
    ensures CountFinished(Run(s, FiresAt(nows)).posted) == 1
    ensures !Run(s, FiresAt(nows)).next.armed
    decreases |nows|
  {
    var events := FiresAt(nows);
    var a := Apply(s, events[0]);
    var b := Run(a.next, events[1..]);
    assert events[1..] == FiresAt(nows[1..]);
    CountFinishedAppend(a.posted, b.posted);
    if a.next.armed {
      assert |nows| > 1;
      FinishedExactlyOnce(a.next, nows[1..]);
    } else {
      FinishedAtMostOncePerRun(a.next, events[1..]);
      DisarmedStaysDisarmed(a.next, events[1..]);
    }
  }

  function FiresAt(nows: seq<int>): (r: seq<Event>)
    ensures |r| == |nows| && forall i :: 0 <= i < |nows| ==> r[i] == Fire(nows[i])
  {
    seq(|nows|, i requires 0 <= i < |nows| => Fire(nows[i]))
  }

  lemma {:induction false} DisarmedStaysDisarmed(s: State, events: seq<Event>)
    requires !s.armed
    requires forall i :: 0 <= i < |events| ==> !IsStart(events[i])
    ensures !Run(s, events).next.armed
    decreases |events|
  {
    if events != [] {
      DisarmedStaysDisarmed(Apply(s, events[0]).next, events[1..]);
    }
  }

  /** Ticks, pauses, stops and unknown commands never move the deadline. */
  lemma {:induction false} DeadlineUnchanged(s: State, events: seq<Event>)
    requires forall i :: 0 <= i < |events| ==> KeepsDeadline(events[i])
    ensures Run(s, events).next.targetTime == s.targetTime
    ensures Run(s, events).next.numeric == s.numeric
    decreases |events|
  {
    if events != [] {
      DeadlineUnchanged(Apply(s, events[0]).next, events[1..]);
    }
  }

  lemma RoundWholeSeconds(k: int)
    ensures RoundSeconds(1000 * k) == k
  {
  }

  /**
   * No drift: however many ticks (and unknown commands) ran since start(d) at t0,
   * a tick at t0 + 1000 k posts d - k while the countdown is still armed.
   */
  lemma TickWithoutDrift(s: State, d: int, t0: int, events: seq<Event>, k: int)
    requires forall i :: 0 <= i < |events| ==> KeepsDeadline(events[i])
    requires k <= d
    ensures var s2 := Run(StartStep(s, d, t0).next, events).next;
      s2.armed ==>
        TickStep(s2, t0 + 1000 * k).posted == [TimeLeft(d - k)] + (if k == d then [Finished] else [])
  {
    var s1 := StartStep(s, d, t0).next;
    DeadlineUnchanged(s1, events);
    RunKeepsConsistent(s1, events);
    RoundWholeSeconds(d - k);
    assert s1.targetTime - (t0 + 1000 * k) == 1000 * (d - k);
  }

  lemma RoundShift(ms: int, k: int)
    ensures RoundSeconds(ms + 1000 * k) == RoundSeconds(ms) + k
  {
    var r := RoundSeconds(ms);
    var r2 := RoundSeconds(ms + 1000 * k);
    assert 1000 * r2 - 500 <= ms + 1000 * k < 1000 * r2 + 500;
    assert 1000 * (r2 - k) - 500 <= ms < 1000 * (r2 - k) + 500;
    assert 1000 * r - 500 <= ms < 1000 * r + 500;
  }

  /**
   * addTime(k) on a running countdown moves every later tick by exactly k
   * seconds (until it clamps at 0): whatever ticks, pauses and stops come
   * after it, a tick at `now` that still finds the interval armed reports the
   * rounded time to the old deadline plus k.
   */
  lemma AddTimeShiftsLaterTicks(s: State, k: int, events: seq<Event>, now: int)
    requires s.armed && Consistent(s)
    requires forall i :: 0 <= i < |events| ==> KeepsDeadline(events[i])
    ensures var s2 := Run(AddTimeStep(s, k).next, events).next;
      var t := RoundSeconds(s.targetTime - now) + k;
      s2.armed ==> TickStep(s2, now).next.timeLeft == if t > 0 then t else 0
  {
    var s1 := AddTimeStep(s, k).next;
    DeadlineUnchanged(s1, events);
    RunKeepsConsistent(s1, events);
    RoundShift(s.targetTime - now, k);
    assert s1.targetTime - now == (s.targetTime - now) + 1000 * k;
  }

  /** While paused (or stopped) ticks change nothing and post nothing. */
  lemma {:induction false} HaltFreezes(s: State, nows: seq<int>)
    ensures Run(HaltStep(s).next, FiresAt(nows)) == Step(HaltStep(s).next, [])
    decreases |nows|
  {
    if nows != [] {
      assert FiresAt(nows)[1..] == FiresAt(nows[1..]);
      HaltFreezes(s, nows[1..]);
    }
  }

  /** stop twice is stop once. */
  lemma StopIdempotent(s: State, now: int, later: int)
    ensures Handle(Handle(s, Stop, now).next, Stop, later) == Handle(s, Stop, now)
  {
  }

  /**
   * The worker's module state, updated in place by the message handlers and by
   * the interval callback. Each method is the JavaScript function of the same
   * name; its effect is the corresponding step function above.
   */
  class TimerWorker {
    var targetTime: int
    var timeLeft: int
    var numeric: bool
    var isPaused: bool
    var armed: bool
    var outbox: seq<Reply>

    function Snapshot(): State
      reads this
    {
      State(targetTime, timeLeft, numeric, isPaused, armed)
    }

    constructor ()
      ensures Snapshot() == Loaded && outbox == []
    {
      targetTime, timeLeft, numeric := 0, 0, false;
      isPaused, armed := false, false;
      outbox := [];
    }

    method OnMessage(cmd: Command, now: int)
      modifies this
      ensures Snapshot() == Handle(old(Snapshot()), cmd, now).next
      ensures outbox == old(outbox) + Handle(old(Snapshot()), cmd, now).posted
    {
      match cmd
      case Start(d) => StartTimer(d, now);
      case Pause => PauseTimer();
      case Reset(d) => ResetTimer(d, now);
      case AddTime(k) => AddTime(k);
      case Stop => StopTimer();
      case Unknown(_) =>
    }

    method StartTimer(duration: int, now: int)
      modifies this
      ensures Snapshot() == StartStep(old(Snapshot()), duration, now).next && outbox == old(outbox)
    {
      timeLeft := duration;
      targetTime := now + duration * 1000;
      numeric := true;
      isPaused := false;
      RunTimer();
    }

    /** clearInterval followed by setInterval: whatever was armed is replaced by one interval. */
    method RunTimer()
      modifies this`armed
      ensures armed
    {
      armed := true;
    }

    /** The interval callback. */
    method Tick(now: int)
      modifies this
      ensures Snapshot() == TickStep(old(Snapshot()), now).next
      ensures outbox == old(outbox) + TickStep(old(Snapshot()), now).posted
    {
      if !armed {
        return;
      }
      if !isPaused {
        timeLeft := Remaining(targetTime, now);
        outbox := outbox + [TimeLeft(timeLeft)];
        if timeLeft <= 0 {
          armed := false;
          outbox := outbox + [Finished];
        }
      }
    }

    method PauseTimer()
      modifies this
      ensures Snapshot() == HaltStep(old(Snapshot())).next && outbox == old(outbox)
    {
      isPaused := true;
      armed := false;
    }

    method ResetTimer(duration: int, now: int)
      modifies this
      ensures Snapshot() == ResetStep(old(Snapshot()), duration, now).next
      ensures outbox == old(outbox) + [TimeLeft(duration)]
    {
      armed := false;
      timeLeft := duration;
      targetTime := now + duration * 1000;
      numeric := true;
      isPaused := true;
      outbox := outbox + [TimeLeft(timeLeft)];
    }

    method AddTime(seconds: int)
      modifies this
      ensures Snapshot() == AddTimeStep(old(Snapshot()), seconds).next
      ensures outbox == old(outbox) + AddTimeStep(old(Snapshot()), seconds).posted
    {
      if numeric {
        timeLeft := timeLeft + seconds;
        targetTime := targetTime + seconds * 1000;
        outbox := outbox + [TimeLeft(timeLeft)];
      } else {
        outbox := outbox + [TimeLeftNaN];
      }
    }

    method StopTimer()
      modifies this
      ensures Snapshot() == HaltStep(old(Snapshot())).next && outbox == old(outbox)
    {
      armed := false;
      isPaused := true;
    }
  }
}
