/**
 * The counter-based timer worker (timer-worker.js).
 *
 * Each `start` creates a new 1-second interval whose closure counter is
 * decremented on every firing, without clamping; the global `timer` keeps only
 * the handle of the most recent one. Intervals are indexed by handle in
 * creation order, and `Fire(i)` is interval `i` firing.
 */
module CounterWorker {
  import opened Wrappers

  datatype Command = Start(duration: int) | Stop | Unknown(name: string)

  datatype Reply = TimeLeft(seconds: int) | Finished

  /** One interval: its closure counter `timeLeft` and whether it is still set. */
  datatype Interval = Interval(timeLeft: int, active: bool)

  /** Every interval created so far, by handle, and the global `timer` handle. */
  datatype State = State(intervals: seq<Interval>, timer: Option<nat>)

  const Loaded := State([], None)

  datatype Step = Step(next: State, posted: seq<Reply>)

  /** `clearInterval(h)`: a no-op for `undefined` or an unknown handle. */
  function Clear(s: State, h: Option<nat>): (r: State)
    ensures |r.intervals| == |s.intervals| && r.timer == s.timer
    ensures forall j :: 0 <= j < |s.intervals| ==>
      r.intervals[j] == if h == Some(j) then s.intervals[j].(active := false) else s.intervals[j]
  {
    if h.Some? && h.value < |s.intervals|
    then s.(intervals := s.intervals[h.value := s.intervals[h.value].(active := false)])
    else s
  }

  /** startTimer(d): a new interval; the earlier ones are left running. */
  function StartStep(s: State, duration: int): (r: State)
    ensures |r.intervals| == |s.intervals| + 1 && r.intervals[..|s.intervals|] == s.intervals
    ensures r.intervals[|s.intervals|] == Interval(duration, true) && r.timer == Some(|s.intervals|)
  {
    State(s.intervals + [Interval(duration, true)], Some(|s.intervals|))
  }

  /** stopTimer(): clears only the interval whose handle is in `timer`. */
  /** stopTimer(): clears the interval held in `timer`, the latest one started, and only that one. */
  function StopStep(s: State): (r: State)
    ensures |r.intervals| == |s.intervals| && r.timer == s.timer
    ensures s.timer.Some? && s.timer.value < |s.intervals| ==> !r.intervals[s.timer.value].active
    ensures forall j :: 0 <= j < |s.intervals| && s.timer != Some(j) ==> r.intervals[j] == s.intervals[j]
  {
    Clear(s, s.timer)
  }

  /**
   * The interval callback AS WRITTEN: on reaching 0 or below it clears the
   * global `timer`, which is its own handle only if no later start happened.
   */
  function FireStepAsWritten(s: State, i: nat): (r: Step)
    ensures |r.next.intervals| == |s.intervals| && r.next.timer == s.timer
    ensures i >= |s.intervals| || !s.intervals[i].active ==> r == Step(s, [])
    ensures i < |s.intervals| && s.intervals[i].active ==>
      var t := s.intervals[i].timeLeft - 1;
      r.posted == [TimeLeft(t)] + (if t <= 0 then [Finished] else []) &&
      r.next.intervals[i] == Interval(t, t > 0 || s.timer != Some(i)) &&
      forall j :: 0 <= j < |s.intervals| && j != i ==>
        r.next.intervals[j] == if t <= 0 && s.timer == Some(j) then s.intervals[j].(active := false) else s.intervals[j]
  {
    if i >= |s.intervals| || !s.intervals[i].active then Step(s, [])
    else
      var t := s.intervals[i].timeLeft - 1;
      var s1 := s.(intervals := s.intervals[i := Interval(t, true)]);
      if t <= 0 then Step(Clear(s1, s.timer), [TimeLeft(t), Finished])
      else Step(s1, [TimeLeft(t)])
  }

  /** The interval callback as intended: on reaching 0 or below it clears its own interval. */
  function FireStep(s: State, i: nat): (r: Step)
    ensures |r.next.intervals| == |s.intervals| && r.next.timer == s.timer
    ensures forall j :: 0 <= j < |s.intervals| && j != i ==> r.next.intervals[j] == s.intervals[j]
    ensures i >= |s.intervals| || !s.intervals[i].active ==> r == Step(s, [])
    ensures i < |s.intervals| && s.intervals[i].active ==>
      var t := s.intervals[i].timeLeft - 1;
      r.next.intervals[i] == Interval(t, t > 0) &&
      r.posted == [TimeLeft(t)] + (if t <= 0 then [Finished] else [])
  {
    if i >= |s.intervals| || !s.intervals[i].active then Step(s, [])
    else
      var t := s.intervals[i].timeLeft - 1;
      if t <= 0 then Step(s.(intervals := s.intervals[i := Interval(t, false)]), [TimeLeft(t), Finished])
      else Step(s.(intervals := s.intervals[i := Interval(t, true)]), [TimeLeft(t)])
  }

  /** The `onmessage` dispatch: only `start` and `stop` are acted on. */
  function Handle(s: State, cmd: Command): (r: Step)
    ensures r.posted == []
    ensures cmd.Unknown? ==> r.next == s
  {
    match cmd
    case Start(d) => Step(StartStep(s, d), [])
    case Stop => Step(StopStep(s), [])
    case Unknown(_) => Step(s, [])
  }

  /**
   * The two callbacks differ only when an interval other than the one in
   * `timer` reaches 0, which takes a second `start` before it finished.
   */
  lemma AsWrittenAgrees(s: State, i: nat)
    requires s.timer == Some(i) ||
      !(i < |s.intervals| && s.intervals[i].active && s.intervals[i].timeLeft <= 1)
    ensures FireStepAsWritten(s, i) == FireStep(s, i)
  {
    if i < |s.intervals| && s.intervals[i].active {
      var t := s.intervals[i].timeLeft - 1;
      var s1 := s.(intervals := s.intervals[i := Interval(t, true)]);
      if t <= 0 {
        assert Clear(s1, s.timer).intervals == s.intervals[i := Interval(t, false)];
      }
    }
  }

  /** Which interval the callback clears when its counter runs out: the global `timer`, as written, or its own. */
  datatype Callback = AsWritten | Intended

  function FireWith(cb: Callback, s: State, i: nat): Step
  {
    if cb == AsWritten then FireStepAsWritten(s, i) else FireStep(s, i)
  }

  datatype Event = Deliver(cmd: Command) | FireOf(handle: nat)

  function Apply(cb: Callback, s: State, e: Event): Step
  {
    match e
    case Deliver(cmd) => Handle(s, cmd)
    case FireOf(i) => FireWith(cb, s, i)
  }

  /** Events applied in order with callback `cb`; the worker as written is `Run(AsWritten, ..)`. */
  function Run(cb: Callback, s: State, events: seq<Event>): Step
    decreases |events|
  {
    if events == [] then Step(s, [])
    else
      var a := Apply(cb, s, events[0]);
      var b := Run(cb, a.next, events[1..]);
      Step(b.next, a.posted + b.posted)
  }

  /** Unfolds `Run` once on a sequence given as its first event and the rest. */
  lemma RunCons(cb: Callback, s: State, e: Event, rest: seq<Event>)
    ensures Run(cb, s, [e] + rest) ==
      Step(Run(cb, Apply(cb, s, e).next, rest).next, Apply(cb, s, e).posted + Run(cb, Apply(cb, s, e).next, rest).posted)
  {
    assert ([e] + rest)[0] == e && ([e] + rest)[1..] == rest;
  }

  lemma {:induction false} RunAppend(cb: Callback, s: State, e1: seq<Event>, e2: seq<Event>)
    ensures Run(cb, s, e1 + e2) ==
      Step(Run(cb, Run(cb, s, e1).next, e2).next, Run(cb, s, e1).posted + Run(cb, Run(cb, s, e1).next, e2).posted)
    decreases |e1|, 1
  {
    if e1 == [] {
      assert e1 + e2 == e2;
    } else {
      assert e1 == [e1[0]] + e1[1..];
      RunAppendCons(cb, s, e1[0], e1[1..], e2);
    }
  }

  /** The inductive step of `RunAppend`, for a first part given as its first event and the rest. */
  lemma {:induction false} RunAppendCons(cb: Callback, s: State, e: Event, rest: seq<Event>, e2: seq<Event>)
    ensures Run(cb, s, [e] + rest + e2) ==
      Step(Run(cb, Run(cb, s, [e] + rest).next, e2).next,
           Run(cb, s, [e] + rest).posted + Run(cb, Run(cb, s, [e] + rest).next, e2).posted)
    decreases |rest| + 1, 0
  {
    var a := Apply(cb, s, e);
    var b := Run(cb, a.next, rest);
    var c := Run(cb, b.next, e2);
    ConcatAssoc([e], rest, e2);
    RunCons(cb, s, e, rest);
    RunCons(cb, s, e, rest + e2);
    RunAppend(cb, a.next, rest, e2);
    ConcatAssoc(a.posted, b.posted, c.posted);
  }

  lemma RunSingle(cb: Callback, s: State, e: Event)
    ensures Run(cb, s, [e]) == Apply(cb, s, e)
  {
    assert [e][1..] == [];
  }

  /** `n` firings of interval `i`. */
  function Fires(i: nat, n: nat): (r: seq<Event>)
    ensures |r| == n && forall k :: 0 <= k < n ==> r[k] == FireOf(i)
  {
    seq(n, _ => FireOf(i))
  }

  /** What a counter starting at `c` posts on its first `n` firings: c - 1, c - 2, ..., c - n. */
  function Countdown(c: int, n: nat): (r: seq<Reply>)
    ensures |r| == n && forall k :: 0 <= k < n ==> r[k] == TimeLeft(c - 1 - k)
  {
    seq(n, k => TimeLeft(c - 1 - k))
  }

  /** While the counter stays positive the k-th firing posts c - k and nothing else, with either callback. */
  lemma {:induction false} CountsDown(cb: Callback, s: State, i: nat, n: nat)
    requires i < |s.intervals| && s.intervals[i].active && n < s.intervals[i].timeLeft
    ensures var r := Run(cb, s, Fires(i, n));
      r.posted == Countdown(s.intervals[i].timeLeft, n) &&
      r.next.intervals == s.intervals[i := Interval(s.intervals[i].timeLeft - n, true)] &&
      r.next.timer == s.timer
    decreases n
  {
    var c := s.intervals[i].timeLeft;
    if n == 0 {
      assert s.intervals[i := Interval(c, true)] == s.intervals;
    } else {
      AsWrittenAgrees(s, i);
      var a := FireStep(s, i);
      assert Apply(cb, s, FireOf(i)) == a;
      assert Fires(i, n)[1..] == Fires(i, n - 1);
      CountsDown(cb, a.next, i, n - 1);
      assert a.next.intervals[i := Interval(c - 1 - (n - 1), true)] == s.intervals[i := Interval(c - n, true)];
      assert [TimeLeft(c - 1)] + Countdown(c - 1, n - 1) == Countdown(c, n);
    }
  }

  lemma {:induction false} InactiveIgnoresFires(cb: Callback, s: State, i: nat, n: nat)
    requires i >= |s.intervals| || !s.intervals[i].active
    ensures Run(cb, s, Fires(i, n)) == Step(s, [])
    decreases n
  {
    if n > 0 {
      assert Fires(i, n)[1..] == Fires(i, n - 1);
      InactiveIgnoresFires(cb, s, i, n - 1);
    }
  }

  /** The firing that takes the counter held in `timer` from 1 to 0 posts 0 and `finished` and clears it. */
  lemma LastFiring(cb: Callback, s: State, i: nat)
    requires i < |s.intervals| && s.intervals[i] == Interval(1, true) && s.timer == Some(i)
    ensures var f := Run(cb, s, Fires(i, 1));
      f.posted == [TimeLeft(0), Finished] && i < |f.next.intervals| && !f.next.intervals[i].active
  {
    assert Fires(i, 1) == [FireOf(i)];
    RunSingle(cb, s, FireOf(i));
    AsWrittenAgrees(s, i);
  }

  /**
   * For d >= 1 a run started with start(d) posts d - 1, ..., 1, 0 and then one
   * `finished`, on exactly its d-th firing; any number of later firings post
   * nothing. The interval is the one in `timer`, so this holds as written.
   */
  lemma FinishesOnDthFiring(cb: Callback, s: State, d: int, extra: nat)
    requires d >= 1
    ensures var i := |s.intervals|;
      var r := Run(cb, StartStep(s, d), Fires(i, d + extra));
      r.posted == Countdown(d, d) + [Finished] && i < |r.next.intervals| && !r.next.intervals[i].active
  {
    var i := |s.intervals|;
    var s1 := StartStep(s, d);
    assert Fires(i, d + extra) == Fires(i, d - 1) + Fires(i, 1) + Fires(i, extra);
    CountsDown(cb, s1, i, d - 1);
    var m := Run(cb, s1, Fires(i, d - 1));
    var f := Run(cb, m.next, Fires(i, 1));
    assert m.next.intervals[i] == Interval(1, true) && m.next.timer == Some(i);
    LastFiring(cb, m.next, i);
    InactiveIgnoresFires(cb, f.next, i, extra);
    RunAppend(cb, s1, Fires(i, d - 1), Fires(i, 1));
    RunAppend(cb, s1, Fires(i, d - 1) + Fires(i, 1), Fires(i, extra));
    assert Countdown(d, d - 1) + [TimeLeft(0)] == Countdown(d, d);
  }

  /** For d <= 0 there is no clamping: the first firing posts d - 1 and `finished` and clears the interval. */
  lemma NonPositiveDurationGoesNegative(s: State, d: int)
    requires d <= 0
    ensures var i := |s.intervals|;
      var r := FireStepAsWritten(StartStep(s, d), i);
      r.posted == [TimeLeft(d - 1), Finished] && !r.next.intervals[i].active
  {
  }

  /** A second start leaves the first interval running; stop then cancels only the second. */
  lemma StopCancelsOnlyLatest(s: State, d1: int, d2: int)
    ensures var n := |s.intervals|;
      var r := StopStep(StartStep(StartStep(s, d1), d2));
      r.intervals[n].active && !r.intervals[n + 1].active
  {
  }

  function ActiveCount(ivs: seq<Interval>): nat
  {
    if ivs == [] then 0 else (if ivs[0].active then 1 else 0) + ActiveCount(ivs[1..])
  }

  lemma {:induction false} ActiveCountUpdate(ivs: seq<Interval>, i: nat, x: Interval)
    requires i < |ivs|
    ensures ActiveCount(ivs[i := x]) ==
      ActiveCount(ivs) - (if ivs[i].active then 1 else 0) + (if x.active then 1 else 0)
  {
    if i > 0 {
      assert ivs[i := x][1..] == ivs[1..][i - 1 := x];
      ActiveCountUpdate(ivs[1..], i - 1, x);
    }
  }

  function CountFinished(rs: seq<Reply>): nat
  {
    if rs == [] then 0 else (if rs[0] == Finished then 1 else 0) + CountFinished(rs[1..])
  }

  lemma {:induction false} CountFinishedAppend(a: seq<Reply>, b: seq<Reply>)
    ensures CountFinished(a + b) == CountFinished(a) + CountFinished(b)
  {
    if a == [] {
      assert a + b == b;
    } else {
      assert (a + b)[0] == a[0];
      assert (a + b)[1..] == a[1..] + b;
      CountFinishedAppend(a[1..], b);
    }
  }

  lemma ClearActiveCount(s: State, h: Option<nat>)
    ensures ActiveCount(Clear(s, h).intervals) <= ActiveCount(s.intervals)
  {
    if h.Some? && h.value < |s.intervals| {
      ActiveCountUpdate(s.intervals, h.value, s.intervals[h.value].(active := false));
    }
  }

  /**
   * With the corrected callback every interval posts `finished` at most once:
   * without new starts, the `finished` messages never outnumber the intervals
   * that were set.
   */
  lemma {:induction false} FinishedAtMostOncePerInterval(s: State, events: seq<Event>)
    requires forall k :: 0 <= k < |events| ==> !(events[k].Deliver? && events[k].cmd.Start?)
    ensures CountFinished(Run(Intended, s, events).posted) + ActiveCount(Run(Intended, s, events).next.intervals)
      <= ActiveCount(s.intervals)
    decreases |events|
  {
    if events != [] {
      var a := Apply(Intended, s, events[0]);
      var b := Run(Intended, a.next, events[1..]);
      FinishedAtMostOncePerInterval(a.next, events[1..]);
      CountFinishedAppend(a.posted, b.posted);
      match events[0]
      case Deliver(cmd) =>
        if cmd.Stop? {
          ClearActiveCount(s, s.timer);
        }
      case FireOf(i) =>
        if i < |s.intervals| && s.intervals[i].active {
          var t := s.intervals[i].timeLeft - 1;
          ActiveCountUpdate(s.intervals, i, Interval(t, t > 0));
        }
    }
  }

  /**
   * As written, start(1) then start(5): the first run's callback cancels the
   * second run and keeps itself going, so two firings of the first interval
   * post `finished` twice, with one interval still set; the second run never
   * finishes.
   */
  lemma StackedStartsAsWritten()
    ensures var r := Run(AsWritten, StartStep(StartStep(Loaded, 1), 5), Fires(0, 2));
      r.posted == [TimeLeft(0), Finished, TimeLeft(-1), Finished] &&
      CountFinished(r.posted) == 2 && ActiveCount(r.next.intervals) == 1 &&
      !r.next.intervals[1].active && r.next.intervals[1].timeLeft == 5
  {
    var s := StartStep(StartStep(Loaded, 1), 5);
    var a := FireStepAsWritten(s, 0);
    assert a.next.intervals == [Interval(0, true), Interval(5, false)];
    var b := FireStepAsWritten(a.next, 0);
    assert b.next.intervals == [Interval(-1, true), Interval(5, false)];
    assert Fires(0, 2) == [FireOf(0)] + [FireOf(0)];
    RunAppend(AsWritten, s, [FireOf(0)], [FireOf(0)]);
    RunSingle(AsWritten, s, FireOf(0));
    RunSingle(AsWritten, a.next, FireOf(0));
    assert ActiveCount(b.next.intervals) == 1 by {
      var ivs := b.next.intervals;
      assert ivs[1..] == [Interval(5, false)];
      assert ivs[1..][1..] == [];
      assert ActiveCount(ivs[1..]) == 0;
    }
    CountFinishedAppend(a.posted, b.posted);
    assert CountFinished(a.posted) == 1 by {
      assert a.posted[1..] == [Finished];
      assert a.posted[1..][1..] == [];
    }
    assert CountFinished(b.posted) == 1 by {
      assert b.posted[1..] == [Finished];
      assert b.posted[1..][1..] == [];
    }
  }

  /** The worker's global state, updated in place; `Fire` runs the interval callback as written. */
  class CounterTimerWorker {
    var intervals: seq<Interval>
    var timer: Option<nat>
    var outbox: seq<Reply>

    function Snapshot(): State
      reads this
    {
      State(intervals, timer)
    }

    constructor ()
      ensures Snapshot() == Loaded && outbox == []
    {
      intervals, timer, outbox := [], None, [];
    }

    method OnMessage(cmd: Command)
      modifies this
      ensures Snapshot() == Handle(old(Snapshot()), cmd).next && outbox == old(outbox)
    {
      match cmd
      case Start(d) => StartTimer(d);
      case Stop => StopTimer();
      case Unknown(_) =>
    }

    method StartTimer(duration: int)
      modifies this
      ensures Snapshot() == StartStep(old(Snapshot()), duration) && outbox == old(outbox)
    {
      timer := Some(|intervals|);
      intervals := intervals + [Interval(duration, true)];
    }

    method StopTimer()
      modifies this
      ensures Snapshot() == StopStep(old(Snapshot())) && outbox == old(outbox)
    {
      if timer.Some? && timer.value < |intervals| {
        intervals := intervals[timer.value := intervals[timer.value].(active := false)];
      }
    }

    /**
     * Interval `i` fires: decrement its counter and post it; at 0 or below,
     * clear the interval held in `timer` and post `finished`.
     */
    method Fire(i: nat)
      modifies this
      ensures Snapshot() == FireStepAsWritten(old(Snapshot()), i).next
      ensures outbox == old(outbox) + FireStepAsWritten(old(Snapshot()), i).posted
    {
      if i < |intervals| && intervals[i].active {
        var timeLeft := intervals[i].timeLeft - 1;
        intervals := intervals[i := Interval(timeLeft, true)];
        outbox := outbox + [TimeLeft(timeLeft)];
        if timeLeft <= 0 {
          if timer.Some? && timer.value < |intervals| {
            intervals := intervals[timer.value := intervals[timer.value].(active := false)];
          }
          outbox := outbox + [Finished];
        }
      }
    }
  }
}
