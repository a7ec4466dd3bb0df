/**
 * The single-page tea timer (script.js): a countdown recomputed from an
 * absolute end time on every animation frame, the +10 s button, stop, and the
 * search filter over the tea list.
 *
 * `remainingTime` is held in whole milliseconds: the source computes it as
 * `(timerEndTime - now) / 1000` on whole-millisecond timestamps, so
 * `remainingMs / 1000` (as a real) is exactly its value, and its tests become
 * integer ones: `=== 0` is `now >= timerEndTime`, and `9.9 < r <= 10` is
 * `9900 < remainingMs <= 10000`.
 */
module TeaPage {
  import opened Wrappers
  import opened Clock

  /** What leaves the page: the ring sound, the notification, the beep. */
  datatype Effect = Ring | Notify | Beep

  /** The globals `timerRunning`, `timerEndTime`, `remainingTime`, `initialDuration` and the display text. */
  datatype Page = Page(timerRunning: bool, timerEndTime: int, remainingMs: int, initialDuration: int, display: string)

  datatype Step = Step(next: Page, effects: seq<Effect>)

  lemma ZeroReadsZeros()
    ensures FormatTime(0) == "00:00"
  {
    FormatTimeIsZeroOnlyForZero(0);
  }

  /** The page's display reads back, as MM:SS, as the whole seconds left. */
  lemma DisplayShowsWholeSeconds(ms: int)
    requires ms >= 0
    ensures ClockValue(FormatTime(ms / 1000)) == Some(ms / 1000)
  {
    FormatTimeRoundTrip(ms / 1000);
  }

  /** stopTimer(): not running, and the display shows zero seconds left. */
  function StopStep(p: Page): (r: Page)
    ensures !r.timerRunning
    ensures r.timerEndTime == p.timerEndTime && r.remainingMs == p.remainingMs
    ensures r.initialDuration == p.initialDuration
  {
    p.(timerRunning := false, display := FormatTime(0))
  }

  /** After stop the display reads 00:00. */
  lemma StopShowsZeros(p: Page)
    ensures StopStep(p).display == "00:00"
  {
    ZeroReadsZeros();
  }

  /**
   * updateTimer() at time `now`: nothing unless running; otherwise the time
   * left is recomputed from the end time, clamped at 0; reaching 0 stops the
   * timer, rings and notifies; inside the last 100 ms before the 10-second mark it beeps.
   * updateTimerDisplay's `Math.floor(r / 60)` and `Math.floor(r % 60)` of
   * r = remainingMs / 1000 are those of the whole seconds `remainingMs / 1000`.
   */
  function UpdateStep(p: Page, now: int): (r: Step)
    ensures !p.timerRunning ==> r == Step(p, [])
    ensures p.timerRunning ==> r.next.remainingMs >= 0
    ensures p.timerRunning ==> (r.next.remainingMs == 0 <==> now >= p.timerEndTime)
    ensures p.timerRunning ==> (r.next.timerRunning <==> now < p.timerEndTime)
    ensures p.timerRunning ==> r.effects == Sounds(r.next.remainingMs)
    ensures p.timerRunning ==> r.next.remainingMs == (if p.timerEndTime - now > 0 then p.timerEndTime - now else 0)
    ensures p.timerRunning ==> r.next.display == FormatTime(r.next.remainingMs / 1000)
    ensures r.next.timerEndTime == p.timerEndTime && r.next.initialDuration == p.initialDuration
  {
    if !p.timerRunning then Step(p, [])
    else
      var ms := if p.timerEndTime - now > 0 then p.timerEndTime - now else 0;
      var q := p.(remainingMs := ms);
      var r := if ms == 0 then StopStep(q) else q;
      Step(r.(display := FormatTime(ms / 1000)), Sounds(ms))
  }

  /** What an update with `ms` milliseconds left plays: the ring and notification at 0, the beep just before 10 s. */
  function Sounds(ms: int): (r: seq<Effect>)
    ensures Ring in r <==> ms == 0
    ensures Notify in r <==> ms == 0
    ensures Beep in r <==> 9900 < ms <= 10000
  {
    if ms == 0 then [Ring, Notify] else if 9900 < ms <= 10000 then [Beep] else []
  }

  /**
   * startTimer(): stops a running timer first; with a tea selected (its
   * duration for the current steeping style) it starts a run and updates at once.
   */
  function StartStep(p: Page, selected: Option<int>, now: int): (r: Step)
    ensures selected.None? ==> r == Step(if p.timerRunning then StopStep(p) else p, [])
    ensures selected.Some? ==> r.next.initialDuration == selected.value
    ensures selected.Some? ==> r.next.timerEndTime == now + 1000 * selected.value
    ensures selected.Some? && selected.value > 0 ==>
      r.next.timerRunning && r.next.remainingMs == 1000 * selected.value &&
      r.effects == (if selected.value == 10 then [Beep] else [])
    ensures selected.Some? && selected.value <= 0 ==> !r.next.timerRunning && r.effects == [Ring, Notify]
  {
    var q := if p.timerRunning then StopStep(p) else p;
    match selected
    case None => Step(q, [])
    case Some(d) => UpdateStep(Launched(q, d, now), now)
  }

  /** The page just before startTimer's first update: running towards `now + d` seconds. */
  function Launched(q: Page, d: int, now: int): Page
  {
    Page(true, now + d * 1000, d * 1000, d, q.display)
  }

  /** addTime(): ten more seconds, only while running. */
  function AddStep(p: Page): (r: Page)
    ensures !p.timerRunning ==> r == p
    ensures p.timerRunning ==> r.timerEndTime == p.timerEndTime + 10000
    ensures p.timerRunning ==> r.remainingMs == p.remainingMs + 10000 && r.initialDuration == p.initialDuration + 10
    ensures r.timerRunning == p.timerRunning && r.display == p.display
  {
    if p.timerRunning
    then p.(timerEndTime := p.timerEndTime + 10000, remainingMs := p.remainingMs + 10000,
            initialDuration := p.initialDuration + 10)
    else p
  }

  /** Stopping twice is stopping once. */
  lemma StopIdempotent(p: Page)
    ensures StopStep(StopStep(p)) == StopStep(p)
  {
  }

  /** +10 s while running postpones the ring by exactly ten seconds. */
  lemma AddPostponesRing(p: Page, now: int)
    requires p.timerRunning
    ensures Ring in UpdateStep(AddStep(p), now).effects <==> now >= p.timerEndTime + 10000
  {
  }

  datatype Event = StartClicked(selected: Option<int>, at: int) | AddClicked | StopClicked | Frame(at: int)

  function Apply(p: Page, e: Event): Step
  {
    match e
    case StartClicked(sel, at) => StartStep(p, sel, at)
    case AddClicked => Step(AddStep(p), [])
    case StopClicked => Step(StopStep(p), [])
    case Frame(at) => UpdateStep(p, at)
  }

  function Run(p: Page, events: seq<Event>): Step
    decreases |events|
  {
    if events == [] then Step(p, [])
    else
      var a := Apply(p, events[0]);
      var b := Run(a.next, events[1..]);
      Step(b.next, a.effects + b.effects)
  }

  function CountRings(es: seq<Effect>): nat
  {
    if es == [] then 0 else (if es[0] == Ring then 1 else 0) + CountRings(es[1..])
  }

  lemma {:induction false} CountRingsAppend(a: seq<Effect>, b: seq<Effect>)
    ensures CountRings(a + b) == CountRings(a) + CountRings(b)
  {
    if a == [] {
      assert a + b == b;
    } else {
      assert (a + b)[0] == a[0];
      assert (a + b)[1..] == a[1..] + b;
      CountRingsAppend(a[1..], b);
    }
  }

  /**
   * Without a new start, whatever the frames, stops and +10 s clicks, the page
   * rings at most once, and not at all when it was not running.
   */
  lemma {:induction false} RingsAtMostOncePerRun(p: Page, events: seq<Event>)
    requires forall i :: 0 <= i < |events| ==> !events[i].StartClicked?
    ensures CountRings(Run(p, events).effects) <= if p.timerRunning then 1 else 0
    decreases |events|
  {
    if events != [] {
      var a := Apply(p, events[0]);
      var b := Run(a.next, events[1..]);
      RingsAtMostOncePerRun(a.next, events[1..]);
      CountRingsAppend(a.effects, b.effects);
      if events[0].Frame? && p.timerRunning && events[0].at >= p.timerEndTime {
        assert a.effects == [Ring, Notify];
        assert CountRings(a.effects) == 1;
      } else {
        assert a.effects == [] || a.effects == [Beep];
      }
    }
  }

  /** Animation frames at the given instants. */
  function Frames(nows: seq<int>): (events: seq<Event>)
    ensures |events| == |nows|
    ensures nows != [] ==> events[0] == Frame(nows[0]) && events[1..] == Frames(nows[1..])
  {
    if nows == [] then [] else [Frame(nows[0])] + Frames(nows[1..])
  }

  /** Once stopped, animation frames change nothing and make no sound. */
  lemma {:induction false} StoppedFramesIdle(p: Page, nows: seq<int>)
    requires !p.timerRunning
    ensures Run(p, Frames(nows)) == Step(p, [])
    decreases |nows|
  {
    if nows != [] {
      StoppedFramesIdle(p, nows[1..]);
    }
  }

  /**
   * A running timer whose frames reach its end time rings exactly once, is
   * stopped and reads 00:00 afterwards, whatever frames come before or after.
   */
  lemma RingsOnceDeadlineReached(p: Page, nows: seq<int>)
    requires p.timerRunning && |nows| > 0 && nows[|nows| - 1] >= p.timerEndTime
    ensures CountRings(Run(p, Frames(nows)).effects) == 1
    ensures !Run(p, Frames(nows)).next.timerRunning && Run(p, Frames(nows)).next.display == "00:00"
  {
    RingsOnceThenZero(p, nows);
    ZeroReadsZeros();
  }

  /** The frame that reaches the end time rings once and stops at formatTime(0). */
  lemma LastFrameRings(p: Page, now: int)
    requires p.timerRunning && now >= p.timerEndTime
    ensures var a := UpdateStep(p, now);
      CountRings(a.effects) == 1 && !a.next.timerRunning && a.next.display == FormatTime(0)
  {
    var a := UpdateStep(p, now);
    assert a.next.remainingMs == 0;
    assert a.next.display == FormatTime(0 / 1000);
    assert a.effects == [Ring, Notify];
    assert CountRings([Notify]) == 0;
  }

  /** A frame before the end time does not ring and keeps the page running towards the same end. */
  lemma EarlyFrameSilent(p: Page, now: int)
    requires p.timerRunning && now < p.timerEndTime
    ensures var a := UpdateStep(p, now);
      CountRings(a.effects) == 0 && a.next.timerRunning && a.next.timerEndTime == p.timerEndTime
  {
    var a := UpdateStep(p, now);
    assert a.effects == [] || a.effects == [Beep];
  }

  lemma {:induction false} RingsOnceThenZero(p: Page, nows: seq<int>)
    requires p.timerRunning && |nows| > 0 && nows[|nows| - 1] >= p.timerEndTime
    ensures CountRings(Run(p, Frames(nows)).effects) == 1
    ensures !Run(p, Frames(nows)).next.timerRunning && Run(p, Frames(nows)).next.display == FormatTime(0)
    decreases |nows|
  {
    var events := Frames(nows);
    var a := UpdateStep(p, nows[0]);
    assert Apply(p, events[0]) == a;
    var b := Run(a.next, Frames(nows[1..]));
    assert Run(p, events) == Step(b.next, a.effects + b.effects);
    CountRingsAppend(a.effects, b.effects);
    if nows[0] >= p.timerEndTime {
      LastFrameRings(p, nows[0]);
      StoppedFramesIdle(a.next, nows[1..]);
      assert b == Step(a.next, []);
      assert CountRings(b.effects) == 0 && !b.next.timerRunning && b.next.display == FormatTime(0);
    } else {
      EarlyFrameSilent(p, nows[0]);
      var rest := nows[1..];
      assert |nows| > 1 && rest[|rest| - 1] == nows[|nows| - 1];
      RingsOnceThenZero(a.next, rest);
      assert CountRings(b.effects) == 1 && !b.next.timerRunning && b.next.display == FormatTime(0);
    }
    assert CountRings(a.effects + b.effects) == 1;
    assert Run(p, Frames(nows)).effects == a.effects + b.effects && Run(p, Frames(nows)).next == b.next;
  }

  /** The tea-list filter: ASCII letters are lowered (JavaScript lowers all of Unicode). */
  function LowerChar(c: char): char
  {
    if 'A' <= c <= 'Z' then (c as int + 32) as char else c
  }

  /** No ASCII capital survives; a capital becomes the letter 32 code points on, every other character stays. */
  function Lower(s: string): (r: string)
    ensures |r| == |s|
    ensures forall i :: 0 <= i < |r| ==> !('A' <= r[i] <= 'Z')
    ensures forall i :: 0 <= i < |s| && !('A' <= s[i] <= 'Z') ==> r[i] == s[i]
    ensures forall i :: 0 <= i < |s| && 'A' <= s[i] <= 'Z' ==> r[i] as int == s[i] as int + 32
  {
    seq(|s|, i requires 0 <= i < |s| => LowerChar(s[i]))
  }

  /** Lowering twice is lowering once. */
  lemma LowerIdempotent(s: string)
    ensures Lower(Lower(s)) == Lower(s)
  {
    var r := Lower(s);
    assert forall i :: 0 <= i < |r| ==> Lower(r)[i] == r[i];
  }

  /** `part` occurs in `text` starting at index `i`. */
  predicate OccursAt(text: string, part: string, i: int)
  {
    0 <= i <= |text| - |part| && text[i..i + |part|] == part
  }

  /** `text.includes(part)`. */
  function Contains(text: string, part: string): (b: bool)
    ensures b <==> exists i :: OccursAt(text, part, i)
    decreases |text|
  {
    if |part| > |text| then false
    else if text[..|part|] == part then
      assert OccursAt(text, part, 0);
      true
    else
      var r := Contains(text[1..], part);
      assert !OccursAt(text, part, 0) by {
        assert text[0..|part|] == text[..|part|];
      }
      forall i | OccursAt(text, part, i)
        ensures OccursAt(text[1..], part, i - 1)
      {
        OccursInTail(text, part, i);
      }
      forall j | OccursAt(text[1..], part, j)
        ensures OccursAt(text, part, j + 1)
      {
        OccursInTail(text, part, j + 1);
      }
      r
  }

  /** An occurrence at i >= 1 is an occurrence at i - 1 in the text without its first character. */
  lemma OccursInTail(text: string, part: string, i: int)
    requires text != [] && i >= 1
    ensures OccursAt(text, part, i) <==> OccursAt(text[1..], part, i - 1)
  {
    if 1 <= i <= |text| - |part| {
      assert text[1..][i - 1..i - 1 + |part|] == text[i..i + |part|];
    }
  }

  /** An item matches when its lowered name contains the lowered query. */
  predicate Matches(name: string, query: string)
  {
    Contains(Lower(name), Lower(query))
  }

  /** The empty query shows every tea; letter case in the query never matters. */
  lemma EmptyQueryMatchesAll(name: string)
    ensures Matches(name, "")
  {
    assert OccursAt(Lower(name), Lower(""), 0);
  }

  /** Every tea matches its own name, whatever its case. */
  lemma NameMatchesItself(name: string)
    ensures Matches(name, name)
  {
    assert OccursAt(Lower(name), Lower(name), 0) by {
      assert Lower(name)[0..|Lower(name)|] == Lower(name);
    }
  }

  /** Matching ignores the case of the tea's name too. */
  lemma CaseOfNameIgnored(name: string, query: string)
    ensures Matches(name, query) == Matches(Lower(name), query)
  {
    LowerIdempotent(name);
  }

  lemma CaseOfQueryIgnored(name: string, query: string)
    ensures Matches(name, query) == Matches(name, Lower(query))
  {
    LowerIdempotent(query);
  }

  /** A category of the list: its name, its teas' names and whether its content is shown. */
  datatype Category = Category(name: string, teas: seq<string>, open: bool)

  /** What filterTeaList leaves on the page for one category. */
  datatype CategoryView = CategoryView(buttonVisible: bool, open: bool, teaVisible: seq<bool>)

  predicate AnyMatch(teas: seq<string>, query: string)
  {
    exists t :: 0 <= t < |teas| && Matches(teas[t], query)
  }

  /**
   * filterTeaList (without its 300 ms debounce): every category button is
   * hidden, then each tea is shown iff it matches, and a match shows its
   * category's button and opens its content.
   */
  method FilterTeaList(categories: seq<Category>, query: string) returns (views: seq<CategoryView>)
    ensures |views| == |categories|
    ensures forall c :: 0 <= c < |categories| ==>
      |views[c].teaVisible| == |categories[c].teas| &&
      (forall t :: 0 <= t < |categories[c].teas| ==>
        (views[c].teaVisible[t] <==> Matches(categories[c].teas[t], query))) &&
      (views[c].buttonVisible <==> AnyMatch(categories[c].teas, query)) &&
      (views[c].open <==> categories[c].open || AnyMatch(categories[c].teas, query))
  {
    var filter := Lower(query);
    views := [];
    var c := 0;
    while c < |categories|
      invariant 0 <= c <= |categories| && |views| == c
      invariant forall k :: 0 <= k < c ==>
        |views[k].teaVisible| == |categories[k].teas| &&
        (forall t :: 0 <= t < |categories[k].teas| ==>
          (views[k].teaVisible[t] <==> Matches(categories[k].teas[t], query))) &&
        (views[k].buttonVisible <==> AnyMatch(categories[k].teas, query)) &&
        (views[k].open <==> categories[k].open || AnyMatch(categories[k].teas, query))
    {
      var teas := categories[c].teas;
      var shown := false;
      var visible: seq<bool> := [];
      var t := 0;
      while t < |teas|
        invariant 0 <= t <= |teas| && |visible| == t
        invariant forall j :: 0 <= j < t ==> (visible[j] <==> Matches(teas[j], query))
        invariant shown <==> exists j :: 0 <= j < t && Matches(teas[j], query)
      {
        var m := Contains(Lower(teas[t]), filter);
        visible := visible + [m];
        shown := shown || m;
        t := t + 1;
      }
      views := views + [CategoryView(shown, categories[c].open || shown, visible)];
      c := c + 1;
    }
  }

  /** The page's globals, overwritten in place by the button handlers and each animation frame. */
  class TeaTimer {
    var timerRunning: bool
    var timerEndTime: int
    var remainingMs: int
    var initialDuration: int
    var display: string
    var effects: seq<Effect>

    function Snapshot(): Page
      reads this
    {
      Page(timerRunning, timerEndTime, remainingMs, initialDuration, display)
    }

    constructor (display: string)
      ensures !timerRunning && this.display == display && effects == []
    {
      timerRunning := false;
      timerEndTime, remainingMs, initialDuration := 0, 0, 0;
      this.display := display;
      effects := [];
    }

    method StopTimer()
      modifies this
      ensures Snapshot() == StopStep(old(Snapshot())) && effects == old(effects)
    {
      timerRunning := false;
      display := FormatTime(0);
    }

    method UpdateTimer(now: int)
      modifies this
      ensures Snapshot() == UpdateStep(old(Snapshot()), now).next
      ensures effects == old(effects) + UpdateStep(old(Snapshot()), now).effects
    {
      if !timerRunning {
        return;
      }
      ghost var before := Snapshot();
      var ms := if timerEndTime - now > 0 then timerEndTime - now else 0;
      remainingMs := ms;
      ghost var q := before.(remainingMs := ms);
      if ms == 0 {
        StopTimer();
        assert Snapshot() == StopStep(q);
      }
      effects := effects + Sounds(ms);
      display := FormatTime(ms / 1000);
      assert UpdateStep(before, now) == Step(Snapshot(), Sounds(ms));
    }

    method StartTimer(selected: Option<int>, now: int)
      modifies this
      ensures Snapshot() == StartStep(old(Snapshot()), selected, now).next
      ensures effects == old(effects) + StartStep(old(Snapshot()), selected, now).effects
    {
      ghost var before := Snapshot();
      if timerRunning {
        StopTimer();
      }
      ghost var q := if before.timerRunning then StopStep(before) else before;
      assert Snapshot() == q;
      if selected.Some? {
        var d := selected.value;
        initialDuration := d;
        remainingMs := d * 1000;
        timerEndTime := now + d * 1000;
        timerRunning := true;
        ghost var started := Launched(q, d, now);
        assert Snapshot() == started;
        UpdateTimer(now);
        assert StartStep(before, selected, now) == UpdateStep(started, now);
      } else {
        assert StartStep(before, selected, now) == Step(q, []);
      }
    }

    method AddTime()
      modifies this
      ensures Snapshot() == AddStep(old(Snapshot())) && effects == old(effects)
    {
      if timerRunning {
        timerEndTime := timerEndTime + 10000;
        remainingMs := remainingMs + 10000;
        initialDuration := initialDuration + 10;
      }
    }
  }
}
