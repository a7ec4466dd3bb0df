/**
 * The page that drives the counter-based worker (app.js): it starts a run
 * once the screen wake lock is granted, shows each `timeLeft` it is sent,
 * reacts to `finished`, and posts `stop` from the stop button.
 *
 * The wake-lock request and the notification permission are parameters: one
 * is whether `navigator.wakeLock.request` resolves, the other whether
 * `Notification.permission` is `'granted'`.
 */
module WorkerPage {
  import opened Wrappers
  import opened Text
  import opened Clock
  import CW = CounterWorker

  /**
   * The `time-left` text, whether `wakeLock` holds a sentinel, the number of
   * `release()` and `new Notification` calls made, and the commands posted.
   */
  datatype Page = Page(display: string, wakeLockHeld: bool, releases: nat, notifications: nat,
                       toWorker: seq<CW.Command>)

  /** startTimer(duration): a rejected wake-lock request skips the `start` message. */
  function StartStep(p: Page, duration: int, granted: bool): (r: Page)
    ensures granted ==> r == p.(wakeLockHeld := true, toWorker := p.toWorker + [CW.Start(duration)])
    ensures !granted ==> r == p
  {
    if granted then p.(wakeLockHeld := true, toWorker := p.toWorker + [CW.Start(duration)]) else p
  }

  /** timerFinished(): releases a held wake lock (never forgetting it) and notifies when permitted. */
  function FinishedStep(p: Page, permitted: bool): (r: Page)
    ensures r.display == p.display && r.wakeLockHeld == p.wakeLockHeld && r.toWorker == p.toWorker
    ensures r.releases == p.releases + (if p.wakeLockHeld then 1 else 0)
    ensures r.notifications == p.notifications + (if permitted then 1 else 0)
  {
    p.(releases := if p.wakeLockHeld then p.releases + 1 else p.releases,
       notifications := if permitted then p.notifications + 1 else p.notifications)
  }

  /**
   * `timerWorker.onmessage`: a truthy (non-zero) `timeLeft` is displayed;
   * otherwise a `finished` command calls timerFinished. `{timeLeft: 0}` is
   * falsy and carries no command, so it changes nothing.
   */
  function ReplyStep(p: Page, reply: CW.Reply, permitted: bool): (r: Page)
    ensures r.wakeLockHeld == p.wakeLockHeld && r.toWorker == p.toWorker
    ensures r.display != p.display ==> reply.TimeLeft? && reply.seconds != 0
    ensures reply.TimeLeft? && reply.seconds != 0 ==> r.display == FormatTime(reply.seconds)
    ensures reply == CW.TimeLeft(0) ==> r == p
    ensures reply.TimeLeft? ==> r.releases == p.releases && r.notifications == p.notifications
    ensures reply.Finished? ==> r == FinishedStep(p, permitted)
  {
    match reply
    case TimeLeft(t) => if t != 0 then p.(display := FormatTime(t)) else p
    case Finished => FinishedStep(p, permitted)
  }

  /** A displayed `timeLeft` never reads 00:00, and a positive one reads back as itself. */
  lemma ReplyDisplay(p: Page, reply: CW.Reply, permitted: bool)
    ensures var r := ReplyStep(p, reply, permitted);
      r.display != p.display ==> r.display != "00:00"
    ensures reply.TimeLeft? && reply.seconds > 0 ==>
      ClockValue(ReplyStep(p, reply, permitted).display) == Some(reply.seconds)
  {
    if reply.TimeLeft? && reply.seconds != 0 {
      FormatTimeIsZeroOnlyForZero(reply.seconds);
      if reply.seconds > 0 {
        FormatTimeRoundTrip(reply.seconds);
      }
    }
  }

  /** The stop button: posts exactly `stop`, and releases the wake lock whenever one was ever held. */
  function StopStep(p: Page): (r: Page)
    ensures r.toWorker == p.toWorker + [CW.Stop]
    ensures r.releases == p.releases + (if p.wakeLockHeld then 1 else 0)
    ensures r.display == p.display && r.wakeLockHeld == p.wakeLockHeld && r.notifications == p.notifications
  {
    p.(toWorker := p.toWorker + [CW.Stop], releases := if p.wakeLockHeld then p.releases + 1 else p.releases)
  }

  /** The page after receiving `replies` in order. */
  function Receive(p: Page, replies: seq<CW.Reply>, permitted: bool): Page
    decreases |replies|
  {
    if replies == [] then p else Receive(ReplyStep(p, replies[0], permitted), replies[1..], permitted)
  }

  lemma {:induction false} ReceiveAppend(p: Page, a: seq<CW.Reply>, b: seq<CW.Reply>, permitted: bool)
    ensures Receive(p, a + b, permitted) == Receive(Receive(p, a, permitted), b, permitted)
    decreases |a|
  {
    if a == [] {
      assert a + b == b;
    } else {
      assert (a + b)[1..] == a[1..] + b;
      ReceiveAppend(ReplyStep(p, a[0], permitted), a[1..], b, permitted);
    }
  }

  /** Whatever the worker sends, the display never comes to read 00:00. */
  lemma {:induction false} DisplayNeverReadsZero(p: Page, replies: seq<CW.Reply>, permitted: bool)
    requires p.display != "00:00"
    ensures Receive(p, replies, permitted).display != "00:00"
    decreases |replies|
  {
    if replies != [] {
      ReplyDisplay(p, replies[0], permitted);
      DisplayNeverReadsZero(ReplyStep(p, replies[0], permitted), replies[1..], permitted);
    }
  }

  /** After a run of non-zero `timeLeft` replies the last one is displayed, and nothing is released. */
  lemma {:induction false} ShowsLastCount(p: Page, replies: seq<CW.Reply>, permitted: bool)
    requires |replies| >= 1
    requires forall k :: 0 <= k < |replies| ==> replies[k].TimeLeft? && replies[k].seconds != 0
    ensures Receive(p, replies, permitted).display == FormatTime(replies[|replies| - 1].seconds)
    ensures Receive(p, replies, permitted).releases == p.releases
    ensures Receive(p, replies, permitted).wakeLockHeld == p.wakeLockHeld
    decreases |replies|
  {
    var q := ReplyStep(p, replies[0], permitted);
    if |replies| > 1 {
      ShowsLastCount(q, replies[1..], permitted);
    }
  }

  /**
   * Fed one whole run of d >= 2 seconds from the worker (d - 1, ..., 0, then
   * `finished`), the page is left showing 00:01, since the final 0 is falsy,
   * and releases a held wake lock once.
   */
  lemma WholeRunEndsShowingOneSecond(p: Page, d: int, permitted: bool)
    requires d >= 2
    ensures var r := Receive(p, CW.Countdown(d, d) + [CW.Finished], permitted);
      r.display == "00:01" && r.releases == p.releases + (if p.wakeLockHeld then 1 else 0)
  {
    assert CW.Countdown(d, d) + [CW.Finished] == CW.Countdown(d, d - 1) + [CW.TimeLeft(0), CW.Finished];
    ReceiveAppend(p, CW.Countdown(d, d - 1), [CW.TimeLeft(0), CW.Finished], permitted);
    ShowsLastCount(p, CW.Countdown(d, d - 1), permitted);
    var m := Receive(p, CW.Countdown(d, d - 1), permitted);
    assert CW.Countdown(d, d - 1)[d - 2] == CW.TimeLeft(1);
    assert m.display == FormatTime(1) && m.releases == p.releases && m.wakeLockHeld == p.wakeLockHeld;
    assert Receive(m, [CW.TimeLeft(0), CW.Finished], permitted) == FinishedStep(m, permitted);
    OneSecondReads();
  }

  lemma OneSecondReads()
    ensures FormatTime(1) == "00:01"
  {
    assert ShowInt(0) == "0" && ShowInt(1) == "1";
    assert MinutesField(1) == "00";
    assert SecondsField(1) == "01";
  }

  /** Stopping twice calls `release()` twice on a lock once held: `wakeLock` is never reset. */
  lemma StopReleasesAgain(p: Page)
    requires p.wakeLockHeld
    ensures StopStep(StopStep(p)).releases == p.releases + 2
    ensures StopStep(StopStep(p)).toWorker == p.toWorker + [CW.Stop, CW.Stop]
  {
  }

  /** app.js's module state, updated in place by its handlers. */
  class AppPage {
    var display: string
    var wakeLockHeld: bool
    var releases: nat
    var notifications: nat
    var toWorker: seq<CW.Command>

    function Snapshot(): Page
      reads this
    {
      Page(display, wakeLockHeld, releases, notifications, toWorker)
    }

    constructor (display: string)
      ensures Snapshot() == Page(display, false, 0, 0, [])
    {
      this.display := display;
      wakeLockHeld := false;
      releases, notifications := 0, 0;
      toWorker := [];
    }

    method StartTimer(duration: int, granted: bool)
      modifies this
      ensures Snapshot() == StartStep(old(Snapshot()), duration, granted)
    {
      if granted {
        wakeLockHeld := true;
        toWorker := toWorker + [CW.Start(duration)];
      }
    }

    method TimerFinished(permitted: bool)
      modifies this
      ensures Snapshot() == FinishedStep(old(Snapshot()), permitted)
    {
      if wakeLockHeld {
        releases := releases + 1;
      }
      if permitted {
        notifications := notifications + 1;
      }
    }

    method OnMessage(reply: CW.Reply, permitted: bool)
      modifies this
      ensures Snapshot() == ReplyStep(old(Snapshot()), reply, permitted)
    {
      if reply.TimeLeft? && reply.seconds != 0 {
        display := FormatTime(reply.seconds);
      } else if reply.Finished? {
        TimerFinished(permitted);
      }
    }

    method StopClicked()
      modifies this
      ensures Snapshot() == StopStep(old(Snapshot()))
    {
      toWorker := toWorker + [CW.Stop];
      if wakeLockHeld {
        releases := releases + 1;
      }
    }
  }
}
