/**
 * The `focusMode` record of background.js and the arithmetic over absolute timestamps
 * (milliseconds) that derives elapsed and remaining time from it.
 */
module FocusRecord {
  import opened Common

  /** A timestamp field that may hold JavaScript `null`. */
  datatype Stamp = Null | At(ms: int) {
    /** The number JavaScript arithmetic reads from the field: `null` counts as 0. */
    function Num(): int {
      if At? then ms else 0
    }
  }

  /**
   * The global `focusMode` object. `remainingTime` and `elapsedTime` are `None` when the
   * object lacks them, which is the case right after a start until the first tick.
   * The initial `startTime: null` is written 0, the number JavaScript subtraction reads from it.
   */
  datatype Record = Record(
    active: bool,
    startTime: int,
    duration: int,
    paused: bool,
    pausedAt: Stamp,
    totalPausedTime: int,
    remainingTime: Option<int>,
    elapsedTime: Option<int>)

  /** The record the service worker holds before anything happened. */
  const Initial: Record := Record(false, 0, 0, false, Null, 0, Some(0), Some(0))

  /** Elapsed focus time: the clock stops at `pausedAt` while paused. */
  function Elapsed(r: Record, now: int): int {
    (if r.paused then r.pausedAt.Num() else now) - r.startTime - r.totalPausedTime
  }

  /** `Math.max(0, duration - elapsed)`. */
  function Remaining(r: Record, now: int): (rem: int)
    ensures rem >= 0
    ensures rem > 0 ==> Elapsed(r, now) + rem == r.duration
    ensures rem == 0 <==> Elapsed(r, now) >= r.duration
  {
    Max(0, r.duration - Elapsed(r, now))
  }

  /** The record after the derived fields are recomputed (without the end check). */
  function Refreshed(r: Record, now: int): (q: Record)
    ensures q.remainingTime == Some(Remaining(r, now)) && q.elapsedTime == Some(Elapsed(r, now))
    ensures SameTiming(q, r)
  {
    r.(elapsedTime := Some(Elapsed(r, now)), remainingTime := Some(Remaining(r, now)))
  }

  /** The fresh record `handleStartFocusMode` builds; it has no derived fields. */
  function Started(seconds: int, now: int): (q: Record)
    ensures q.active && !q.paused && q.pausedAt == Null && q.totalPausedTime == 0
    ensures q.duration == seconds * 1000 && q.startTime == now
    ensures Elapsed(q, now) == 0 && Remaining(q, now) == Max(0, seconds * 1000)
    ensures q.remainingTime == None && q.elapsedTime == None
  {
    Record(true, now, seconds * 1000, false, Null, 0, None, None)
  }

  /** The record after a pause at `now`: the clock of `Elapsed` is frozen at `now`. */
  function Paused(r: Record, now: int): (q: Record)
    ensures q.paused && q.pausedAt == At(now)
    ensures q.active == r.active && q.startTime == r.startTime && q.duration == r.duration
    ensures q.totalPausedTime == r.totalPausedTime
    ensures !r.paused ==> forall t :: Elapsed(q, t) == Elapsed(r, now) && Remaining(q, t) == Remaining(r, now)
  {
    r.(paused := true, pausedAt := At(now))
  }

  /** The record after a resume at `now`: the pause just ended is added to `totalPausedTime`. */
  function Resumed(r: Record, now: int): (q: Record)
    ensures !q.paused && q.pausedAt == Null
    ensures q.totalPausedTime == r.totalPausedTime + (now - r.pausedAt.Num())
    ensures q.active == r.active && q.startTime == r.startTime && q.duration == r.duration
    ensures r.paused ==> Elapsed(q, now) == Elapsed(r, now) && Remaining(q, now) == Remaining(r, now)
  {
    r.(totalPausedTime := r.totalPausedTime + (now - r.pausedAt.Num()), paused := false, pausedAt := Null)
  }

  /**
   * `Date.now() - startTime - totalPausedTime`, the session length `handleEndFocusMode` judges
   * completion by: an open pause is NOT subtracted.
   */
  function SessionDuration(r: Record, now: int): (d: int)
    ensures !r.paused ==> d == Elapsed(r, now)
    ensures r.paused ==> d == Elapsed(r, now) + (now - r.pausedAt.Num())
  {
    now - r.startTime - r.totalPausedTime
  }

  /** `sessionDuration >= duration`. */
  predicate Completed(r: Record, now: int) {
    SessionDuration(r, now) >= r.duration
  }

  /** The two records agree on everything but the derived fields. */
  predicate SameTiming(a: Record, b: Record) {
    a.active == b.active && a.startTime == b.startTime && a.duration == b.duration
    && a.paused == b.paused && a.pausedAt == b.pausedAt && a.totalPausedTime == b.totalPausedTime
  }

  /**
   * The timing invariant of an active record at time `now`: no negative pause total, and the
   * start plus the pauses so far lies no later than the instant the clock stands at.
   */
  predicate WellTimed(r: Record, now: int) {
    r.active ==>
      && 0 <= r.totalPausedTime
      && (r.paused ==> r.pausedAt.At? && r.pausedAt.ms <= now && r.startTime + r.totalPausedTime <= r.pausedAt.ms)
      && (!r.paused ==> r.startTime + r.totalPausedTime <= now)
  }

  // ---------------------------------------------------------------------------
  // Properties

  /** Elapsed time of a well-timed active record is never negative. */
  lemma ElapsedNonNegative(r: Record, now: int)
    requires WellTimed(r, now) && r.active
    ensures Elapsed(r, now) >= 0
    ensures Remaining(r, now) <= Max(0, r.duration)
  {
  }

  /** The invariant survives the passing of time. */
  lemma WellTimedLater(r: Record, now: int, later: int)
    requires WellTimed(r, now) && now <= later
    ensures WellTimed(r, later)
  {
  }

  /** Start, pause, resume and recomputation keep the invariant. */
  lemma TransitionsKeepWellTimed(r: Record, seconds: int, now: int)
    requires WellTimed(r, now)
    ensures WellTimed(Started(seconds, now), now)
    ensures !r.paused ==> WellTimed(Paused(r, now), now)
    ensures r.paused ==> WellTimed(Resumed(r, now), now)
    ensures WellTimed(Refreshed(r, now), now)
  {
  }

  /** Resuming never shrinks the pause total of a well-timed record. */
  lemma ResumeGrowsPausedTime(r: Record, now: int)
    requires WellTimed(r, now) && r.active && r.paused
    ensures Resumed(r, now).totalPausedTime >= r.totalPausedTime
  {
  }

  /**
   * A pause at `t1` followed by a resume at `t2` leaves the remaining time as it was at `t1`,
   * and the pause total grows by exactly `t2 - t1`.
   */
  lemma {:induction false} PauseResumeRoundTrip(r: Record, t1: int, t2: int)
    requires !r.paused
    ensures Resumed(Paused(r, t1), t2).totalPausedTime == r.totalPausedTime + (t2 - t1)
    ensures Remaining(Resumed(Paused(r, t1), t2), t2) == Remaining(r, t1)
    ensures Elapsed(Resumed(Paused(r, t1), t2), t2) == Elapsed(r, t1)
  {
    var p := Paused(r, t1);
    assert Elapsed(p, t2) == Elapsed(r, t1);
    assert Elapsed(Resumed(p, t2), t2) == Elapsed(p, t2);
  }

  /**
   * A 60-second session paused after 10 s and ended 100 s after its start still has 50 s to go,
   * yet counts as completed: the open pause is not subtracted at the end.
   */
  lemma EndCountsOpenPause(t0: int)
    ensures var r := Paused(Started(60, t0), t0 + 10000);
      Remaining(r, t0 + 100000) == 50000 && Completed(r, t0 + 100000)
  {
  }
}
