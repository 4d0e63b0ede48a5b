/**
 * What the service worker's handlers promise, stated over the `Worker` functions of module
 * Background: the consistency of the session state, the end-of-session bookkeeping, how the
 * interval ends a session, and the round trips of pause/resume, restart/restore and the
 * blacklist.
 */
module BackgroundProps {
  import opened Common
  import opened FocusRecord
  import opened Rules
  import opened Sites
  import opened Logs
  import opened Background

  /**
   * The state every handler keeps: an active session has its interval running, a stored
   * snapshot with the same timing, and the badge its pause state calls for; the activity log
   * stays within its cap.
   */
  predicate Consistent(w: Worker) {
    && (w.focusMode.active ==>
          && w.focusModeInterval
          && w.storage.focusModeState.Some?
          && SameTiming(w.storage.focusModeState.value, w.focusMode)
          && w.browser.badgeText == (if w.focusMode.paused then "PAUSE" else "FOCUS"))
    && |w.storage.recentActivities| <= BackgroundLogCap
  }

  /** The timing invariant of the session in memory and of the stored snapshot, at time `now`. */
  predicate Timed(w: Worker, now: int) {
    WellTimed(w.focusMode, now)
    && (w.storage.focusModeState.Some? ==> WellTimed(w.storage.focusModeState.value, now))
  }

  // ---------------------------------------------------------------------------
  // Site blocking and ending a session

  /** Enabling blocking touches neither the session nor the badge, and keeps the log within its cap. */
  lemma EnableBlockingFrame(w: Worker, now: int)
    requires |w.storage.recentActivities| <= BackgroundLogCap
    ensures var e := EnableBlocking(w, now);
      && e.focusMode == w.focusMode && e.focusModeInterval == w.focusModeInterval
      && e.storage.focusModeState == w.storage.focusModeState && e.browser.badgeText == w.browser.badgeText
      && e.browser.focusAlarm == w.browser.focusAlarm && e.browser.staticRuleset
      && |e.storage.recentActivities| <= BackgroundLogCap
  {
  }

  /**
   * Ending an active session stops the interval, removes the snapshot, every rule and the
   * badge, and counts the session (and its rounded length in seconds) exactly when it lasted
   * its duration, an open pause included. Ending an inactive session changes nothing.
   */
  lemma EndFocusEffects(w: Worker, now: int)
    ensures !w.focusMode.active ==> EndFocus(w, now) == w
    ensures w.focusMode.active ==> var e := EndFocus(w, now);
      && !e.focusMode.active && SameTiming(e.focusMode.(active := true), w.focusMode)
      && !e.focusModeInterval && e.leakedIntervals == w.leakedIntervals
      && e.storage.focusModeState == None && !e.storage.focusModeActive
      && e.browser == Browser("", None, false, map[])
      && e.storage.recentActivities[0] == Activity("\U{2705}", "Site blocking disabled", now)
      && Count(e.storage.performanceStats, "focusSessionsCompleted")
         == Count(w.storage.performanceStats, "focusSessionsCompleted") + (if Completed(w.focusMode, now) then 1 else 0)
      && Count(e.storage.performanceStats, "totalFocusTime")
         == Count(w.storage.performanceStats, "totalFocusTime") + (if Completed(w.focusMode, now) then RoundSeconds(SessionDuration(w.focusMode, now)) else 0)
  {
    if w.focusMode.active {
      var e := EndFocus(w, now);
      var w1 := w.(focusMode := w.focusMode.(active := false), focusModeInterval := false,
                   storage := w.storage.(focusModeState := None));
      var w2 := DisableBlocking(w1, now);
      var w3 := w2.(browser := w2.browser.(focusAlarm := None, badgeText := ""));
      assert w3.browser == Browser("", None, false, map[]);
      if Completed(w.focusMode, now) {
        var s1 := Bumped(w3.storage.performanceStats, "focusSessionsCompleted", 1);
        assert e.storage.performanceStats == Bumped(s1, "totalFocusTime", RoundSeconds(SessionDuration(w.focusMode, now)));
        assert Count(s1, "totalFocusTime") == Count(w.storage.performanceStats, "totalFocusTime");
      } else {
        assert e == w3;
      }
    }
  }

  // ---------------------------------------------------------------------------
  // The interval

  /**
   * An interval tick on an active session ends it exactly when its remaining time has reached
   * zero; while it stays active, the browser is untouched.
   */
  lemma TickEndsExactlyWhenExpired(w: Worker, now: int)
    requires w.focusMode.active
    ensures IntervalFired(w, now).focusMode.active <==> Remaining(w.focusMode, now) > 0
    ensures Remaining(w.focusMode, now) > 0 ==> IntervalFired(w, now).browser == w.browser
  {
    if Remaining(w.focusMode, now) > 0 {
      assert UpdateState(w, now) == w.(focusMode := Refreshed(w.focusMode, now));
    } else {
      EndFocusEffects(w.(focusMode := Refreshed(w.focusMode, now)), now);
    }
  }

  /**
   * Resuming a paused session with no time left ends it at once (`resumeFocusMode`'s end
   * branch); with time left, the session runs on and the alarm is armed with that time.
   */
  lemma ResumeEndsWhenNothingRemains(w: Worker, now: int)
    requires w.focusMode.active && w.focusMode.paused
    ensures Remaining(Resumed(w.focusMode, now), now) == 0 ==> !ResumeFocus(w, now).focusMode.active
    ensures Remaining(Resumed(w.focusMode, now), now) > 0 ==>
      && ResumeFocus(w, now).focusMode.active
      && ResumeFocus(w, now).browser.focusAlarm == Some(Remaining(Resumed(w.focusMode, now), now))
  {
    var fm := Resumed(w.focusMode, now);
    var w0 := w.(focusMode := fm, storage := w.storage.(focusModeState := Some(fm)));
    if Remaining(fm, now) == 0 {
      EndFocusEffects(w0.(focusMode := Refreshed(fm, now)), now);
    } else {
      assert UpdateState(w0, now) == w0.(focusMode := Refreshed(fm, now));
    }
  }

  /**
   * The tick that ends a session stores the ended record again right after the end removed it:
   * `focusModeState` then holds an inactive record whose remaining time is 0.
   */
  lemma ExpiringTickStoresEndedRecord(w: Worker, now: int)
    requires w.focusMode.active && Remaining(w.focusMode, now) == 0
    ensures var t := IntervalFired(w, now);
      && !t.focusMode.active && !t.focusModeInterval && t.browser.badgeText == ""
      && t.storage.focusModeState == Some(Refreshed(w.focusMode, now).(active := false))
      && t.storage.focusModeState.value.remainingTime == Some(0)
  {
    var w1 := w.(focusMode := Refreshed(w.focusMode, now));
    EndFocusEffects(w1, now);
    assert UpdateState(w, now) == EndFocus(w1, now);
  }

  /**
   * A paused session never expires by ticking, however late: its remaining time stays as it
   * was when it was paused.
   */
  lemma PausedSessionNeverExpires(w: Worker, pausedAt: int, now: int)
    requires w.focusMode.active && !w.focusMode.paused && Remaining(w.focusMode, pausedAt) > 0
    ensures var p := PauseFocus(w, pausedAt);
      IntervalFired(p, now).focusMode.active && Remaining(IntervalFired(p, now).focusMode, now) == Remaining(w.focusMode, pausedAt)
  {
    var p := PauseFocus(w, pausedAt);
    assert Remaining(p.focusMode, now) == Remaining(w.focusMode, pausedAt);
    assert UpdateState(p, now) == p.(focusMode := Refreshed(p.focusMode, now));
  }

  /** A tick of a leaked interval after the session ended changes nothing but the stored record. */
  lemma InactiveTick(w: Worker, now: int)
    requires !w.focusMode.active
    ensures IntervalFired(w, now) == w.(storage := w.storage.(focusModeState := Some(w.focusMode)))
  {
  }

  /** The alarm firing ends nothing: the session, storage and the rules are as they were. */
  lemma AlarmDoesNotEndSession(w: Worker)
    ensures var a := FocusAlarmFired(w);
      a.focusMode == w.focusMode && a.storage == w.storage && a.browser.dynamicRules == w.browser.dynamicRules
      && a.browser.focusAlarm == None
  {
  }

  // ---------------------------------------------------------------------------
  // Starting, pausing, resuming

  /** A start while a session runs overwrites the interval handle: the old interval leaks. */
  lemma StartTwiceLeaksInterval(w: Worker, d1: int, d2: int, t1: int, t2: int)
    ensures StartFocus(StartFocus(w, d1, t1), d2, t2).leakedIntervals == w.leakedIntervals + 1 + (if w.focusModeInterval then 1 else 0)
  {
  }

  /** After a start the session is active and running, with the full duration left and the alarm armed for it. */
  lemma StartEffects(w: Worker, seconds: int, now: int)
    ensures var s := StartFocus(w, seconds, now);
      && s.focusMode == Started(seconds, now) && s.storage.focusModeState == Some(Started(seconds, now))
      && s.focusModeInterval && s.browser.badgeText == "FOCUS" && s.browser.focusAlarm == Some(seconds * 1000)
      && Remaining(s.focusMode, now) == Max(0, seconds * 1000) && s.browser.staticRuleset
  {
  }

  /**
   * A start while blocking from an earlier start is still in place: the new rules reuse the ids
   * from 1000 on, the browser rejects them, so the rules stay as they were and no "enabled"
   * entry is logged.
   */
  lemma SecondStartRulesRejected(w: Worker, d1: int, d2: int, t1: int, t2: int)
    requires w.browser.dynamicRules == map[]
    requires |BackgroundRules(SitesOrDefault(w), StaticSites, FirstDynamicId)| > 0
    ensures var s1 := StartFocus(w, d1, t1);
      var s2 := StartFocus(s1, d2, t2);
      && s1.storage.focusModeActive
      && s2.browser.dynamicRules == s1.browser.dynamicRules
      && s2.storage.recentActivities == s1.storage.recentActivities
  {
    var rules := BackgroundRules(SitesOrDefault(w), StaticSites, FirstDynamicId);
    BackgroundRulesConsecutive(SitesOrDefault(w), StaticSites, FirstDynamicId);
    var s1 := StartFocus(w, d1, t1);
    assert UpdateDynamicRules(map[], {}, rules).Some?;
    assert rules[0].id in s1.browser.dynamicRules;
    var w1 := s1.(focusMode := Started(d2, t2), storage := s1.storage.(focusModeState := Some(Started(d2, t2))), focusModeInterval := true,
                  leakedIntervals := s1.leakedIntervals + 1);
    assert SitesOrDefault(w1) == SitesOrDefault(w);
    assert UpdateDynamicRules(w1.browser.dynamicRules, {}, rules).None?;
  }

  /** Pausing and then resuming with time left gives back the remaining time of the moment of the pause, and re-arms the alarm with it. */
  lemma PauseResumeRestoresRemaining(w: Worker, t1: int, t2: int)
    requires w.focusMode.active && !w.focusMode.paused && Remaining(w.focusMode, t1) > 0
    ensures var r := ResumeFocus(PauseFocus(w, t1), t2);
      && r.focusMode.active && !r.focusMode.paused
      && Remaining(r.focusMode, t2) == Remaining(w.focusMode, t1)
      && r.focusMode.totalPausedTime == w.focusMode.totalPausedTime + (t2 - t1)
      && r.browser.focusAlarm == Some(Remaining(w.focusMode, t1)) && r.browser.badgeText == "FOCUS"
  {
    var p := PauseFocus(w, t1);
    var fm := Resumed(p.focusMode, t2);
    PauseResumeRoundTrip(w.focusMode, t1, t2);
    var w1 := p.(focusMode := fm, storage := p.storage.(focusModeState := Some(fm)));
    assert Remaining(fm, t2) > 0;
    assert UpdateState(w1, t2) == w1.(focusMode := Refreshed(fm, t2));
    assert SessionDuration(Refreshed(fm, t2), t2) == Elapsed(fm, t2);
  }

  // ---------------------------------------------------------------------------
  // Restarting the worker

  /**
   * A restarted worker restores an active stored session verbatim, timing and remaining time
   * included, with one new interval and the badge of its pause state; it does not re-arm the alarm.
   */
  lemma RestoreAfterRestart(w: Worker, now: int)
    requires w.storage.focusModeState.Some? && w.storage.focusModeState.value.active
    ensures var r := Restore(Restarted(w));
      && r.focusMode == w.storage.focusModeState.value
      && Remaining(r.focusMode, now) == Remaining(w.storage.focusModeState.value, now)
      && r.focusModeInterval && r.leakedIntervals == 0
      && r.browser.focusAlarm == w.browser.focusAlarm
      && r.browser.badgeText == (if r.focusMode.paused then "PAUSE" else "FOCUS")
      && Consistent(r) == (|w.storage.recentActivities| <= BackgroundLogCap)
  {
  }

  /** A restored session that a consistent worker kept has the in-memory session's timing: only the derived fields may lag. */
  lemma RestoreKeepsTiming(w: Worker)
    requires Consistent(w) && w.focusMode.active
    ensures SameTiming(Restore(Restarted(w)).focusMode, w.focusMode)
    ensures forall t :: Remaining(Restore(Restarted(w)).focusMode, t) == Remaining(w.focusMode, t)
  {
    var s := w.storage.focusModeState.value;
    forall t ensures Remaining(s, t) == Remaining(w.focusMode, t) {
      assert Elapsed(s, t) == Elapsed(w.focusMode, t);
    }
  }

  // ---------------------------------------------------------------------------
  // The invariants

  /** A start leaves the worker consistent. */
  lemma StartKeepsConsistent(w: Worker, seconds: int, now: int)
    requires Consistent(w)
    ensures Consistent(StartFocus(w, seconds, now))
  {
    var fm := Started(seconds, now);
    var w1 := w.(focusMode := fm, storage := w.storage.(focusModeState := Some(fm)), focusModeInterval := true,
                 leakedIntervals := w.leakedIntervals + if w.focusModeInterval then 1 else 0);
    EnableBlockingFrame(w1, now);
  }

  /** A pause, the alarm, a restart and a restore leave the worker consistent. */
  lemma SessionHandlersKeepConsistent(w: Worker, now: int)
    requires Consistent(w)
    ensures Consistent(PauseFocus(w, now))
    ensures Consistent(FocusAlarmFired(w))
    ensures Consistent(Restarted(w))
    ensures Consistent(Restore(w))
  {
  }

  /** Ending a session leaves the worker consistent. */
  lemma EndKeepsConsistent(w: Worker, now: int)
    requires Consistent(w)
    ensures Consistent(EndFocus(w, now))
  {
    EndFocusEffects(w, now);
  }

  /** The periodic update, and the interval tick around it, leave the worker consistent. */
  lemma UpdateKeepsConsistent(w: Worker, now: int)
    requires Consistent(w)
    ensures Consistent(UpdateState(w, now))
    ensures Consistent(IntervalFired(w, now))
  {
    if w.focusMode.active {
      var w1 := w.(focusMode := Refreshed(w.focusMode, now));
      EndFocusEffects(w1, now);
    }
  }

  /** A resume leaves the worker consistent. */
  lemma ResumeKeepsConsistent(w: Worker, now: int)
    requires Consistent(w)
    ensures Consistent(ResumeFocus(w, now))
  {
    if w.focusMode.active && w.focusMode.paused {
      var fm := Resumed(w.focusMode, now);
      var w0 := w.(focusMode := fm, storage := w.storage.(focusModeState := Some(fm)));
      assert Consistent(w0.(browser := w0.browser.(badgeText := "FOCUS")));
      UpdateKeepsConsistent(w0.(browser := w0.browser.(badgeText := "FOCUS")), now);
      var w1 := UpdateState(w0, now);
      assert w1.focusMode.active ==> !w1.focusMode.paused;
      EndFocusEffects(w1, now);
    }
  }

  /** The blacklist handlers leave the worker consistent. */
  lemma BlacklistKeepsConsistent(w: Worker, hostname: Option<string>, domain: string, now: int)
    requires Consistent(w)
    ensures Consistent(BlacklistAdd(w, hostname, now))
    ensures Consistent(BlacklistRemove(w, domain, now))
  {
  }

  /** A start, a pause or a restore at time `now` keeps the session and the snapshot well-timed. */
  lemma SessionHandlersKeepTimed(w: Worker, seconds: int, now: int)
    requires Timed(w, now)
    ensures Timed(StartFocus(w, seconds, now), now)
    ensures Timed(PauseFocus(w, now), now)
    ensures Timed(Restore(w), now)
  {
    TransitionsKeepWellTimed(w.focusMode, seconds, now);
    var fm := Started(seconds, now);
    var w1 := w.(focusMode := fm, storage := w.storage.(focusModeState := Some(fm)), focusModeInterval := true,
                 leakedIntervals := w.leakedIntervals + if w.focusModeInterval then 1 else 0);
    EnableBlockingFrame(w1.(storage := w1.storage.(recentActivities := [])), now);
    assert EnableBlocking(w1, now).storage.focusModeState == w1.storage.focusModeState;
  }

  /** The interval tick at time `now` keeps the session and the snapshot well-timed. */
  lemma TickKeepsTimed(w: Worker, now: int)
    requires Timed(w, now)
    ensures Timed(IntervalFired(w, now), now)
  {
    if w.focusMode.active {
      TransitionsKeepWellTimed(w.focusMode, 0, now);
      EndFocusEffects(w.(focusMode := Refreshed(w.focusMode, now)), now);
    }
  }

  /** A resume at time `now` keeps the session and the snapshot well-timed. */
  lemma ResumeKeepsTimed(w: Worker, now: int)
    requires Timed(w, now)
    ensures Timed(ResumeFocus(w, now), now)
  {
    if w.focusMode.active && w.focusMode.paused {
      var q := Resumed(w.focusMode, now);
      TransitionsKeepWellTimed(w.focusMode, 0, now);
      TransitionsKeepWellTimed(q, 0, now);
      EndFocusEffects(w.(focusMode := Refreshed(q, now), storage := w.storage.(focusModeState := Some(q))), now);
      var w0 := w.(focusMode := q, storage := w.storage.(focusModeState := Some(q)));
      EndFocusEffects(UpdateState(w0, now), now);
    }
  }

  /** The worker stays well-timed as the clock advances. */
  lemma TimedLater(w: Worker, now: int, later: int)
    requires Timed(w, now) && now <= later
    ensures Timed(w, later)
  {
    WellTimedLater(w.focusMode, now, later);
    if w.storage.focusModeState.Some? {
      WellTimedLater(w.storage.focusModeState.value, now, later);
    }
  }

  // ---------------------------------------------------------------------------
  // The blacklist

  /** Blacklisting a site that is already listed changes nothing, not even the log. */
  lemma BlacklistAddListed(w: Worker, h: string, now: int)
    requires BlacklistDomain(h) in SitesOrDefault(w)
    ensures BlacklistAdd(w, Some(h), now) == w
  {
  }

  /**
   * Blacklisting a new domain appends it to the list, keeps the blocking flag, and leaves the
   * rules alone while blocking is off; while blocking is on and the timestamp ids are free, it
   * adds the domain's two rules and logs the addition.
   */
  lemma BlacklistAddEffects(w: Worker, h: string, now: int)
    requires BlacklistDomain(h) !in SitesOrDefault(w)
    ensures var a := BlacklistAdd(w, Some(h), now);
      && SitesOrDefault(a) == SitesOrDefault(w) + [BlacklistDomain(h)]
      && a.storage.focusModeActive == w.storage.focusModeActive
      && (!w.storage.focusModeActive ==> a.browser.dynamicRules == w.browser.dynamicRules)
      && (w.storage.focusModeActive && now !in w.browser.dynamicRules && now + 1 !in w.browser.dynamicRules ==>
            && a.browser.dynamicRules == UpdateDynamicRules(w.browser.dynamicRules, {}, BlacklistRules(BlacklistDomain(h), now)).value
            && a.storage.recentActivities[0] == Activity("\U{1F6AB}", "Added " + BlacklistDomain(h) + " to blocked sites", now))
  {
    if w.storage.focusModeActive && now !in w.browser.dynamicRules && now + 1 !in w.browser.dynamicRules {
      BlacklistRulesRoundTrip(w.browser.dynamicRules, BlacklistDomain(h), now);
    }
  }

  /** Removing a listed domain takes its first copy off the list and, while blocking is on, every rule whose filter mentions it. */
  lemma BlacklistRemoveEffects(w: Worker, d: string, now: int)
    requires d in SitesOrDefault(w)
    ensures var r := BlacklistRemove(w, d, now);
      && SitesOrDefault(r) == RemoveFirst(SitesOrDefault(w), d)
      && r.browser.dynamicRules == (if w.storage.focusModeActive then RemoveMatching(w.browser.dynamicRules, d) else w.browser.dynamicRules)
      && r.storage.recentActivities[0] == Activity("\U{2705}", "Removed " + d + " from blocked sites", now)
  {
  }

  /**
   * Blacklisting a page and then removing its domain restores the list. While blocking is on
   * and the two timestamp ids are free, the rules end up as removing the domain from the
   * original rules would leave them; while it is off, the rules are not touched.
   */
  lemma BlacklistRoundTrip(w: Worker, h: string, t1: int, t2: int)
    requires BlacklistDomain(h) !in SitesOrDefault(w)
    ensures var d := BlacklistDomain(h);
      var removed := BlacklistRemove(BlacklistAdd(w, Some(h), t1), d, t2);
      && SitesOrDefault(removed) == SitesOrDefault(w)
      && (w.storage.focusModeActive && t1 !in w.browser.dynamicRules && t1 + 1 !in w.browser.dynamicRules ==>
            removed.browser.dynamicRules == RemoveMatching(w.browser.dynamicRules, d))
      && (!w.storage.focusModeActive ==> removed.browser.dynamicRules == w.browser.dynamicRules)
  {
    var d := BlacklistDomain(h);
    var added := BlacklistAdd(w, Some(h), t1);
    BlacklistAddEffects(w, h, t1);
    RemoveUndoesAdd(SitesOrDefault(w), d);
    BlacklistRemoveEffects(added, d, t2);
    if w.storage.focusModeActive && t1 !in w.browser.dynamicRules && t1 + 1 !in w.browser.dynamicRules {
      BlacklistRulesRoundTrip(w.browser.dynamicRules, d, t1);
    }
  }

  /** While storage holds no list, the blacklist handlers change the default array in place, so a later `DEFAULT_BLOCKED_SITES` read sees the change. */
  lemma BlacklistChangesDefaultArray(w: Worker, h: string, now: int)
    requires w.storage.blockedSites.None? && BlacklistDomain(h) !in w.defaultSites
    ensures BlacklistAdd(w, Some(h), now).defaultSites == w.defaultSites + [BlacklistDomain(h)]
  {
  }
}
