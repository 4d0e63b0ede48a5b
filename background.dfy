/**
 * The service worker of background.js: the focus-session state machine, site blocking, the
 * blacklist, the activity log and the performance counters.
 *
 * `Worker` is the state as a value and the functions over it say what each handler does;
 * `ServiceWorker` is the same state as the globals, storage and browser state the handlers
 * update, each method proved equal to its function.
 */
module Background {
  import opened Common
  import opened FocusRecord
  import opened Rules
  import opened Sites
  import opened Logs

  /** The keys of `chrome.storage.local` the worker uses. */
  datatype Storage = Storage(
    focusModeState: Option<Record>,
    blockedSites: Option<seq<string>>,
    focusModeActive: bool,
    recentActivities: seq<Activity>,
    performanceStats: map<string, int>)

  /**
   * What the browser holds for the extension: the badge text, the armed `focusMode` alarm (its
   * delay in milliseconds), whether the static ruleset `focus_mode_rules` is enabled, and the
   * dynamic rules.
   */
  datatype Browser = Browser(
    badgeText: string,
    focusAlarm: Option<int>,
    staticRuleset: bool,
    dynamicRules: RuleSet)

  /**
   * The worker's state. Its globals: `focusMode`, whether `focusModeInterval` holds a running
   * interval, how many earlier intervals still run because their handle was overwritten, and
   * the `DEFAULT_BLOCKED_SITES` array, which the blacklist handlers change in place when
   * storage holds no list.
   */
  datatype Worker = Worker(
    focusMode: Record,
    focusModeInterval: bool,
    leakedIntervals: nat,
    defaultSites: seq<string>,
    storage: Storage,
    browser: Browser)

  /** `data.blockedSites || DEFAULT_BLOCKED_SITES`. */
  function SitesOrDefault(w: Worker): seq<string> {
    w.storage.blockedSites.GetOr(w.defaultSites)
  }

  /**
   * The worker after `storage.set({ blockedSites: list })` of a changed list: when the list was
   * the default array, that array was changed in place as well.
   */
  function WithSites(w: Worker, list: seq<string>): Worker {
    w.(storage := w.storage.(blockedSites := Some(list)),
       defaultSites := if w.storage.blockedSites.None? then list else w.defaultSites)
  }

  /** `addActivity(icon, text)` of background.js. */
  function WithActivity(w: Worker, icon: string, text: string, now: int): Worker {
    w.(storage := w.storage.(recentActivities := Logged(w.storage.recentActivities, Activity(icon, text, now), BackgroundLogCap)))
  }

  /** `updatePerformanceStats(stat, value)` of background.js. */
  function WithStat(w: Worker, stat: string, value: int): Worker {
    w.(storage := w.storage.(performanceStats := Bumped(w.storage.performanceStats, stat, value)))
  }

  /** A counter as `(stats[stat] || 0)` reads it. */
  function Count(stats: map<string, int>, stat: string): int {
    if stat in stats then stats[stat] else 0
  }

  /** `Math.round(ms / 1000)`: halves round up, toward positive infinity. */
  function RoundSeconds(ms: int): (s: int)
    ensures 1000 * s - 500 <= ms < 1000 * s + 500
  {
    (ms + 500) / 1000
  }

  // ---------------------------------------------------------------------------
  // Site blocking

  /**
   * `enableSiteBlocking`: enable the static ruleset, then add the dynamic rules of the listed
   * sites. A rejected rule update throws, so the flag and the log entry are then skipped.
   */
  function EnableBlocking(w: Worker, now: int): Worker {
    var w1 := w.(browser := w.browser.(staticRuleset := true));
    var add := BackgroundRules(SitesOrDefault(w), StaticSites, FirstDynamicId);
    var updated := if |add| > 0 then UpdateDynamicRules(w.browser.dynamicRules, {}, add) else Some(w.browser.dynamicRules);
    match updated
    case None => w1
    case Some(live) =>
      var w2 := w1.(browser := w1.browser.(dynamicRules := live), storage := w1.storage.(focusModeActive := true));
      WithActivity(w2, "\U{1F6AB}", "Site blocking enabled", now)
  }

  /** `disableSiteBlocking`: disable the static ruleset and remove every dynamic rule. */
  function DisableBlocking(w: Worker, now: int): Worker {
    var w1 := w.(browser := w.browser.(staticRuleset := false, dynamicRules := map[]),
                 storage := w.storage.(focusModeActive := false));
    WithActivity(w1, "\U{2705}", "Site blocking disabled", now)
  }

  // ---------------------------------------------------------------------------
  // The focus session

  /** `handleEndFocusMode`: a no-op unless active. */
  function EndFocus(w: Worker, now: int): Worker {
    if !w.focusMode.active then w
    else
      var session := SessionDuration(w.focusMode, now);
      var w1 := w.(focusMode := w.focusMode.(active := false), focusModeInterval := false,
                   storage := w.storage.(focusModeState := None));
      var w2 := DisableBlocking(w1, now);
      var w3 := w2.(browser := w2.browser.(focusAlarm := None, badgeText := ""));
      if Completed(w.focusMode, now) then WithStat(WithStat(w3, "focusSessionsCompleted", 1), "totalFocusTime", RoundSeconds(session))
      else w3
  }

  /** `updateFocusModeState`: refresh the derived fields of an active record, and end it once nothing remains. */
  function UpdateState(w: Worker, now: int): Worker {
    if !w.focusMode.active then w
    else
      var w1 := w.(focusMode := Refreshed(w.focusMode, now));
      if Remaining(w.focusMode, now) <= 0 then EndFocus(w1, now) else w1
  }

  /** One run of the interval callback: update, then store the record, active or not. */
  function IntervalFired(w: Worker, now: int): Worker {
    var w1 := UpdateState(w, now);
    w1.(storage := w1.storage.(focusModeState := Some(w1.focusMode)))
  }

  /** `handleStartFocusMode(duration)`, `duration` in seconds; it has no guard against a running session. */
  function StartFocus(w: Worker, duration: int, now: int): Worker {
    var fm := Started(duration, now);
    var w1 := w.(focusMode := fm, storage := w.storage.(focusModeState := Some(fm)), focusModeInterval := true,
                 leakedIntervals := w.leakedIntervals + if w.focusModeInterval then 1 else 0);
    var w2 := EnableBlocking(w1, now);
    w2.(browser := w2.browser.(focusAlarm := Some(duration * 1000), badgeText := "FOCUS"))
  }

  /** `handlePauseFocusMode`: acts only on an active, running session. */
  function PauseFocus(w: Worker, now: int): Worker {
    if w.focusMode.active && !w.focusMode.paused then
      var fm := Paused(w.focusMode, now);
      w.(focusMode := fm, storage := w.storage.(focusModeState := Some(fm)),
         browser := w.browser.(focusAlarm := None, badgeText := "PAUSE"))
    else w
  }

  /**
   * `handleResumeFocusMode`: acts only on an active, paused session. After the update it
   * recomputes the remaining time and re-arms the alarm with it, or ends the session.
   */
  function ResumeFocus(w: Worker, now: int): Worker {
    if w.focusMode.active && w.focusMode.paused then
      var fm := Resumed(w.focusMode, now);
      var w1 := UpdateState(w.(focusMode := fm, storage := w.storage.(focusModeState := Some(fm))), now);
      var remaining := Max(0, w1.focusMode.duration - SessionDuration(w1.focusMode, now));
      if remaining > 0 then w1.(browser := w1.browser.(focusAlarm := Some(remaining), badgeText := "FOCUS"))
      else EndFocus(w1, now)
    else w
  }

  /** `restoreFocusModeState`: adopt a stored active record verbatim and start a new interval; the alarm is left as it is. */
  function Restore(w: Worker): Worker {
    match w.storage.focusModeState
    case Some(s) =>
      if s.active then
        w.(focusMode := s, focusModeInterval := true,
           leakedIntervals := w.leakedIntervals + (if w.focusModeInterval then 1 else 0),
           browser := w.browser.(badgeText := if s.paused then "PAUSE" else "FOCUS"))
      else w
    case None => w
  }

  /** A fresh service-worker instance: the globals start over and no interval runs; storage and the browser keep theirs. */
  function Restarted(w: Worker): Worker {
    Worker(Initial, false, 0, DefaultBlockedSites, w.storage, w.browser)
  }

  /** The one-shot `focusMode` alarm fires: its listener calls a function that does not exist, so only the alarm is spent. */
  function FocusAlarmFired(w: Worker): Worker {
    w.(browser := w.browser.(focusAlarm := None))
  }

  // ---------------------------------------------------------------------------
  // The blacklist

  /** `addToFocusBlacklist(url)`, given `new URL(url).hostname` (`None` when the URL does not parse). */
  function BlacklistAdd(w: Worker, hostname: Option<string>, now: int): Worker {
    match hostname
    case None => w
    case Some(h) =>
      var domain := BlacklistDomain(h);
      var list := SitesOrDefault(w);
      if domain in list then w
      else
        var w1 := WithSites(w, AddIfAbsent(list, domain));
        var updated := if w1.storage.focusModeActive then UpdateDynamicRules(w1.browser.dynamicRules, {}, BlacklistRules(domain, now))
                       else Some(w1.browser.dynamicRules);
        match updated
        case None => w1
        case Some(live) => WithActivity(w1.(browser := w1.browser.(dynamicRules := live)), "\U{1F6AB}", "Added " + domain + " to blocked sites", now)
  }

  /** `removeFromFocusBlacklist(domain)`. */
  function BlacklistRemove(w: Worker, domain: string, now: int): Worker {
    var list := SitesOrDefault(w);
    if domain !in list then w
    else
      var w1 := WithSites(w, RemoveFirst(list, domain));
      var w2 := if w1.storage.focusModeActive then w1.(browser := w1.browser.(dynamicRules := RemoveMatching(w1.browser.dynamicRules, domain))) else w1;
      WithActivity(w2, "\U{2705}", "Removed " + domain + " from blocked sites", now)
  }

  /** `index = sites.indexOf(domain); if (index > -1) sites.splice(index, 1)`: the shortened list, or `None` when absent. */
  method SpliceOut(sites: seq<string>, domain: string) returns (r: Option<seq<string>>)
    ensures r.None? <==> domain !in sites
    ensures r.Some? ==> r.value == RemoveFirst(sites, domain)
  {
    var index := IndexOf(sites, domain);
    if index > -1 {
      r := Some(sites[..index] + sites[index + 1..]);
    } else {
      r := None;
    }
  }

  // ---------------------------------------------------------------------------
  // The worker as mutable state

  class ServiceWorker {
    var focusMode: Record
    var focusModeInterval: bool
    var leakedIntervals: nat
    var defaultBlockedSites: seq<string>
    var storage: Storage
    var browser: Browser

    ghost function View(): Worker
      reads this
    {
      Worker(focusMode, focusModeInterval, leakedIntervals, defaultBlockedSites, storage, browser)
    }

    /** A worker starting up over what storage and the browser kept from `persisted`. */
    constructor (persisted: Worker)
      ensures View() == Restarted(persisted)
    {
      focusMode := Initial;
      focusModeInterval := false;
      leakedIntervals := 0;
      defaultBlockedSites := DefaultBlockedSites;
      storage := persisted.storage;
      browser := persisted.browser;
    }

    method AddActivity(icon: string, text: string, now: int)
      modifies this
      ensures View() == WithActivity(old(View()), icon, text, now)
    {
      var activities := [Activity(icon, text, now)] + storage.recentActivities;
      if |activities| > BackgroundLogCap {
        activities := activities[..BackgroundLogCap];
      }
      storage := storage.(recentActivities := activities);
    }

    method UpdatePerformanceStats(stat: string, value: int)
      modifies this
      ensures View() == WithStat(old(View()), stat, value)
    {
      var stats := storage.performanceStats;
      stats := stats[stat := (if stat in stats then stats[stat] else 0) + value];
      storage := storage.(performanceStats := stats);
    }

    method EnableSiteBlocking(now: int)
      modifies this
      ensures View() == EnableBlocking(old(View()), now)
    {
      browser := browser.(staticRuleset := true);
      var sites := if storage.blockedSites.Some? then storage.blockedSites.value else defaultBlockedSites;
      var rules := BuildBackgroundRules(sites, StaticSites);
      if |rules| > 0 {
        var updated := UpdateDynamicRules(browser.dynamicRules, {}, rules);
        if updated.None? {
          return;
        }
        browser := browser.(dynamicRules := updated.value);
      }
      storage := storage.(focusModeActive := true);
      AddActivity("\U{1F6AB}", "Site blocking enabled", now);
    }

    method DisableSiteBlocking(now: int)
      modifies this
      ensures View() == DisableBlocking(old(View()), now)
    {
      browser := browser.(staticRuleset := false);
      var ruleIds := browser.dynamicRules.Keys;
      if |ruleIds| > 0 {
        RemovalAccepted(browser.dynamicRules, ruleIds);
        browser := browser.(dynamicRules := UpdateDynamicRules(browser.dynamicRules, ruleIds, []).value);
      }
      assert browser.dynamicRules == map[];
      storage := storage.(focusModeActive := false);
      AddActivity("\U{2705}", "Site blocking disabled", now);
    }

    method HandleEndFocusMode(now: int)
      modifies this
      ensures View() == EndFocus(old(View()), now)
    {
      if !focusMode.active {
        return;
      }
      var sessionDuration := now - focusMode.startTime - focusMode.totalPausedTime;
      var completed := sessionDuration >= focusMode.duration;
      focusMode := focusMode.(active := false);
      if focusModeInterval {
        focusModeInterval := false;
      }
      storage := storage.(focusModeState := None);
      ghost var w1 := View();
      assert w1 == old(View()).(focusMode := old(focusMode).(active := false), focusModeInterval := false,
                                 storage := old(storage).(focusModeState := None));
      DisableSiteBlocking(now);
      browser := browser.(focusAlarm := None);
      browser := browser.(badgeText := "");
      ghost var w3 := View();
      assert w3 == DisableBlocking(w1, now).(browser := DisableBlocking(w1, now).browser.(focusAlarm := None, badgeText := ""));
      assert completed == Completed(old(focusMode), now) && sessionDuration == SessionDuration(old(focusMode), now);
      if completed {
        UpdatePerformanceStats("focusSessionsCompleted", 1);
        UpdatePerformanceStats("totalFocusTime", RoundSeconds(sessionDuration));
        assert View() == WithStat(WithStat(w3, "focusSessionsCompleted", 1), "totalFocusTime", RoundSeconds(sessionDuration));
      }
    }

    method UpdateFocusModeState(now: int)
      modifies this
      ensures View() == UpdateState(old(View()), now)
    {
      if !focusMode.active {
        return;
      }
      var elapsedTime := if focusMode.paused then focusMode.pausedAt.Num() - focusMode.startTime - focusMode.totalPausedTime
                         else now - focusMode.startTime - focusMode.totalPausedTime;
      var remainingTime := Max(0, focusMode.duration - elapsedTime);
      focusMode := focusMode.(elapsedTime := Some(elapsedTime), remainingTime := Some(remainingTime));
      if remainingTime <= 0 && focusMode.active {
        HandleEndFocusMode(now);
      }
    }

    /** The callback of a running interval, the current one or a leaked one. */
    method OnFocusInterval(now: int)
      requires focusModeInterval || leakedIntervals > 0
      modifies this
      ensures View() == IntervalFired(old(View()), now)
    {
      UpdateFocusModeState(now);
      storage := storage.(focusModeState := Some(focusMode));
    }

    method HandleStartFocusMode(duration: int, now: int)
      modifies this
      ensures View() == StartFocus(old(View()), duration, now)
    {
      focusMode := Record(true, now, duration * 1000, false, Null, 0, None, None);
      storage := storage.(focusModeState := Some(focusMode));
      if focusModeInterval {
        leakedIntervals := leakedIntervals + 1;
      }
      focusModeInterval := true;
      EnableSiteBlocking(now);
      browser := browser.(focusAlarm := Some(duration * 1000));
      browser := browser.(badgeText := "FOCUS");
    }

    method HandlePauseFocusMode(now: int)
      modifies this
      ensures View() == PauseFocus(old(View()), now)
    {
      if focusMode.active && !focusMode.paused {
        focusMode := focusMode.(paused := true, pausedAt := At(now));
        storage := storage.(focusModeState := Some(focusMode));
        browser := browser.(focusAlarm := None);
        browser := browser.(badgeText := "PAUSE");
      }
    }

    method HandleResumeFocusMode(now: int)
      modifies this
      ensures View() == ResumeFocus(old(View()), now)
    {
      if focusMode.active && focusMode.paused {
        var pausedDuration := now - focusMode.pausedAt.Num();
        focusMode := focusMode.(totalPausedTime := focusMode.totalPausedTime + pausedDuration);
        focusMode := focusMode.(paused := false, pausedAt := Null);
        storage := storage.(focusModeState := Some(focusMode));
        ghost var w1 := View();
        assert w1 == old(View()).(focusMode := Resumed(old(focusMode), now), storage := old(storage).(focusModeState := Some(Resumed(old(focusMode), now))));
        UpdateFocusModeState(now);
        ghost var w2 := View();
        assert w2 == UpdateState(w1, now);
        var elapsed := now - focusMode.startTime - focusMode.totalPausedTime;
        var remaining := Max(0, focusMode.duration - elapsed);
        if remaining > 0 {
          browser := browser.(focusAlarm := Some(remaining));
          browser := browser.(badgeText := "FOCUS");
        } else {
          HandleEndFocusMode(now);
        }
      }
    }

    method RestoreFocusModeState()
      modifies this
      ensures View() == Restore(old(View()))
    {
      var data := storage.focusModeState;
      if data.Some? && data.value.active {
        focusMode := data.value;
        if focusModeInterval {
          leakedIntervals := leakedIntervals + 1;
        }
        focusModeInterval := true;
        if focusMode.paused {
          browser := browser.(badgeText := "PAUSE");
        } else {
          browser := browser.(badgeText := "FOCUS");
        }
      }
    }

    method OnFocusAlarm()
      requires browser.focusAlarm.Some?
      modifies this
      ensures View() == FocusAlarmFired(old(View()))
    {
      browser := browser.(focusAlarm := None);
    }

    /** The `getFocusStatus` reply: the record as it is, derived fields as of the last update. */
    method GetFocusStatus() returns (status: Record)
      ensures status == focusMode
    {
      status := focusMode;
    }

    method AddToFocusBlacklist(hostname: Option<string>, now: int)
      modifies this
      ensures View() == BlacklistAdd(old(View()), hostname, now)
    {
      if hostname.None? {
        return;
      }
      var domain := ReplaceFirst(hostname.value, "www.", "");
      var blockedSites := if storage.blockedSites.Some? then storage.blockedSites.value else defaultBlockedSites;
      if domain !in blockedSites {
        blockedSites := blockedSites + [domain];
        if storage.blockedSites.None? {
          defaultBlockedSites := blockedSites;
        }
        storage := storage.(blockedSites := Some(blockedSites));
        if storage.focusModeActive {
          var updated := UpdateDynamicRules(browser.dynamicRules, {}, BlacklistRules(domain, now));
          if updated.None? {
            return;
          }
          browser := browser.(dynamicRules := updated.value);
        }
        AddActivity("\U{1F6AB}", "Added " + domain + " to blocked sites", now);
      }
    }

    method RemoveFromFocusBlacklist(domain: string, now: int)
      modifies this
      ensures View() == BlacklistRemove(old(View()), domain, now)
    {
      var blockedSites := SpliceOut(storage.blockedSites.GetOr(defaultBlockedSites), domain);
      if blockedSites.Some? {
        ghost var w1 := WithSites(View(), blockedSites.value);
        if storage.blockedSites.None? {
          defaultBlockedSites := blockedSites.value;
        }
        storage := storage.(blockedSites := blockedSites);
        assert View() == w1;
        if storage.focusModeActive {
          var rulesToRemove := MatchingIds(browser.dynamicRules, domain);
          if |rulesToRemove| > 0 {
            RemovalAccepted(browser.dynamicRules, rulesToRemove);
            browser := browser.(dynamicRules := UpdateDynamicRules(browser.dynamicRules, rulesToRemove, []).value);
          }
          assert browser.dynamicRules == RemoveMatching(w1.browser.dynamicRules, domain);
        }
        AddActivity("\U{2705}", "Removed " + domain + " from blocked sites", now);
      }
    }
  }
}
