/**
 * The focus panel of popup.js (`initializeFocusMode`): the countdown held in the closure
 * variables `timeLeft`, `originalTime`, `isPaused`, `isActive` and `focusTimer`, the popup's own
 * site blocking, the blocked-site list and the popup's activity log.
 *
 * `Panel` is the state as a value and the functions over it say what each handler does;
 * `FocusPanel` is the same state as the closure variables, storage and rules the handlers
 * update, each method proved equal to its function.
 */
module Popup {
  import opened Common
  import opened Rules
  import opened Sites
  import opened Logs

  /** `DEFAULT_BLOCKED_SITES` of popup.js; "twitch.tv" is listed twice. */
  const PopupDefaultSites: seq<string> := [
    "youtube.com", "facebook.com", "twitter.com", "x.com", "instagram.com",
    "reddit.com", "netflix.com", "tiktok.com", "twitch.tv", "discord.com",
    "whatsapp.com", "telegram.org", "snapchat.com", "pinterest.com", "linkedin.com",
    "spotify.com", "music.apple.com", "soundcloud.com", "hulu.com", "amazon.com/prime",
    "disneyplus.com", "hbo.com", "crunchyroll.com", "funimation.com", "gaming.youtube.com",
    "twitch.tv", "steam.com", "epicgames.com", "roblox.com", "minecraft.net",
    "fortnite.com", "9gag.com", "buzzfeed.com", "vice.com", "mashable.com",
    "theverge.com", "techcrunch.com", "engadget.com", "gizmodo.com", "kotaku.com",
    "polygon.com", "gamespot.com", "ign.com", "pcgamer.com", "rockpapershotgun.com"]

  /** `timeLeft` and `originalTime` when the popup opens: 25 minutes. */
  const OpeningSeconds: int := 25 * 60

  /** The messages the panel sends the service worker with `chrome.runtime.sendMessage`. */
  datatype Message =
    | StartFocusMode(duration: int)
    | PauseFocusMode
    | ResumeFocusMode
    | EndFocusMode

  /** The keys of `chrome.storage.local` the panel uses. */
  datatype Shared = Shared(
    blockedSites: Option<seq<string>>,
    focusModeActive: bool,
    recentActivities: seq<Activity>)

  /**
   * The panel's state: the slider's minutes, the closure variables (whether `focusTimer`
   * holds a running interval), the `DEFAULT_BLOCKED_SITES` array, which the list handlers
   * change in place when storage holds no list, storage, the dynamic rules and the messages
   * sent so far.
   */
  datatype Panel = Panel(
    sliderMinutes: int,
    timeLeft: int,
    originalTime: int,
    isPaused: bool,
    isActive: bool,
    focusTimer: bool,
    defaultSites: seq<string>,
    storage: Shared,
    dynamicRules: RuleSet,
    sent: seq<Message>)

  /** The panel when the popup opens over `storage` and `rules`, the slider at `sliderMinutes`. */
  function Opened(storage: Shared, rules: RuleSet, sliderMinutes: int): Panel {
    Panel(sliderMinutes, OpeningSeconds, OpeningSeconds, false, false, false, PopupDefaultSites, storage, rules, [])
  }

  /** `data.blockedSites || DEFAULT_BLOCKED_SITES`. */
  function ListOrDefault(p: Panel): seq<string> {
    p.storage.blockedSites.GetOr(p.defaultSites)
  }

  /**
   * The panel after `storage.set({ blockedSites })` of a changed list: when the list was the
   * default array, that array was changed in place as well.
   */
  function WithList(p: Panel, list: seq<string>): Panel {
    p.(storage := p.storage.(blockedSites := Some(list)),
       defaultSites := if p.storage.blockedSites.None? then list else p.defaultSites)
  }

  /** `addActivity(icon, text)` of popup.js. */
  function PanelLogged(p: Panel, icon: string, text: string, now: int): Panel {
    p.(storage := p.storage.(recentActivities := Logged(p.storage.recentActivities, Activity(icon, text, now), PopupLogCap)))
  }

  // ---------------------------------------------------------------------------
  // Site blocking

  /** The popup's `disableSiteBlocking`: remove every dynamic rule and clear the flag. */
  function DisableRules(p: Panel): Panel {
    p.(dynamicRules := map[], storage := p.storage.(focusModeActive := false))
  }

  /**
   * The popup's `enableSiteBlocking`: disable first, then add two rules per listed site. A
   * rejected update throws, so the flag is then not set.
   */
  function EnableRules(p: Panel): Panel {
    var p1 := DisableRules(p);
    var add := PopupRules(ListOrDefault(p), 0);
    var updated := if |add| > 0 then UpdateDynamicRules(p1.dynamicRules, {}, add) else Some(p1.dynamicRules);
    match updated
    case None => p1
    case Some(live) => p1.(dynamicRules := live, storage := p1.storage.(focusModeActive := true))
  }

  // ---------------------------------------------------------------------------
  // The countdown

  /** `startFocusSession`: the slider's minutes become the countdown, blocking starts, the worker is told. */
  function StartSession(p: Panel, now: int): Panel {
    var seconds := p.sliderMinutes * 60;
    var p1 := p.(isActive := true, isPaused := false, timeLeft := seconds, originalTime := seconds);
    var p2 := EnableRules(p1);
    var p3 := p2.(sent := p2.sent + [StartFocusMode(seconds)], focusTimer := true);
    PanelLogged(p3, "\U{1F3AF}", "Focus session started", now)
  }

  /** `resetFocusUI`: inactive, unpaused, the countdown back at `originalTime`. */
  function Reset(p: Panel): Panel {
    p.(isActive := false, isPaused := false, timeLeft := p.originalTime)
  }

  /** `endFocusSession(completed)`: stop the interval, reset, unblock, tell the worker, log. */
  function EndSession(p: Panel, completed: bool, now: int): Panel {
    var p1 := Reset(p.(focusTimer := false));
    var p2 := DisableRules(p1);
    var p3 := p2.(sent := p2.sent + [EndFocusMode]);
    if completed then PanelLogged(p3, "\U{1F389}", "Focus session completed successfully!", now)
    else PanelLogged(p3, "\U{23F9}\U{FE0F}", "Focus session stopped", now)
  }

  /** One run of the interval callback of `startTimer`. */
  function Tick(p: Panel, now: int): Panel {
    if p.isPaused then p
    else
      var p1 := p.(timeLeft := p.timeLeft - 1);
      if p1.timeLeft <= 0 then EndSession(p1, true, now) else p1
  }

  /** `pauseFocusSession`. */
  function Paused(p: Panel): Panel {
    p.(isPaused := true, sent := p.sent + [PauseFocusMode])
  }

  /** `resumeFocusSession`. */
  function Resumed(p: Panel): Panel {
    p.(isPaused := false, sent := p.sent + [ResumeFocusMode])
  }

  /** The slider's `input` listener: the new minutes replace the countdown, even during a session. */
  function SliderMoved(p: Panel, minutes: int): Panel {
    p.(sliderMinutes := minutes, timeLeft := minutes * 60, originalTime := minutes * 60)
  }

  // ---------------------------------------------------------------------------
  // The blocked-site list

  /** `addBlockedSite(site)`: clean the site up, append it unless listed, re-block during a session. */
  function AddSite(p: Panel, site: string): Panel {
    var s := Normalise(site);
    var list := ListOrDefault(p);
    if s in list then p
    else
      var p1 := WithList(p, list + [s]);
      if p1.isActive then EnableRules(p1) else p1
  }

  /** `removeBlockedSite(site)`: drop the first copy if listed, re-block during a session. */
  function RemoveSite(p: Panel, site: string): Panel {
    var list := ListOrDefault(p);
    if site !in list then p
    else
      var p1 := WithList(p, RemoveFirst(list, site));
      if p1.isActive then EnableRules(p1) else p1
  }

  // ---------------------------------------------------------------------------
  // What the user and the interval do

  datatype Event =
    | SliderInput(minutes: int)
    | FocusClick
    | PauseClick
    | StopClick
    | AddSiteClick(input: string)
    | RemoveSiteClick(site: string)
    | TimerFired

  /** The panel after `e`; the interval only fires while one runs, and the buttons are guarded as the listeners guard them. */
  function Step(p: Panel, e: Event, now: int): Panel {
    match e
    case SliderInput(minutes) => SliderMoved(p, minutes)
    case FocusClick => if !p.isActive then StartSession(p, now) else p
    case PauseClick => if !p.isActive then p else if p.isPaused then Resumed(p) else Paused(p)
    case StopClick => if p.isActive then EndSession(p, false, now) else p
    case AddSiteClick(input) => if Trim(input) != [] then AddSite(p, Trim(input)) else p
    case RemoveSiteClick(site) => RemoveSite(p, site)
    case TimerFired => if p.focusTimer then Tick(p, now) else p
  }

  // ---------------------------------------------------------------------------
  // The closure of `initializeFocusMode`

  class FocusPanel {
    var sliderMinutes: int
    var timeLeft: int
    var originalTime: int
    var isPaused: bool
    var isActive: bool
    var focusTimer: bool
    var defaultBlockedSites: seq<string>
    var storage: Shared
    var dynamicRules: RuleSet
    var sent: seq<Message>

    ghost function View(): Panel
      reads this
    {
      Panel(sliderMinutes, timeLeft, originalTime, isPaused, isActive, focusTimer, defaultBlockedSites, storage, dynamicRules, sent)
    }

    /** The popup opening: the closure variables at their initial values. */
    constructor (stored: Shared, rules: RuleSet, slider: int)
      ensures View() == Opened(stored, rules, slider)
    {
      sliderMinutes := slider;
      timeLeft := 25 * 60;
      isPaused := false;
      originalTime := 25 * 60;
      isActive := false;
      focusTimer := false;
      defaultBlockedSites := PopupDefaultSites;
      storage := stored;
      dynamicRules := rules;
      sent := [];
    }

    method AddActivity(icon: string, text: string, now: int)
      modifies this
      ensures View() == PanelLogged(old(View()), icon, text, now)
    {
      var recentActivities := [Activity(icon, text, now)] + storage.recentActivities;
      if |recentActivities| > PopupLogCap {
        recentActivities := recentActivities[..PopupLogCap];
      }
      storage := storage.(recentActivities := recentActivities);
    }

    method DisableSiteBlocking()
      modifies this
      ensures View() == DisableRules(old(View()))
    {
      var ruleIds := dynamicRules.Keys;
      if |ruleIds| > 0 {
        RemovalAccepted(dynamicRules, ruleIds);
        dynamicRules := UpdateDynamicRules(dynamicRules, ruleIds, []).value;
      }
      assert dynamicRules == map[];
      storage := storage.(focusModeActive := false);
    }

    method EnableSiteBlocking()
      modifies this
      ensures View() == EnableRules(old(View()))
    {
      var blockedSites := if storage.blockedSites.Some? then storage.blockedSites.value else defaultBlockedSites;
      DisableSiteBlocking();
      var rules := BuildPopupRules(blockedSites);
      if |rules| > 0 {
        var updated := UpdateDynamicRules(dynamicRules, {}, rules);
        if updated.None? {
          return;
        }
        dynamicRules := updated.value;
      }
      storage := storage.(focusModeActive := true);
    }

    method StartFocusSession(now: int)
      modifies this
      ensures View() == StartSession(old(View()), now)
    {
      isActive := true;
      isPaused := false;
      var minutes := sliderMinutes;
      timeLeft := minutes * 60;
      originalTime := minutes * 60;
      ghost var seconds := old(sliderMinutes) * 60;
      ghost var p1 := View();
      assert p1 == old(View()).(isActive := true, isPaused := false, timeLeft := seconds, originalTime := seconds);
      EnableSiteBlocking();
      ghost var p2 := View();
      assert p2 == EnableRules(p1);
      sent := sent + [StartFocusMode(originalTime)];
      StartTimer();
      ghost var p3 := View();
      assert p3 == p2.(sent := p2.sent + [StartFocusMode(seconds)], focusTimer := true);
      AddActivity("\U{1F3AF}", "Focus session started", now);
      assert View() == PanelLogged(p3, "\U{1F3AF}", "Focus session started", now);
    }

    /** `startTimer`: a running interval is cleared and a new one set. */
    method StartTimer()
      modifies this
      ensures View() == old(View()).(focusTimer := true)
    {
      if focusTimer {
        focusTimer := false;
      }
      focusTimer := true;
    }

    /** The interval callback; it runs only while `focusTimer` holds the interval. */
    method OnTimer(now: int)
      requires focusTimer
      modifies this
      ensures View() == Tick(old(View()), now)
    {
      if !isPaused {
        timeLeft := timeLeft - 1;
        if timeLeft <= 0 {
          EndFocusSession(true, now);
        }
      }
    }

    method PauseFocusSession()
      modifies this
      ensures View() == Paused(old(View()))
    {
      isPaused := true;
      sent := sent + [PauseFocusMode];
    }

    method ResumeFocusSession()
      modifies this
      ensures View() == Resumed(old(View()))
    {
      isPaused := false;
      sent := sent + [ResumeFocusMode];
    }

    method EndFocusSession(completed: bool, now: int)
      modifies this
      ensures View() == EndSession(old(View()), completed, now)
    {
      if focusTimer {
        focusTimer := false;
      }
      ResetFocusUI();
      ghost var p1 := View();
      assert p1 == Reset(old(View()).(focusTimer := false));
      DisableSiteBlocking();
      sent := sent + [EndFocusMode];
      if completed {
        AddActivity("\U{1F389}", "Focus session completed successfully!", now);
      } else {
        AddActivity("\U{23F9}\U{FE0F}", "Focus session stopped", now);
      }
    }

    method ResetFocusUI()
      modifies this
      ensures View() == Reset(old(View()))
    {
      isActive := false;
      isPaused := false;
      timeLeft := originalTime;
    }

    method OnSliderInput(minutes: int)
      modifies this
      ensures View() == SliderMoved(old(View()), minutes)
    {
      sliderMinutes := minutes;
      timeLeft := minutes * 60;
      originalTime := minutes * 60;
    }

    method AddBlockedSite(site: string)
      modifies this
      ensures View() == AddSite(old(View()), site)
    {
      var cleaned := Normalise(site);
      var blockedSites := if storage.blockedSites.Some? then storage.blockedSites.value else defaultBlockedSites;
      if cleaned !in blockedSites {
        blockedSites := blockedSites + [cleaned];
        if storage.blockedSites.None? {
          defaultBlockedSites := blockedSites;
        }
        storage := storage.(blockedSites := Some(blockedSites));
        if isActive {
          EnableSiteBlocking();
        }
      }
    }

    method RemoveBlockedSite(site: string)
      modifies this
      ensures View() == RemoveSite(old(View()), site)
    {
      var blockedSites := if storage.blockedSites.Some? then storage.blockedSites.value else defaultBlockedSites;
      var index := IndexOf(blockedSites, site);
      if index > -1 {
        blockedSites := RemoveAt(blockedSites, index);
        assert blockedSites == RemoveFirst(old(ListOrDefault(View())), site);
        if storage.blockedSites.None? {
          defaultBlockedSites := blockedSites;
        }
        storage := storage.(blockedSites := Some(blockedSites));
        if isActive {
          EnableSiteBlocking();
        }
      }
    }

    /** Dispatch of one event to the listener that handles it. */
    method Handle(e: Event, now: int)
      modifies this
      ensures View() == Step(old(View()), e, now)
    {
      match e
      case SliderInput(minutes) =>
        OnSliderInput(minutes);
      case FocusClick =>
        if !isActive {
          StartFocusSession(now);
        }
      case PauseClick =>
        if isActive {
          if isPaused {
            ResumeFocusSession();
          } else {
            PauseFocusSession();
          }
        }
      case StopClick =>
        if isActive {
          EndFocusSession(false, now);
        }
      case AddSiteClick(input) =>
        var site := Trim(input);
        if site != [] {
          AddBlockedSite(site);
        }
      case RemoveSiteClick(site) =>
        RemoveBlockedSite(site);
      case TimerFired =>
        if focusTimer {
          OnTimer(now);
        }
    }
  }

  // ---------------------------------------------------------------------------
  // The popup's own performance counters

  /**
   * popup.js's `performanceStats`: counters that start at zero whenever the popup opens, bumped
   * by its `tabs.onCreated` and `tabs.onRemoved` listeners, each bump writing all of them over
   * the stored `performanceStats`.
   */
  class PerformanceMonitor {
    var performanceStats: map<string, int>
    var storedStats: map<string, int>

    constructor (stored: map<string, int>)
      ensures performanceStats == InitialStats && storedStats == stored
    {
      performanceStats := InitialStats;
      storedStats := stored;
    }

    /** `updatePerformanceStats(stat, value)`: bump the popup's counter, then store all of them. */
    method UpdatePerformanceStats(stat: string, value: int)
      modifies this
      ensures performanceStats == Bumped(old(performanceStats), stat, value)
      ensures storedStats == performanceStats
    {
      performanceStats := Bumped(performanceStats, stat, value);
      storedStats := performanceStats;
    }

    method OnTabCreated()
      modifies this
      ensures performanceStats == Bumped(old(performanceStats), "tabsOpened", 1)
      ensures storedStats == performanceStats
    {
      UpdatePerformanceStats("tabsOpened", 1);
    }

    method OnTabRemoved()
      modifies this
      ensures performanceStats == Bumped(old(performanceStats), "tabsClosed", 1)
      ensures storedStats == performanceStats
    {
      UpdatePerformanceStats("tabsClosed", 1);
    }
  }
}
