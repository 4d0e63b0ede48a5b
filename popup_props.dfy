/** What the focus panel of popup.js guarantees, stated over the handler functions of `Popup`. */
module PopupProps {
  import opened Common
  import opened Rules
  import opened Sites
  import opened Logs
  import opened Popup

  // ---------------------------------------------------------------------------
  // Site blocking

  /** The ids of the rules popup.js generates for `sites` are exactly 1 to `2|sites|`. */
  lemma PopupRuleIds(sites: seq<string>)
    ensures forall id :: id in AsMap(PopupRules(sites, 0)) <==> 1 <= id <= 2 * |sites|
  {
    PopupRulesShape(sites, 0);
    AsMapConsecutive(PopupRules(sites, 0), 1);
  }

  /** Site `j` is blocked under `2j+1` by its subdomain pattern and under `2j+2` by its exact pattern. */
  lemma PopupRuleFilters(sites: seq<string>, j: nat)
    requires j < |sites|
    ensures var m := AsMap(PopupRules(sites, 0));
      && 2 * j + 1 in m && m[2 * j + 1] == SubdomainFilter(sites[j])
      && 2 * j + 2 in m && m[2 * j + 2] == ExactFilter(sites[j])
  {
    var add := PopupRules(sites, 0);
    PopupRulesShape(sites, 0);
    assert add[2 * j] == Rule(2 * j + 1, SubdomainFilter(sites[j]));
    assert add[2 * j + 1] == Rule(2 * j + 2, ExactFilter(sites[j]));
  }

  /**
   * Enabling is never rejected: it replaces whatever rules were live by the rules of the list
   * and sets the flag, and changes nothing else.
   */
  lemma EnableRulesMap(p: Panel)
    ensures EnableRules(p) == p.(dynamicRules := AsMap(PopupRules(ListOrDefault(p), 0)), storage := p.storage.(focusModeActive := true))
  {
    var add := PopupRules(ListOrDefault(p), 0);
    var none: RuleSet := map[];
    assert DisableRules(p).dynamicRules == none;
    if |add| > 0 {
      assert UpdateDynamicRules(none, {}, add) == Some(AsMap(add)) by {
        PopupRulesShape(ListOrDefault(p), 0);
        FreshBatchAccepted(add);
      }
    } else {
      assert add == [];
    }
  }

  /**
   * After enabling, exactly the ids 1 to `2n` are live for a list of `n` sites, site `j` blocked
   * under `2j+1` by its subdomain pattern and under `2j+2` by its exact pattern.
   */
  lemma EnableRulesShape(p: Panel)
    ensures var list := ListOrDefault(p);
      var e := EnableRules(p);
      && e.storage.focusModeActive
      && (forall id :: id in e.dynamicRules <==> 1 <= id <= 2 * |list|)
      && forall j :: 0 <= j < |list| ==>
           e.dynamicRules[2 * j + 1] == SubdomainFilter(list[j]) && e.dynamicRules[2 * j + 2] == ExactFilter(list[j])
  {
    EnableRulesMap(p);
    var list := ListOrDefault(p);
    PopupRuleIds(list);
    forall j | 0 <= j < |list|
      ensures EnableRules(p).dynamicRules[2 * j + 1] == SubdomainFilter(list[j])
      ensures EnableRules(p).dynamicRules[2 * j + 2] == ExactFilter(list[j])
    {
      PopupRuleFilters(list, j);
    }
  }

  /** Enabling twice is enabling once. */
  lemma EnableIdempotent(p: Panel)
    ensures EnableRules(EnableRules(p)) == EnableRules(p)
  {
    EnableRulesMap(p);
    EnableRulesMap(EnableRules(p));
  }

  /** What enabling leaves does not depend on the rules that were live before. */
  lemma EnableIgnoresLiveRules(p: Panel, live: RuleSet)
    ensures EnableRules(p.(dynamicRules := live)) == EnableRules(p)
  {
  }

  // ---------------------------------------------------------------------------
  // The countdown

  /** The panel after the interval fires at each of `nows` in turn. */
  function Run(p: Panel, nows: seq<int>): Panel
    decreases |nows|
  {
    if nows == [] then p else Run(Step(p, TimerFired, nows[0]), nows[1..])
  }

  /** Firing at `a` then at `b` is firing at `a + b`. */
  lemma {:induction false} RunAppend(p: Panel, a: seq<int>, b: seq<int>)
    ensures Run(p, a + b) == Run(Run(p, a), b)
    decreases |a|
  {
    if a != [] {
      assert (a + b)[0] == a[0] && (a + b)[1..] == a[1..] + b;
      RunAppend(Step(p, TimerFired, a[0]), a[1..], b);
    } else {
      assert a + b == b;
    }
  }

  /** While the session runs unpaused, each firing short of the last takes one second off and changes nothing else. */
  lemma {:induction false} CountdownRuns(p: Panel, nows: seq<int>)
    requires p.isActive && !p.isPaused && p.focusTimer
    requires |nows| < p.timeLeft
    ensures Run(p, nows) == p.(timeLeft := p.timeLeft - |nows|)
    decreases |nows|
  {
    if nows != [] {
      var q := p.(timeLeft := p.timeLeft - 1);
      assert Step(p, TimerFired, nows[0]) == q;
      CountdownRuns(q, nows[1..]);
    }
  }

  /**
   * An unpaused session with `timeLeft` seconds ends as completed, at the firing numbered
   * `timeLeft`: the panel resets, unblocks and logs the completion, stamped with that firing's time.
   */
  lemma CountdownCompletes(p: Panel, nows: seq<int>)
    requires p.isActive && !p.isPaused && p.focusTimer
    requires |nows| == p.timeLeft >= 1
    ensures Run(p, nows) == EndSession(p.(timeLeft := 0), true, nows[|nows| - 1])
    ensures !Run(p, nows).isActive && Run(p, nows).timeLeft == p.originalTime
    ensures Run(p, nows).storage.recentActivities[0] == Activity("\U{1F389}", "Focus session completed successfully!", nows[|nows| - 1])
  {
    var k := |nows| - 1;
    assert nows == nows[..k] + [nows[k]];
    RunAppend(p, nows[..k], [nows[k]]);
    CountdownRuns(p, nows[..k]);
    var q := p.(timeLeft := 1);
    assert Run(q, [nows[k]]) == Step(q, TimerFired, nows[k]);
  }

  /** A paused countdown does not move. */
  lemma PausedTickIsNoOp(p: Panel, now: int)
    requires p.isPaused
    ensures Step(p, TimerFired, now) == p
  {
  }

  /** Pressing pause twice during a session resumes it: only the two messages remain. */
  lemma PauseToggleRoundTrip(p: Panel, t1: int, t2: int)
    requires p.isActive && !p.isPaused
    ensures Step(Step(p, PauseClick, t1), PauseClick, t2) == p.(sent := p.sent + [PauseFocusMode, ResumeFocusMode])
  {
  }

  /**
   * Starting and then stopping a session leaves the panel idle at the slider's minutes with no
   * rule live and the flag cleared, the worker told of the start and of the end, and the two
   * events logged newest first; the blocked-site list is untouched.
   */
  lemma StartThenStop(p: Panel, t1: int, t2: int)
    requires !p.isActive
    ensures var q := Step(Step(p, FocusClick, t1), StopClick, t2);
      && !q.isActive && !q.isPaused && !q.focusTimer
      && q.timeLeft == q.originalTime == p.sliderMinutes * 60
      && q.dynamicRules == map[] && !q.storage.focusModeActive
      && q.sent == p.sent + [StartFocusMode(p.sliderMinutes * 60), EndFocusMode]
      && q.storage.recentActivities[..2] == [Activity("\U{23F9}\U{FE0F}", "Focus session stopped", t2), Activity("\U{1F3AF}", "Focus session started", t1)]
      && ListOrDefault(q) == ListOrDefault(p)
  {
    var s := Step(p, FocusClick, t1);
    EnableRulesShape(p.(isActive := true, isPaused := false, timeLeft := p.sliderMinutes * 60, originalTime := p.sliderMinutes * 60));
    assert s.isActive;
    var q := Step(s, StopClick, t2);
    assert q.storage.recentActivities[1] == s.storage.recentActivities[0];
  }

  // ---------------------------------------------------------------------------
  // The blocked-site list

  /**
   * Adding leaves the cleaned-up site listed, appended unless it was listed; only the list,
   * the default array and the rules can change, and during a session the rules then follow
   * the list.
   */
  lemma AddSiteEffect(p: Panel, site: string)
    ensures ListOrDefault(AddSite(p, site)) == AddIfAbsent(ListOrDefault(p), Normalise(site))
    ensures Normalise(site) in ListOrDefault(p) ==> AddSite(p, site) == p
    ensures AddSite(p, site).(storage := p.storage, defaultSites := p.defaultSites, dynamicRules := p.dynamicRules) == p
    ensures AddSite(p, site).storage.recentActivities == p.storage.recentActivities
    ensures Normalise(site) !in ListOrDefault(p) && p.isActive ==> EnableRules(AddSite(p, site)) == AddSite(p, site)
  {
    if Normalise(site) !in ListOrDefault(p) && p.isActive {
      var p1 := WithList(p, ListOrDefault(p) + [Normalise(site)]);
      EnableIdempotent(p1);
      EnableRulesMap(p1);
    }
  }

  /**
   * Removing drops the first copy of a listed site and keeps the list otherwise; only the
   * list, the default array and the rules can change, and during a session the rules then
   * follow the list.
   */
  lemma RemoveSiteEffect(p: Panel, site: string)
    ensures ListOrDefault(RemoveSite(p, site)) == RemoveFirst(ListOrDefault(p), site)
    ensures site !in ListOrDefault(p) ==> RemoveSite(p, site) == p
    ensures RemoveSite(p, site).(storage := p.storage, defaultSites := p.defaultSites, dynamicRules := p.dynamicRules) == p
    ensures RemoveSite(p, site).storage.recentActivities == p.storage.recentActivities
    ensures site in ListOrDefault(p) && p.isActive ==> EnableRules(RemoveSite(p, site)) == RemoveSite(p, site)
  {
    if site in ListOrDefault(p) && p.isActive {
      var p1 := WithList(p, RemoveFirst(ListOrDefault(p), site));
      EnableIdempotent(p1);
      EnableRulesMap(p1);
    }
  }

  /**
   * Removing a site just added takes the list back to what it was and, during a session, the
   * rules back to those the old list blocks.
   */
  lemma AddRemoveRoundTrip(p: Panel, site: string)
    requires Normalise(site) !in ListOrDefault(p)
    ensures var q := RemoveSite(AddSite(p, site), Normalise(site));
      && ListOrDefault(q) == ListOrDefault(p)
      && (p.isActive ==> q.dynamicRules == EnableRules(p).dynamicRules)
  {
    var s := Normalise(site);
    var list := ListOrDefault(p);
    var a := AddSite(p, site);
    AddSiteEffect(p, site);
    assert ListOrDefault(a) == list + [s];
    RemoveUndoesAdd(list, s);
    RemoveSiteEffect(a, s);
    var q := RemoveSite(a, s);
    if p.isActive {
      EnableRulesMap(q);
      EnableRulesMap(p);
    }
  }

  /** Input that is blank once trimmed adds nothing. */
  lemma BlankInputIgnored(p: Panel, input: string, now: int)
    requires forall i :: 0 <= i < |input| ==> IsSpace(input[i])
    ensures Step(p, AddSiteClick(input), now) == p
  {
  }

  /** A site listed at two positions is still listed after its first copy is removed. */
  lemma RemoveFirstKeepsSecondCopy(list: seq<string>, x: string, i: nat, j: nat)
    requires i < j < |list| && list[i] == x && list[j] == x
    ensures x in RemoveFirst(list, x)
  {
    assert RemoveFirst(list, x)[j - 1] == x;
  }

  /** "twitch.tv" is listed twice by default, so removing it from the default list leaves it listed. */
  lemma DefaultTwitchSurvivesRemoval(p: Panel)
    requires p.storage.blockedSites.None? && p.defaultSites == PopupDefaultSites
    ensures "twitch.tv" in ListOrDefault(RemoveSite(p, "twitch.tv"))
  {
    assert PopupDefaultSites[8] == "twitch.tv";
    assert PopupDefaultSites[25] == "twitch.tv";
    RemoveFirstKeepsSecondCopy(PopupDefaultSites, "twitch.tv", 8, 25);
    RemoveSiteEffect(p, "twitch.tv");
  }

  // ---------------------------------------------------------------------------
  // The panel invariant

  /** What the panel has told the worker: whether a session runs and whether it is paused. */
  function Announced(sent: seq<Message>): (bool, bool)
    decreases |sent|
  {
    if sent == [] then (false, false)
    else
      var (active, paused) := Announced(sent[..|sent| - 1]);
      match sent[|sent| - 1]
      case StartFocusMode(_) => (true, false)
      case PauseFocusMode => (active, true)
      case ResumeFocusMode => (active, false)
      case EndFocusMode => (false, false)
  }

  /**
   * The panel's state hangs together: an interval runs exactly during a session, an idle panel
   * is unpaused with its full time, the countdown never exceeds its start, during a session
   * blocking is exactly what enabling the list yields, the log holds at most 20 entries, and
   * the worker has been told the panel's session state.
   */
  predicate Consistent(p: Panel) {
    && p.isActive == p.focusTimer
    && (!p.isActive ==> !p.isPaused && p.timeLeft == p.originalTime)
    && p.timeLeft <= p.originalTime
    && (p.isActive ==> EnableRules(p) == p)
    && |p.storage.recentActivities| <= PopupLogCap
    && Announced(p.sent) == (p.isActive, p.isPaused)
  }

  /** A freshly opened panel is consistent when the stored log is within the cap. */
  lemma OpenedConsistent(stored: Shared, rules: RuleSet, slider: int)
    requires |stored.recentActivities| <= PopupLogCap
    ensures Consistent(Opened(stored, rules, slider))
  {
  }

  /** Announcing one more message. */
  lemma AnnouncedStep(sent: seq<Message>, m: Message)
    ensures Announced(sent + [m]) == match m
      case StartFocusMode(_) => (true, false)
      case PauseFocusMode => (Announced(sent).0, true)
      case ResumeFocusMode => (Announced(sent).0, false)
      case EndFocusMode => (false, false)
  {
    assert (sent + [m])[..|sent|] == sent;
  }

  lemma StartKeepsConsistent(p: Panel, now: int)
    requires Consistent(p) && !p.isActive
    ensures Consistent(StartSession(p, now))
  {
    var seconds := p.sliderMinutes * 60;
    var p1 := p.(isActive := true, isPaused := false, timeLeft := seconds, originalTime := seconds);
    EnableIdempotent(p1);
    AnnouncedStep(p.sent, StartFocusMode(seconds));
  }

  lemma EndKeepsConsistent(p: Panel, completed: bool, now: int)
    requires Consistent(p)
    ensures Consistent(EndSession(p, completed, now))
  {
    AnnouncedStep(p.sent, EndFocusMode);
    var p3 := DisableRules(Reset(p.(focusTimer := false))).(sent := p.sent + [EndFocusMode]);
    assert Announced(p3.sent) == (false, false);
    assert !p3.isActive && !p3.isPaused && p3.timeLeft == p3.originalTime && !p3.focusTimer;
  }

  lemma TickKeepsConsistent(p: Panel, now: int)
    requires Consistent(p) && p.focusTimer
    ensures Consistent(Tick(p, now))
  {
    if !p.isPaused {
      var p1 := p.(timeLeft := p.timeLeft - 1);
      if p1.timeLeft > 0 {
        assert EnableRules(p1) == EnableRules(p).(timeLeft := p.timeLeft - 1);
      } else {
        EndKeepsConsistent(p1, true, now);
      }
    }
  }

  lemma PauseClickKeepsConsistent(p: Panel, now: int)
    requires Consistent(p)
    ensures Consistent(Step(p, PauseClick, now))
  {
    if p.isActive {
      if p.isPaused {
        AnnouncedStep(p.sent, ResumeFocusMode);
        assert EnableRules(Resumed(p)) == EnableRules(p).(isPaused := false, sent := p.sent + [ResumeFocusMode]);
      } else {
        AnnouncedStep(p.sent, PauseFocusMode);
        assert EnableRules(Paused(p)) == EnableRules(p).(isPaused := true, sent := p.sent + [PauseFocusMode]);
      }
    }
  }

  lemma SliderKeepsConsistent(p: Panel, minutes: int)
    requires Consistent(p)
    ensures Consistent(SliderMoved(p, minutes))
  {
    if p.isActive {
      var q := SliderMoved(p, minutes);
      assert EnableRules(q) == EnableRules(p).(sliderMinutes := minutes, timeLeft := minutes * 60, originalTime := minutes * 60);
    }
  }

  lemma AddKeepsConsistent(p: Panel, site: string)
    requires Consistent(p)
    ensures Consistent(AddSite(p, site))
  {
    AddSiteEffect(p, site);
  }

  lemma RemoveKeepsConsistent(p: Panel, site: string)
    requires Consistent(p)
    ensures Consistent(RemoveSite(p, site))
  {
    RemoveSiteEffect(p, site);
  }

  /** Every event keeps the panel consistent. */
  lemma StepKeepsConsistent(p: Panel, e: Event, now: int)
    requires Consistent(p)
    ensures Consistent(Step(p, e, now))
  {
    match e
    case SliderInput(minutes) => SliderKeepsConsistent(p, minutes);
    case FocusClick =>
      if !p.isActive {
        StartKeepsConsistent(p, now);
      }
    case PauseClick => PauseClickKeepsConsistent(p, now);
    case StopClick =>
      if p.isActive {
        EndKeepsConsistent(p, false, now);
      }
    case AddSiteClick(input) =>
      if Trim(input) != [] {
        AddKeepsConsistent(p, Trim(input));
      }
    case RemoveSiteClick(site) => RemoveKeepsConsistent(p, site);
    case TimerFired =>
      if p.focusTimer {
        TickKeepsConsistent(p, now);
      }
  }

  // ---------------------------------------------------------------------------
  // The popup's counters

  /** The popup's counters after `n` tabs were created while it was open. */
  function TabsCreated(n: nat): map<string, int> {
    if n == 0 then InitialStats else Bumped(TabsCreated(n - 1), "tabsOpened", 1)
  }

  /**
   * While the popup is open, what it stores counts only the tabs created since it opened: the
   * counters the service worker stored before, the completed focus sessions among them, are
   * written over with zero.
   */
  lemma {:induction false} TabsCreatedStored(n: nat)
    ensures TabsCreated(n) == InitialStats["tabsOpened" := n]
    ensures TabsCreated(n)["focusSessionsCompleted"] == 0 && TabsCreated(n)["totalFocusTime"] == 0
  {
    if n > 0 {
      TabsCreatedStored(n - 1);
    }
  }
}
