/**
 * The page agent (content.js): the script every page runs. While focus mode is on it covers a
 * page whose hostname matches a blocked site with an overlay and shows a reminder on any other
 * page; it also counts the page's visible time and its interactions.
 */
module Content {
  import opened Common

  // ---------------------------------------------------------------------------
  // Matching a page against the blocked sites

  /** One blocked site matches a hostname when either contains the other. */
  predicate SiteMatches(hostname: string, site: string) {
    Includes(hostname, site) || Includes(site, hostname)
  }

  /** `blockedSites.some(site => currentDomain.includes(site) || site.includes(currentDomain))`. */
  function Blocks(hostname: string, sites: seq<string>): (b: bool)
    ensures b <==> exists i :: 0 <= i < |sites| && SiteMatches(hostname, sites[i])
  {
    if sites == [] then false
    else if SiteMatches(hostname, sites[0]) then true
    else
      var b := Blocks(hostname, sites[1..]);
      assert forall i :: 0 < i < |sites| ==> sites[i] == sites[1..][i - 1];
      b
  }

  // ---------------------------------------------------------------------------
  // Counting words

  /** A text without whitespace. */
  predicate NoSpace(w: string) {
    forall i :: 0 <= i < |w| ==> !IsSpace(w[i])
  }

  /** A word: a non-empty text without whitespace. */
  predicate IsWord(w: string) {
    w != [] && NoSpace(w)
  }

  /**
   * `t.split(/\s+/)`: the pieces between maximal runs of whitespace; a leading or trailing run
   * gives an empty piece, and the empty text gives one empty piece. No piece holds whitespace;
   * a text starting with a non-space starts with a word, and in a text ending with a non-space
   * every piece after the first is a word.
   */
  function SplitSpaces(t: string): (r: seq<string>)
    ensures |r| >= 1
    ensures forall k :: 0 <= k < |r| ==> NoSpace(r[k])
    ensures t != [] && !IsSpace(t[0]) ==> r[0] != []
    ensures t != [] && !IsSpace(t[|t| - 1]) ==> forall k :: 1 <= k < |r| ==> r[k] != []
    decreases |t|
  {
    if t == [] then [[]]
    else if IsSpace(t[0]) then
      if |t| > 1 && IsSpace(t[1]) then SplitSpaces(t[1..]) else [[]] + SplitSpaces(t[1..])
    else
      var rest := SplitSpaces(t[1..]);
      assert forall k :: 1 <= k < |rest| ==> rest[1..][k - 1] == rest[k];
      [[t[0]] + rest[0]] + rest[1..]
  }

  /** `getWordCount`: the pieces of the trimmed page text. */
  function WordCount(text: string): (n: nat)
    ensures n >= 1
  {
    |SplitSpaces(Trim(text))|
  }

  // ---------------------------------------------------------------------------
  // The page's state

  /** A message the page sends to the service worker. */
  datatype Outgoing =
    | EndFocusMode
    | ToggleFocusMode
    | GroupSimilarTabs
    | CloseDuplicates
    | PageAnalytics(domain: string, timeSpent: int, interactions: nat)

  /**
   * The script's module-level state. `overlay` stands for `focusOverlay` being set;
   * `overlaysCreated` and `overlaysRemoved` count the overlay elements put into and taken out of
   * the document, `remindersShown` the reminders put into it.
   */
  datatype PageState = PageState(
    active: bool,
    overlay: bool,
    warningShown: bool,
    overlaysCreated: nat,
    overlaysRemoved: nat,
    remindersShown: nat,
    timeSpent: int,
    startTime: int,
    interactions: nat,
    sent: seq<Outgoing>,
    listening: bool)

  /** The state when the script starts at time `now`. */
  function Loaded(now: int): PageState {
    PageState(false, false, false, 0, 0, 0, 0, now, 0, [], false)
  }

  /** `showFocusBlockedOverlay`: nothing while an overlay is showing, else a new one. */
  function ShowOverlay(p: PageState): PageState {
    if p.overlay then p else p.(overlay := true, overlaysCreated := p.overlaysCreated + 1)
  }

  /** `removeFocusOverlay`: takes the overlay out when there is one. */
  function RemoveOverlay(p: PageState): PageState {
    if p.overlay then p.(overlay := false, overlaysRemoved := p.overlaysRemoved + 1) else p
  }

  /** `showFocusReminder`: nothing once shown, else one reminder and the flag set. */
  function ShowReminder(p: PageState): PageState {
    if p.warningShown then p else p.(warningShown := true, remindersShown := p.remindersShown + 1)
  }

  /** `checkFocusMode`, with `stored` the `blockedSites` read from storage (`|| []`). */
  function CheckFocus(p: PageState, hostname: string, stored: Option<seq<string>>): PageState {
    if !p.active then p
    else if Blocks(hostname, stored.GetOr([])) then ShowOverlay(p)
    else ShowReminder(p)
  }

  /** `handleFocusModeStarted`. */
  function Started(p: PageState, hostname: string, stored: Option<seq<string>>): PageState {
    CheckFocus(p.(active := true), hostname, stored)
  }

  /** `handleFocusModeEnded`: inactive, no overlay, and the reminder may show again. */
  function Ended(p: PageState): PageState {
    RemoveOverlay(p.(active := false)).(warningShown := false)
  }

  /**
   * `handleMessage`: the actions the page answers to. A message touches only the focus flag, the
   * overlay and the reminder; any other action changes nothing.
   */
  function OnMessage(p: PageState, hostname: string, action: string, stored: Option<seq<string>>): (r: PageState)
    ensures r == p.(active := r.active, overlay := r.overlay, warningShown := r.warningShown,
                    overlaysCreated := r.overlaysCreated, overlaysRemoved := r.overlaysRemoved,
                    remindersShown := r.remindersShown)
    ensures (action != "focusModeStarted" && action != "focusModeEnded" && action != "checkFocusMode"
             && action != "showFocusReminder") ==> r == p
  {
    if action == "focusModeStarted" then Started(p, hostname, stored)
    else if action == "focusModeEnded" then Ended(p)
    else if action == "checkFocusMode" then CheckFocus(p, hostname, stored)
    else if action == "showFocusReminder" then ShowReminder(p)
    else p
  }

  /** The message the keyboard shortcut Alt+`key` sends, if any. */
  function Shortcut(altKey: bool, key: string): Option<Outgoing> {
    if altKey && key == "f" then Some(ToggleFocusMode)
    else if altKey && key == "g" then Some(GroupSimilarTabs)
    else if altKey && key == "d" then Some(CloseDuplicates)
    else None
  }

  /** A `keydown`: the shortcuts' messages, then one more interaction. */
  function KeyDown(p: PageState, altKey: bool, key: string): PageState {
    var sent := match Shortcut(altKey, key) case Some(m) => p.sent + [m] case None => p.sent;
    p.(sent := sent, interactions := p.interactions + 1)
  }

  /** An event reaching the page; storage reads and the clock travel with it. */
  datatype Event =
    | Message(action: string, stored: Option<seq<string>>)
    | StatusReply(active: bool, stored: Option<seq<string>>)
    | StorageChange(namespace: string, focusChange: Option<bool>, stored: Option<seq<string>>)
    | VisibilityChange(hidden: bool, now: int)
    | BeforeUnload(now: int)
    | KeyDownEvent(altKey: bool, key: string)
    | Click
    | TouchStart
    | KeyPress
    | EndButtonClick

  /**
   * What each listener of the script does with `e`, on the page at `hostname`. The message
   * listener is added only once `getFocusStatus` has been answered, so a message before the
   * reply reaches no listener.
   */
  function Step(p: PageState, hostname: string, e: Event): PageState {
    match e
    case Message(action, stored) =>
      if p.listening then OnMessage(p, hostname, action, stored) else p
    case StatusReply(active, stored) =>
      (if active then CheckFocus(p.(active := true), hostname, stored) else p).(listening := true)
    case StorageChange(namespace, focusChange, stored) =>
      if namespace == "local" && focusChange.Some? then
        if focusChange.value then Started(p, hostname, stored) else Ended(p)
      else p
    case VisibilityChange(hidden, now) =>
      if hidden then p.(timeSpent := p.timeSpent + (now - p.startTime)) else p.(startTime := now)
    case BeforeUnload(now) =>
      var t := p.timeSpent + (now - p.startTime);
      RemoveOverlay(p.(timeSpent := t, sent := p.sent + [PageAnalytics(hostname, t, p.interactions)]))
    case KeyDownEvent(altKey, key) => KeyDown(p, altKey, key)
    case Click => p.(interactions := p.interactions + 1)
    case TouchStart => p.(interactions := p.interactions + 1)
    case KeyPress => p.(interactions := p.interactions + 1)
    case EndButtonClick =>
      if p.overlay then RemoveOverlay(p.(sent := p.sent + [EndFocusMode])) else p
  }

  // ---------------------------------------------------------------------------
  // The script's variables and handlers

  class PageAgent {
    const hostname: string
    var focusModeActive: bool
    var focusOverlay: bool
    var focusWarningShown: bool
    var overlaysCreated: nat
    var overlaysRemoved: nat
    var remindersShown: nat
    var timeSpent: int
    var startTime: int
    var interactions: nat
    var sent: seq<Outgoing>
    /** Whether `handleMessage` has been added as the runtime message listener. */
    var messageListener: bool

    ghost function View(): PageState
      reads this
    {
      PageState(focusModeActive, focusOverlay, focusWarningShown, overlaysCreated, overlaysRemoved,
        remindersShown, timeSpent, startTime, interactions, sent, messageListener)
    }

    /** The script loading on the page at `host` at time `now`. */
    constructor (host: string, now: int)
      ensures hostname == host && View() == Loaded(now)
    {
      hostname := host;
      focusModeActive := false;
      focusOverlay := false;
      focusWarningShown := false;
      overlaysCreated := 0;
      overlaysRemoved := 0;
      remindersShown := 0;
      timeSpent := 0;
      startTime := now;
      interactions := 0;
      sent := [];
      messageListener := false;
    }

    method ShowFocusBlockedOverlay()
      modifies this
      ensures View() == ShowOverlay(old(View()))
    {
      if focusOverlay {
        return;
      }
      focusOverlay := true;
      overlaysCreated := overlaysCreated + 1;
    }

    method RemoveFocusOverlay()
      modifies this
      ensures View() == RemoveOverlay(old(View()))
    {
      if focusOverlay {
        overlaysRemoved := overlaysRemoved + 1;
        focusOverlay := false;
      }
    }

    method ShowFocusReminder()
      modifies this
      ensures View() == ShowReminder(old(View()))
    {
      if focusWarningShown {
        return;
      }
      remindersShown := remindersShown + 1;
      focusWarningShown := true;
    }

    method CheckFocusMode(stored: Option<seq<string>>)
      modifies this
      ensures View() == CheckFocus(old(View()), hostname, stored)
    {
      if !focusModeActive {
        return;
      }
      var blockedSites := stored.GetOr([]);
      var isBlocked := Blocks(hostname, blockedSites);
      if isBlocked {
        ShowFocusBlockedOverlay();
      } else {
        ShowFocusReminder();
      }
    }

    method HandleFocusModeStarted(stored: Option<seq<string>>)
      modifies this
      ensures View() == Started(old(View()), hostname, stored)
    {
      focusModeActive := true;
      CheckFocusMode(stored);
    }

    method HandleFocusModeEnded()
      modifies this
      ensures View() == Ended(old(View()))
    {
      focusModeActive := false;
      RemoveFocusOverlay();
      focusWarningShown := false;
    }

    /** `initializeContentScript`, once the service worker has answered `getFocusStatus`. */
    method OnStatusReply(active: bool, stored: Option<seq<string>>)
      modifies this
      ensures View() == Step(old(View()), hostname, StatusReply(active, stored))
    {
      if active {
        focusModeActive := true;
        CheckFocusMode(stored);
      }
      messageListener := true;
    }

    method HandleMessage(action: string, stored: Option<seq<string>>)
      modifies this
      ensures View() == OnMessage(old(View()), hostname, action, stored)
    {
      if action == "focusModeStarted" {
        HandleFocusModeStarted(stored);
      } else if action == "focusModeEnded" {
        HandleFocusModeEnded();
      } else if action == "checkFocusMode" {
        CheckFocusMode(stored);
      } else if action == "showFocusReminder" {
        ShowFocusReminder();
      }
    }

    /** The `chrome.storage.onChanged` listener; `focusChange` is the truthiness of the new value. */
    method OnStorageChanged(namespace: string, focusChange: Option<bool>, stored: Option<seq<string>>)
      modifies this
      ensures View() == Step(old(View()), hostname, StorageChange(namespace, focusChange, stored))
    {
      if namespace == "local" && focusChange.Some? {
        if focusChange.value {
          HandleFocusModeStarted(stored);
        } else {
          HandleFocusModeEnded();
        }
      }
    }

    method OnVisibilityChange(hidden: bool, now: int)
      modifies this
      ensures View() == Step(old(View()), hostname, VisibilityChange(hidden, now))
    {
      if hidden {
        timeSpent := timeSpent + (now - startTime);
      } else {
        startTime := now;
      }
    }

    /** The two `beforeunload` listeners, in the order the script adds them: the time report, then the overlay's removal. */
    method OnBeforeUnload(now: int)
      modifies this
      ensures View() == Step(old(View()), hostname, BeforeUnload(now))
    {
      timeSpent := timeSpent + (now - startTime);
      sent := sent + [PageAnalytics(hostname, timeSpent, interactions)];
      RemoveFocusOverlay();
    }

    method OnKeyDown(altKey: bool, key: string)
      modifies this
      ensures View() == KeyDown(old(View()), altKey, key)
    {
      if altKey && key == "f" {
        sent := sent + [ToggleFocusMode];
      }
      if altKey && key == "g" {
        sent := sent + [GroupSimilarTabs];
      }
      if altKey && key == "d" {
        sent := sent + [CloseDuplicates];
      }
      interactions := interactions + 1;
    }

    /** The `click`, `touchstart` and `keypress` listeners. */
    method OnInteraction()
      modifies this
      ensures View() == old(View()).(interactions := old(interactions) + 1)
    {
      interactions := interactions + 1;
    }

    /** The overlay's "End Focus Session" button. */
    method OnEndButton()
      modifies this
      requires focusOverlay
      ensures View() == Step(old(View()), hostname, EndButtonClick)
    {
      sent := sent + [EndFocusMode];
      RemoveFocusOverlay();
    }

    method Handle(e: Event)
      modifies this
      requires e.EndButtonClick? ==> focusOverlay
      ensures View() == Step(old(View()), hostname, e)
    {
      match e
      case Message(action, stored) =>
        if messageListener {
          HandleMessage(action, stored);
        }
      case StatusReply(active, stored) => OnStatusReply(active, stored);
      case StorageChange(namespace, focusChange, stored) => OnStorageChanged(namespace, focusChange, stored);
      case VisibilityChange(hidden, now) => OnVisibilityChange(hidden, now);
      case BeforeUnload(now) => OnBeforeUnload(now);
      case KeyDownEvent(altKey, key) => OnKeyDown(altKey, key);
      case Click => OnInteraction();
      case TouchStart => OnInteraction();
      case KeyPress => OnInteraction();
      case EndButtonClick => OnEndButton();
    }
  }
}
