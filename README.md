# TabGenius: a verified model of the focus-mode core

TabGenius is a Chrome extension that manages tabs and runs timed "focus sessions". During a
session, distracting sites are blocked by redirect rules, and every open page shows either an
overlay or a reminder. This project models in Dafny the three scripts that carry that
behaviour, and proves what they promise:

- **The service worker** (`background.js`):
  - the `focusMode` record and its start, pause, resume, end, tick and restore handlers;
  - the dynamic redirect rules it installs and removes;
  - the focus blacklist;
  - the 50-entry activity log and the performance counters;
  - the choice of duplicate tabs to close.
- **The popup** (`popup.js`):
  - the countdown panel, with its start, pause and stop buttons, slider and timer text;
  - the blocked-site list editor and the popup's own blocking rules;
  - the 20-entry activity log;
  - the tab-usage statistics, tab-group labels and colours, and the usage-based pinning choice;
  - the popup's performance counters.
- **The page agent** (`content.js`):
  - the hostname/blocked-site match;
  - the overlay and reminder flags;
  - the word count;
  - the time-spent and interaction counters.

## How it is modelled

Time is an explicit integer `now`, in milliseconds for the service worker and the page, so
`Date.now()` never appears.

Chrome is plain state:
- an optional armed `focusMode` alarm delay;
- the live dynamic rules, as a map from rule id to url filter;
- the badge text;
- the `chrome.storage.local` keys the scripts use.

Each source file with changing state gets two layers:
- **A value layer.** A datatype holds the whole state (`Background.Worker`, `Popup.Panel`,
  `Content.PageState`). A pure function per handler gives the state after the handler runs.
- **An imperative layer.** A class has the same variables as fields (`Background.ServiceWorker`,
  `Popup.FocusPanel`, `Popup.PerformanceMonitor`, `Content.PageAgent`). Each handler is a
  method that assigns those fields step by step, as the script does. Its `ensures` states that
  the new state is the handler's function applied to the old one.

What the handlers promise is proved as lemmas about the functions:
- invariants every handler keeps;
- round trips, such as pause then resume, blacklisting then removing a domain, adding then removing a site, and
  restart then restore;
- the exact effect of each handler.

The overlay is the one element of `document` the model tracks. Its creation and removal are
counted so that "at most one overlay" can be stated.

`chrome.declarativeNetRequest.updateDynamicRules` is modelled as the platform documents it: one
atomic update. It is rejected, leaving the rules unchanged, when two added rules share an id or
an added id is still live after the removals. The scripts rely on this without checking it, so
the lemmas state it. In the service worker's own state, a second start of a session without an
end has its rules rejected.

JavaScript details the code depends on are written out:
- `includes`, `indexOf`, `splice`, `unshift` and the `|| default` reads;
- `trim` and `split(/\s+/)`;
- `Math.round` and `Math.max`;
- the remainder operator on negative numbers;
- the 32-bit truncation of `hash & hash`;
- property lookup on a plain object, where names like `constructor` or `toString` find
  inherited members.

## Behaviour as written

These behaviours follow from the code as written. The model reproduces each one, and a lemma
states it:

- **Start has no guard.** A second start overwrites the running session. Its interval handle is
  lost, so the old interval keeps running (`BackgroundProps.StartTwiceLeaksInterval`). Its
  rules reuse the ids from 1000 on. In the worker's own copy of the rules they are rejected
  (`BackgroundProps.SecondStartRulesRejected`). In the running extension the popup sends the
  start message only after its own `enableSiteBlocking` has removed every live rule
  (popup.js:256, 470), which frees those ids; the model keeps the two scripts' states apart (see
  "Left out").
- **End ignores an open pause.** Completion is judged by `now - startTime - totalPausedTime`,
  so the pause still in progress counts as focus time (`FocusRecord.EndCountsOpenPause`).
- **The alarm does not end a session.** The `focusMode` alarm's listener calls `endFocusMode`,
  a name `background.js` never defines. The alarm therefore ends nothing, and only the
  one-second tick or an explicit end stops a session (`BackgroundProps.AlarmDoesNotEndSession`).
- **Restore does not re-arm the alarm** (`BackgroundProps.RestoreAfterRestart`).
- **Removing a blacklisted domain removes rules by substring.** Every rule whose url filter
  contains the domain goes, so removing `youtube.com` also drops a rule for `m.youtube.com`
  (`Rules.RemovalBySubstringOverreaches`).
- **The blacklist handlers can change the default list in place.** While storage holds no list,
  they `push`/`splice` the `DEFAULT_BLOCKED_SITES` array itself
  (`BackgroundProps.BlacklistChangesDefaultArray`).
- **Blacklisting replaces "www." anywhere.** It removes the first "www." anywhere in the
  hostname, not only a leading one (`Sites.BlacklistDomainInner`).
- **Site clean-up is not idempotent.** The popup's clean-up removes one leading "www." only, so
  cleaning "www.www.a.b" twice differs from cleaning it once (`Sites.NormaliseNotIdempotent`).
- **Group labels are not idempotent either.** A group label drops one leading "www." only, so
  the label of "www.www.a.com" is "www.a.com", whose own label is "a.com"
  (`TabHelpers.DisplayNameNotIdempotent`).
- **"twitch.tv" survives removal from the default list.** The popup's default list holds it
  twice, so removing it there leaves one copy (`PopupProps.DefaultTwitchSurvivesRemoval`).
- **The popup's counters overwrite the stored ones.** The popup stores its own counters, which
  start at zero whenever it opens. That overwrites the completed sessions and focus time the
  service worker stored (`PopupProps.TabsCreatedStored`).
- **Some colours are not colours.** A domain named like an inherited object property, such as
  `constructor`, gets that property as its "colour" (`TabHelpers.ColorExamples`). Hostnames
  reach `getGroupColor` lower-cased by the URL parser, so of the inherited names only the
  all-lower-case ones (`constructor`, `__proto__` and the like) can arrive this way.
- **Auto-pinning pins again on every run.** Each run pins the next unpinned tab of a domain
  that is among the five most visited and has at least 10 visits. This is proved for one such
  domain with two unpinned tabs (`TabHelpers.RepeatedRunPinsAgain`).
- **One typed key counts twice.** It counts as two interactions, one for `keydown` and one for
  `keypress` (`ContentProps.KeyStrokeCountsTwice`).
- **Hiding then leaving a page double-counts.** The visible stretch before the hide is counted
  twice (`ContentProps.HiddenThenUnloaded`).
- **A blank page has one word** (`ContentProps.BlankTextCountsOne`).
- **An empty site blocks every page.** An empty blocked site blocks every page, and a page
  without a hostname is blocked by any list (`ContentProps.EmptyTextBlocks`).

## Model

| member | source | states |
|---|---|---|
| FocusRecord.Remaining | background.js:24-38 | Remaining time is never negative. When positive, elapsed plus remaining is the duration. It is zero exactly when elapsed has reached the duration. |
| FocusRecord.Refreshed | background.js:24-38 | A tick fills in `remainingTime` and `elapsedTime` from the clock and changes no timing field. |
| FocusRecord.Started | background.js:626-635 | A start always yields a fresh record: active, unpaused, no pause, `startTime = now`, duration in milliseconds, elapsed 0 and remaining `max(0, duration)`. |
| FocusRecord.Paused | background.js:672-675 | A pause sets `paused` and `pausedAt = now` and keeps start, duration and pause total. From then on, elapsed and remaining are frozen at their values at the pause. |
| FocusRecord.Resumed | background.js:692-697 | A resume clears the pause and grows `totalPausedTime` by exactly `now - pausedAt`. Elapsed and remaining at `now` are those of the paused record. |
| FocusRecord.SessionDuration | background.js:725-727 | The end's session length equals elapsed time when running. When paused, it exceeds elapsed by the open pause. |
| FocusRecord.ElapsedNonNegative | background.js:28-38 | For a well-timed active record, elapsed is at least 0 and remaining is at most the duration. |
| FocusRecord.WellTimedLater | background.js:24-38 | The timing invariant of a record survives the clock moving forward. |
| FocusRecord.TransitionsKeepWellTimed | background.js:24-38 | Start, pause of a running record, resume of a paused record and the tick each keep the timing invariant. Also background.js:626-697. |
| FocusRecord.ResumeGrowsPausedTime | background.js:692-695 | Resuming never shrinks the pause total. |
| FocusRecord.PauseResumeRoundTrip | background.js:672-697 | Pause at t1 then resume at t2 adds exactly t2 - t1 to the pause total. Remaining and elapsed at t2 equal those at t1. |
| FocusRecord.EndCountsOpenPause | background.js:725-728 | A 60 s session paused after 10 s and ended 100 s after start has 50 s remaining, yet counts as completed. |
| Background.RoundSeconds | background.js:752 | `Math.round(ms / 1000)` is the whole number of seconds within half a second of `ms`. |
| Background.SpliceOut | background.js:976-978 | The `indexOf`/`splice` step fails exactly when the domain is not listed. Otherwise it removes the first copy. |
| Background.ServiceWorker.constructor | background.js:13-22 | A (re)started worker has the initial record, no interval and the default list. Storage and the browser's state are what persisted. Also background.js:56-72. |
| Background.ServiceWorker.AddActivity | background.js:1032-1055 | The new entry goes first and the log is cut to 50. Nothing else changes. |
| Background.ServiceWorker.UpdatePerformanceStats | background.js:526-535 | The stored counter `stat` grows by `value`, starting from 0 when absent. Other counters are unchanged. |
| Background.ServiceWorker.EnableSiteBlocking | background.js:802-875 | The rules the site list yields (from id 1000, static sites skipped) are added without clearing first. When the browser accepts them, `focusModeActive` is set and "Site blocking enabled" is logged. |
| Background.ServiceWorker.DisableSiteBlocking | background.js:878-901 | Every live dynamic rule is removed, `focusModeActive` is cleared and "Site blocking disabled" is logged. |
| Background.ServiceWorker.HandleEndFocusMode | background.js:725-753 | No-op when inactive. Otherwise the session becomes inactive, the interval stops, the snapshot is removed, blocking is disabled, the alarm is cleared and the badge is emptied. Only a completed session adds to the counters. |
| Background.ServiceWorker.UpdateFocusModeState | background.js:24-43 | An inactive tick changes nothing. An active tick refreshes the derived fields and ends the session once remaining is 0. |
| Background.ServiceWorker.OnFocusInterval | background.js:128-131 | One interval run is the tick followed by storing the record as the snapshot. Also background.js:640-644. |
| Background.ServiceWorker.HandleStartFocusMode | background.js:626-652 | The record is replaced by a fresh start and stored, and a new interval handle replaces the old one (which leaks). Blocking is enabled, the alarm is armed for the duration and the badge reads "FOCUS". |
| Background.ServiceWorker.HandlePauseFocusMode | background.js:672-688 | When active and running: the record is paused at `now` and stored, the alarm is cleared and the badge reads "PAUSE". Otherwise no-op. |
| Background.ServiceWorker.HandleResumeFocusMode | background.js:692-721 | When active and paused: the pause is closed and stored, then the tick runs. With time left, the alarm is re-armed for it and the badge reads "FOCUS". Otherwise the session ends. |
| Background.ServiceWorker.RestoreFocusModeState | background.js:121-147 | An active stored snapshot becomes the record verbatim, gets a new interval and the badge of its pause state. Anything else changes nothing. |
| Background.ServiceWorker.OnFocusAlarm | background.js:556-562 | The alarm is spent and nothing else changes (its listener calls an undefined function). |
| Background.ServiceWorker.GetFocusStatus | background.js:616-617 | The reply is the record in memory, not recomputed. |
| Background.ServiceWorker.AddToFocusBlacklist | background.js:904-966 | The hostname minus its first "www." is appended unless listed, and the list is stored. While blocking is on, the two rules with ids `now` and `now + 1` are added and the addition is logged. |
| Background.ServiceWorker.RemoveFromFocusBlacklist | background.js:971-1012 | A listed domain loses its first copy and the list is stored. While blocking is on, every rule whose filter contains the domain is removed, and the removal is logged. An unlisted domain changes nothing. |
| BackgroundProps.EnableBlockingFrame | background.js:802-875 | Enabling blocking leaves the session, interval, snapshot, badge and alarm alone, enables the static ruleset, and keeps the log within 50. |
| BackgroundProps.EndFocusEffects | background.js:725-753 | End is a no-op when inactive. Otherwise it leaves an inactive record with the same timing, no interval (and no new leak), no snapshot, the blocking flag cleared, and a browser with no badge, alarm, static ruleset or dynamic rule. "Site blocking disabled" is the newest log entry. The counters grow by one session and by the rounded seconds exactly when completed. |
| BackgroundProps.TickEndsExactlyWhenExpired | background.js:24-43 | For every active session, the tick keeps it active exactly when its remaining time is positive. While it stays active, the browser state is untouched. Also background.js:128-131. |
| BackgroundProps.ExpiringTickStoresEndedRecord | background.js:40-42 | The tick that ends a session stores the ended record again after the end removed it. The interval and badge are cleared. Also background.js:128-131, background.js:738. |
| BackgroundProps.PausedSessionNeverExpires | background.js:24-43 | After a pause with time left, any later tick keeps the session active, with the remaining time of the moment of the pause. Also background.js:672-675. |
| BackgroundProps.InactiveTick | background.js:25 | An inactive interval run only stores the record as the snapshot. Also background.js:128-131. |
| BackgroundProps.AlarmDoesNotEndSession | background.js:556-562 | The focus alarm changes neither the session, nor storage, nor the rules. |
| BackgroundProps.StartTwiceLeaksInterval | background.js:626-644 | Two starts leave one more leaked interval than before, two when one was already running. |
| BackgroundProps.StartEffects | background.js:626-652 | A start installs and stores the fresh record, with remaining time `max(0, duration)`, and runs a new interval. It enables the static ruleset, arms the alarm for the duration and sets the badge to "FOCUS". |
| BackgroundProps.SecondStartRulesRejected | background.js:814-867 | In the worker's own copy of the browser state, a second start without an end reuses the ids from 1000. The browser rejects them, so the rules and the log stay as the first start left them. Also background.js:626-652. |
| BackgroundProps.PauseResumeRestoresRemaining | background.js:672-712 | Pause then resume with time left gives back the remaining time at the pause, adds the pause length to the total, and re-arms the alarm for the remaining time. |
| BackgroundProps.ResumeEndsWhenNothingRemains | background.js:704-718 | Resuming a paused session with no time left after the pause ends it. With time left, it stays active and the alarm is armed with exactly that remaining time. |
| BackgroundProps.RestoreAfterRestart | background.js:121-147 | After a restart, an active stored snapshot is restored verbatim with one interval and the badge of its pause state. The alarm is not re-armed. |
| BackgroundProps.RestoreKeepsTiming | background.js:121-147 | For a consistent worker, the restored record has the in-memory record's timing and remaining time. |
| BackgroundProps.StartKeepsConsistent | background.js:626-652 | Start keeps the worker invariant: an active session has its interval, a stored snapshot with its timing and the badge of its pause state; the log stays within 50. |
| BackgroundProps.SessionHandlersKeepConsistent | background.js:121-147 | Pause, the alarm, a restart and restore keep the worker invariant. Also background.js:556-562, background.js:672-688. |
| BackgroundProps.EndKeepsConsistent | background.js:725-753 | End keeps the worker invariant. |
| BackgroundProps.UpdateKeepsConsistent | background.js:24-43 | The tick and the interval run keep the worker invariant. Also background.js:128-131. |
| BackgroundProps.ResumeKeepsConsistent | background.js:692-721 | Resume keeps the worker invariant. |
| BackgroundProps.BlacklistKeepsConsistent | background.js:904-1012 | Blacklist add and remove keep the worker invariant. |
| BackgroundProps.SessionHandlersKeepTimed | background.js:121-147 | Start, pause and restore keep the timing invariant of the record and of the snapshot. Also background.js:626-688. |
| BackgroundProps.TickKeepsTimed | background.js:24-43 | The interval run keeps the timing invariant. Also background.js:128-131. |
| BackgroundProps.ResumeKeepsTimed | background.js:692-721 | Resume keeps the timing invariant. |
| BackgroundProps.TimedLater | background.js:24-43 | The timing invariant survives the clock moving forward. |
| BackgroundProps.BlacklistAddListed | background.js:906-911 | Blacklisting an already listed domain changes nothing. |
| BackgroundProps.BlacklistAddEffects | background.js:904-955 | Blacklisting a new domain appends it and keeps the blocking flag. While blocking is off, the rules are untouched. While it is on and both timestamp ids are free, the two rules are added and the addition is logged. |
| BackgroundProps.BlacklistRemoveEffects | background.js:971-1003 | Removing a listed domain drops its first copy and logs the removal. While blocking is on, the rules become the live ones minus those whose filter contains the domain; otherwise they are untouched. |
| BackgroundProps.BlacklistRoundTrip | background.js:904-1003 | Add then remove restores the list. While blocking is on, the rules end as removing the domain from the original rules leaves them. While it is off, the rules are untouched. |
| BackgroundProps.BlacklistChangesDefaultArray | background.js:906-911 | With no stored list, blacklisting appends to the default array itself. |
| Rules.AsMap | background.js:863-867 | The rule ids of a batch are exactly the keys of the resulting map. With distinct ids, each rule's filter is stored under its id. |
| Rules.UpdateDynamicRules | background.js:863-867 | An update is accepted exactly when the added ids are distinct and not kept live. Then the live ids are the kept ones plus the added ones, kept rules keep their filters and added rules have theirs. Also background.js:889-893. |
| Rules.AsMapConsecutive | popup.js:474-501 | A batch with ids `lo, lo+1, …` maps exactly the ids in `[lo, lo + n)`. |
| Rules.FreshBatchAccepted | popup.js:504-508 | A batch with distinct ids is accepted on an empty rule set and becomes exactly that set. |
| Rules.RemovalAccepted | background.js:886-893 | Removing ids with nothing added is always accepted and drops exactly those ids. |
| Rules.BuildBackgroundRules | background.js:814-860 | The loop with `ruleId++` builds exactly the rule sequence the site list specifies. |
| Rules.BlacklistRules | background.js:917-947 | The blacklist's two rules have distinct ids. |
| Rules.MatchingIds | background.js:984-989 | The ids picked for removal are live rules, exactly those whose filter contains the domain. |
| Rules.RemoveMatching | background.js:984-995 | Removal keeps exactly the live rules whose filter does not contain the domain, unchanged. |
| Rules.BuildPopupRules | popup.js:474-501 | The `forEach` push loop builds exactly the rule sequence the popup specifies. |
| Rules.BackgroundRulesConsecutive | background.js:820-860 | The generated rules have consecutive ids from the start id, hence pairwise distinct. |
| Rules.BackgroundRulesSound | background.js:820-860 | Every generated rule blocks a listed, non-static site: its subdomain pattern, or its exact pattern when the site does not start with "www.". |
| Rules.BackgroundRulesComplete | background.js:820-860 | Every listed non-static site gets its subdomain pattern, and its exact pattern unless it starts with "www.". |
| Rules.PopupRulesShape | popup.js:474-501 | The popup's rules number twice the sites. Site j gets id 2j+1 with its subdomain pattern and id 2j+2 with its exact pattern. |
| Rules.BlacklistRulesRoundTrip | background.js:916-951 | With both timestamp ids free, the blacklist rules are accepted. Removing those matching the domain then gives the original rules minus those matching it. Also background.js:983-995. |
| Rules.RemovalBySubstringOverreaches | background.js:985-989 | Removing "youtube.com" by substring also removes a rule for "m.youtube.com". |
| Sites.BeforeSlash | popup.js:421 | `split('/')[0]` is the longest prefix without '/', cut at the first '/'. |
| Sites.Normalise | popup.js:421 | The cleaned-up site contains no '/'. |
| Sites.BlacklistDomain | background.js:906 | `replace('www.', '')` leaves a hostname without "www." as it is, and otherwise is four characters shorter. |
| Sites.AddIfAbsent | popup.js:426-428 | After adding, the site is listed. A listed site changes nothing; otherwise it is appended at the end. Also background.js:910-911. |
| Sites.RemoveFirst | popup.js:446-448 | An unlisted site changes nothing. Otherwise exactly its first copy goes and the rest keep their order. Also background.js:976-978. |
| Sites.AddIdempotent | popup.js:426-428 | Adding twice is adding once. |
| Sites.RemoveUndoesAdd | popup.js:426-448 | Removing a just-added site gives back the list. |
| Sites.RemoveKeepsLaterCopies | popup.js:446-448 | A site listed twice is still listed after one removal. |
| Sites.RemoveKeepsOrder | popup.js:446-448 | Removal deletes one position of the list and keeps the others in order. |
| Sites.NormaliseUrl | popup.js:421 | "https://www.a.com/x" cleans up to "a.com". |
| Sites.NormaliseNotIdempotent | popup.js:421 | "www.www.a.b" cleans up to "www.a.b", which cleans up to "a.b". |
| Sites.NormaliseSchemeOnly | popup.js:421 | "https://" cleans up to the empty site. |
| Sites.BlacklistDomainInner | background.js:906 | "mywww.site.com" blacklists as "mysite.com". |
| Logs.Logged | popup.js:136-141 | The new entry is first, the older ones follow in order, and the log is cut to the cap. Also background.js:1044-1049. |
| Logs.Bumped | background.js:529-530 | The counter grows by the value from 0 when absent. No other counter changes. Also popup.js:1942. |
| Logs.Lookup | popup.js:1621 | A domain's entry is found exactly when one is stored for it. |
| Logs.RecordVisit | popup.js:1615-1637 | A URL that does not parse, or a host named like an inherited property, changes nothing. Otherwise at most one entry is added and the existing entries keep their domains and order. `VisitCounts` gives the counts. |
| Logs.Touching | popup.js:1629-1630 | Only the domain's entry changes: one more visit, `lastVisit` set to now. |
| Logs.LoggingKeepsNewest | popup.js:124-143 | After two entries, the second is first, the first second, and then the old log in order within the cap. |
| Logs.VisitCounts | popup.js:1615-1632 | A visit to an ordinary domain makes its visits one more than before (1 when new), with `lastVisit` now. |
| Logs.LookupTouching | popup.js:1629-1630 | Touching a domain changes no other domain's entry. |
| Logs.LookupAppend | popup.js:1621-1630 | Adding a new domain's entry changes no other domain's entry. |
| Logs.VisitKeepsDomainsUnique | popup.js:1615-1632 | Recording visits keeps one entry per domain. |
| Logs.InheritedHostIgnored | popup.js:1621-1627 | A host named "constructor" finds an inherited member and never gets its own entry. |
| DuplicateTabs.CloseDuplicateTabs | background.js:368-380 | The `forEach` over the tabs collects exactly the tabs whose url was seen before. |
| DuplicateTabs.SeenStep | background.js:375-379 | A tab is a duplicate exactly when its url key was seen or names an inherited member. Otherwise its key is seen from then on. |
| DuplicateTabs.SelectPartitions | background.js:373-380 | Closed and kept tabs together are exactly the queried tabs. |
| DuplicateTabs.KeptExactlyOncePerUrl | background.js:373-380 | Each url that occurs is kept exactly once, unless it names an inherited member. |
| DuplicateTabs.FirstTabKept | background.js:375-379 | The first tab with an ordinary url is never closed. |
| DuplicateTabs.UnreadableUrlsCollapse | background.js:375-379 | Two tabs without a url share the key "undefined", so the second is closed. |
| TimerDisplay.NatText | popup.js:380 | An integer prints as at least one digit, and as exactly one when below 10. |
| TimerDisplay.PadStart2 | popup.js:380 | `padStart(2, '0')` leaves two or more characters alone and left-pads a shorter text to two. |
| TimerDisplay.JsRem | popup.js:379 | `%` equals the mathematical remainder for non-negative operands and truncates toward zero for negative ones. |
| TimerDisplay.NatTextRoundTrip | popup.js:380 | Reading back an integer's printed digits gives the integer. |
| TimerDisplay.PaddedRoundTrip | popup.js:380 | Padding with zeros does not change the number read back. |
| TimerDisplay.TimerText | popup.js:376-381 | The text is at least five characters and holds a ':'. `TimerTextRoundTrip` proves it reads back to `timeLeft`. |
| TimerDisplay.TimerTextRoundTrip | popup.js:376-381 | For non-negative `timeLeft`, the text is two padded fields joined by ':', and reading them back gives `timeLeft`. |
| TimerDisplay.TimerTextFiveChars | popup.js:376-381 | Below 100 minutes the text is five characters with ':' in the middle. |
| TimerDisplay.NegativeSecondText | popup.js:376-381 | `timeLeft = -1` displays as "-1:-1". |
| Popup.FocusPanel.constructor | popup.js:165-175 | The panel opens idle and unpaused at 25 minutes. It has no interval, the slider's minutes, and the stored keys and rules as found. |
| Popup.FocusPanel.AddActivity | popup.js:124-143 | The new entry goes first and the log is cut to 20. |
| Popup.FocusPanel.DisableSiteBlocking | popup.js:519-534 | Every live rule is removed and `focusModeActive` is cleared. |
| Popup.FocusPanel.EnableSiteBlocking | popup.js:462-516 | The rules are cleared, then the list's rules with ids 2i+1 and 2i+2 are added and `focusModeActive` is set. |
| Popup.FocusPanel.StartFocusSession | popup.js:237-280 | The slider's minutes become the countdown and its start. Blocking is enabled, the worker is told the duration, an interval runs and the start is logged. |
| Popup.FocusPanel.StartTimer | popup.js:282-297 | A (replacing) interval runs and nothing else changes. |
| Popup.FocusPanel.OnTimer | popup.js:287-295 | A tick while paused does nothing. Otherwise `timeLeft` drops by one and at 0 the session ends as completed. |
| Popup.FocusPanel.PauseFocusSession | popup.js:299-311 | The panel is paused and the worker told. |
| Popup.FocusPanel.ResumeFocusSession | popup.js:313-325 | The panel is unpaused and the worker told. |
| Popup.FocusPanel.EndFocusSession | popup.js:327-363 | The interval stops, the panel resets, blocking is disabled, the worker is told, and completion or stop is logged. |
| Popup.FocusPanel.ResetFocusUI | popup.js:365-374 | Inactive, unpaused, with `timeLeft` back at `originalTime`. |
| Popup.FocusPanel.OnSliderInput | popup.js:178-185 | The slider's minutes replace the countdown and its start, even during a session. |
| Popup.FocusPanel.AddBlockedSite | popup.js:418-439 | The cleaned-up site is appended unless listed and the list is stored. During a session, blocking is rebuilt. |
| Popup.FocusPanel.RemoveBlockedSite | popup.js:441-460 | A listed site loses its first copy and the list is stored. During a session, blocking is rebuilt. |
| Popup.FocusPanel.Handle | popup.js:176-236 | Each button, the slider and the interval act as their listeners do, including the listeners' guards. |
| Popup.PerformanceMonitor.constructor | popup.js:1934-1939 | The popup's counters start at zero and storage holds what it held. |
| Popup.PerformanceMonitor.UpdatePerformanceStats | popup.js:1941-1944 | The counter grows by the value, and the popup's whole counter object is stored. |
| Popup.PerformanceMonitor.OnTabCreated | popup.js:1947-1949 | "tabsOpened" grows by one and the counters are stored. |
| Popup.PerformanceMonitor.OnTabRemoved | popup.js:1951-1953 | "tabsClosed" grows by one and the counters are stored. |
| PopupProps.PopupRuleIds | popup.js:474-501 | The popup's rule ids are exactly 1 … 2n for n sites. |
| PopupProps.PopupRuleFilters | popup.js:474-501 | Site j's subdomain pattern sits under id 2j+1 (and its exact pattern under 2j+2). |
| PopupProps.EnableRulesMap | popup.js:462-516 | Enabling always succeeds. The rules become exactly the list's batch and the flag is set. |
| PopupProps.EnableRulesShape | popup.js:462-516 | After enabling, the live ids are exactly 1 … 2n, with site j's two patterns under 2j+1 and 2j+2. |
| PopupProps.EnableIdempotent | popup.js:462-516 | Enabling twice yields the same state as enabling once. |
| PopupProps.EnableIgnoresLiveRules | popup.js:470-471 | What was live before enabling does not matter. |
| PopupProps.CountdownRuns | popup.js:287-295 | Fewer ticks than `timeLeft` while running only count `timeLeft` down by their number. |
| PopupProps.CountdownCompletes | popup.js:287-295 | Exactly `timeLeft` ticks end the session as completed: the panel is idle at `originalTime` and the newest log entry is the completion. Also popup.js:327-363. |
| PopupProps.PausedTickIsNoOp | popup.js:288 | A tick while paused changes nothing. |
| PopupProps.PauseToggleRoundTrip | popup.js:199-209 | Two clicks on pause during a session give back the panel, plus a pause and a resume message. |
| PopupProps.StartThenStop | popup.js:188-218 | On the popup's own copy of storage and rules, start then stop leaves the panel idle at the slider's minutes with no rule live and the flag cleared. The worker is told of start and end, both are logged newest first and the list is untouched. Also popup.js:237-363. |
| PopupProps.AddSiteEffect | popup.js:418-439 | Adding appends the cleaned-up site unless listed, changes only the list, defaults and rules, and logs nothing. During a session, the rules follow the list. |
| PopupProps.RemoveSiteEffect | popup.js:441-460 | Removing drops the first copy if listed and changes only the list, defaults and rules. During a session, the rules follow the list. |
| PopupProps.AddRemoveRoundTrip | popup.js:418-460 | Removing a just-added site restores the list. During a session, it restores the rules the old list yields. |
| PopupProps.BlankInputIgnored | popup.js:222-226 | Input that trims to nothing adds nothing. |
| PopupProps.RemoveFirstKeepsSecondCopy | popup.js:446-448 | A site listed at two positions stays listed after one removal. |
| PopupProps.DefaultTwitchSurvivesRemoval | popup.js:614-660 | Removing "twitch.tv" from the default list leaves it listed. Also popup.js:441-448. |
| PopupProps.OpenedConsistent | popup.js:165-175 | A freshly opened panel keeps the panel invariant, provided the log is within 20. |
| PopupProps.StartKeepsConsistent | popup.js:237-280 | Start keeps the panel invariant: an interval exactly during a session, an idle panel at full time, blocking in the popup's copy of the rules equal to the list's rules during a session, a log within 20, and the worker told the session state. |
| PopupProps.EndKeepsConsistent | popup.js:327-363 | End keeps the panel invariant. |
| PopupProps.TickKeepsConsistent | popup.js:287-295 | A tick keeps the panel invariant. |
| PopupProps.PauseClickKeepsConsistent | popup.js:199-209 | The pause button keeps the panel invariant. |
| PopupProps.SliderKeepsConsistent | popup.js:178-185 | The slider keeps the panel invariant, with the countdown never above its start. |
| PopupProps.AddKeepsConsistent | popup.js:418-439 | Adding a site keeps the panel invariant. |
| PopupProps.RemoveKeepsConsistent | popup.js:441-460 | Removing a site keeps the panel invariant. |
| PopupProps.StepKeepsConsistent | popup.js:176-236 | Every event keeps the panel invariant. |
| PopupProps.TabsCreatedStored | popup.js:1934-1949 | After n tab creations, the stored counters are the popup's zeros with "tabsOpened" = n. No completed session or focus time survives. |
| TabHelpers.CleanDomain | popup.js:1752 | A domain starting with "www." loses exactly that prefix. Any other domain is kept as it is. |
| TabHelpers.DisplayName | popup.js:1750-1754 | A cleaned domain of at most 15 characters is its own label. A longer one is cut to 15 characters plus "...". |
| TabHelpers.DisplayNameBounds | popup.js:1750-1754 | A label is at most 18 characters and starts with the first 15 (or fewer) characters of the cleaned domain. |
| TabHelpers.DisplayNameIdempotent | popup.js:1750-1754 | Labelling a label changes nothing, provided the domain does not start with "www." twice (its clean form does not start with "www."). |
| TabHelpers.DisplayNameNotIdempotent | popup.js:1750-1754 | The exception: "www.www.a.com" is labelled "www.a.com", and that label is labelled "a.com". |
| TabHelpers.DisplayNamesCollide | popup.js:1750-1754 | Two domains whose clean forms are both longer than 15 characters share a label exactly when those clean forms agree on their first 15 characters. |
| TabHelpers.DisplayNameCollisionExample | popup.js:1750-1754 | One instance: "documentation.example.com" and "documentation.example.org" are both labelled "documentation.e...". |
| TabHelpers.Hash | popup.js:1781-1786 | The hash is a 32-bit signed integer. |
| TabHelpers.HashStep | popup.js:1784-1785 | `((h << 5) - h) + c` truncated to 32 bits is `31h + c` truncated to 32 bits. |
| TabHelpers.GetGroupColor | popup.js:1756-1788 | The loop over `hash` yields exactly the specified colour. |
| TabHelpers.ColorOf | popup.js:1756-1788 | A domain not named like an inherited member gets one of the eight colours. A name like `constructor` outside the table finds the inherited member, not a colour. |
| TabHelpers.HashedColor | popup.js:1776-1788 | An unlisted ordinary domain gets `colors[abs(hash) % 8]`. |
| TabHelpers.ColorExamples | popup.js:1761-1788 | "a" hashes to blue. "constructor" finds the inherited member instead of a colour. |
| TabHelpers.SortByVisits | popup.js:1508-1509 | The ranking has as many entries as the statistics. `SortPermutes`, `SortSorted` and `SortStable` prove it is their permutation by visits, most first, with ties in their original order. |
| TabHelpers.TopByVisits | popup.js:1508-1510 | The top-k slice has `min(k, n)` entries. Also popup.js:1797-1799. |
| TabHelpers.InsertPermutes | popup.js:1508-1509 | Insertion adds exactly the one entry. |
| TabHelpers.SortPermutes | popup.js:1508-1509 | The sort is a permutation of the entries. |
| TabHelpers.InsertSorted | popup.js:1508-1509 | Inserting into a list sorted by visits, descending, keeps it sorted. |
| TabHelpers.InsertStable | popup.js:1508-1509 | Entries with equal visits keep their order, the new one last. |
| TabHelpers.SortSorted | popup.js:1508-1509 | The result is sorted by visits, descending. |
| TabHelpers.SortStable | popup.js:1508-1509 | The sort is stable: entries with equal visits keep their order. |
| TabHelpers.TopDominates | popup.js:1508-1510 | No entry left out of the top k has more visits than one kept. |
| TabHelpers.FirstUnpinnedOn | popup.js:1514-1521 | The found tab is the first unpinned one whose hostname equals the domain. None means there is none. |
| TabHelpers.PicksSound | popup.js:1513-1527 | Every pick is the first unpinned tab on a ranked domain with enough visits, with that domain's visit count. |
| TabHelpers.PicksComplete | popup.js:1513-1527 | Every ranked domain with enough visits and an unpinned tab is picked. |
| TabHelpers.Picks | popup.js:1513-1527 | There are no more picks than ranked domains. `PicksSound`, `PicksComplete` and `PicksDistinctTabs` give which tabs are picked. |
| TabHelpers.PicksDistinctTabs | popup.js:1513-1527 | Picks for different domains are different tabs. |
| TabHelpers.AutoPinSelection | popup.js:1505-1527 | Auto-pinning picks at most 5 tabs, each unpinned, on its domain and with at least 10 visits. |
| TabHelpers.ManualPinSelection | popup.js:1797-1813 | Manual pinning picks at most 3 tabs, each unpinned and on its domain, whatever its visits. |
| TabHelpers.RepeatedRunPinsAgain | popup.js:1505-1533 | For statistics holding one domain with at least 10 visits, and the tabs [a, b] both unpinned on that domain: the first run picks a, and after a is pinned the next run picks b. Nothing is claimed for a domain outside the top five; one below 10 visits is never picked (`TabHelpers.AutoPinSelection`). |
| TabHelpers.AutoPinLogged | popup.js:1530-1533 | The log grows by one entry per pick up to 20, and the last pick's entry is newest. Also popup.js:124-143. |
| Content.Blocks | content.js:116-119 | A page is blocked exactly when some listed site is contained in its hostname or contains it. |
| Content.SplitSpaces | content.js:459 | `split(/\s+/)` yields at least one piece, and no piece holds whitespace. A text starting with a non-space starts with a word. In a text ending with a non-space, every piece after the first is a word. |
| Content.WordCount | content.js:457-460 | The word count is at least 1. `ContentProps.WordCountJoined` and `ContentProps.CountedPiecesAreWords` give what it counts. |
| Content.PageAgent.constructor | content.js:4-13 | The page starts inactive, without overlay or reminder, with nothing counted and the clock started at load. |
| Content.PageAgent.ShowFocusBlockedOverlay | content.js:134-200 | No-op while an overlay shows; otherwise one overlay is created. |
| Content.PageAgent.RemoveFocusOverlay | content.js:226-231 | The overlay, if any, is removed and the reference cleared. |
| Content.PageAgent.ShowFocusReminder | content.js:234-289 | No-op once shown; otherwise one reminder is shown and the flag set. |
| Content.PageAgent.CheckFocusMode | content.js:106-131 | No-op while inactive. Otherwise a blocked page gets the overlay and any other page the reminder. |
| Content.PageAgent.HandleFocusModeStarted | content.js:93-96 | Active, then the check. |
| Content.PageAgent.HandleFocusModeEnded | content.js:99-103 | Inactive, overlay removed, reminder allowed again. |
| Content.PageAgent.OnStatusReply | content.js:43-58 | An active status turns the page active and runs the check. Whatever the status, the message listener is then added. |
| Content.OnMessage | content.js:66-90 | A message changes only the focus flag, the overlay and the reminder. An action the page does not answer, or one whose reply is left out, changes nothing. |
| Content.PageAgent.HandleMessage | content.js:66-90 | The page after `handleMessage` is the one `Content.OnMessage` gives. |
| Content.PageAgent.OnStorageChanged | content.js:336-344 | A local change of `focusModeActive` runs the start handler when truthy and the end handler otherwise. Any other change does nothing. |
| Content.PageAgent.OnVisibilityChange | content.js:307-313 | Hiding adds `now - startTime` to the time spent; showing restarts the clock. |
| Content.PageAgent.OnBeforeUnload | content.js:316-329 | The time spent is brought up to `now` and reported with the interactions and hostname, then the overlay is removed. Also content.js:623-626. |
| Content.PageAgent.OnKeyDown | content.js:349-370 | Alt+F, Alt+G and Alt+D send their messages, and every key counts one interaction. |
| Content.PageAgent.OnInteraction | content.js:386-390 | A click, touch or key press counts one interaction and changes nothing else. |
| Content.PageAgent.OnEndButton | content.js:202-205 | The worker is told to end, and the overlay is removed. |
| Content.PageAgent.Handle | content.js:41-90 | Every listener acts on the page as its function says. A message before the status reply finds no listener. Also content.js:305-390. |
| ContentProps.BlocksAppend | content.js:117-119 | A concatenation of lists blocks a page exactly when one of them does. |
| ContentProps.SubdomainBlocked | content.js:118 | Any host ending in a listed site is blocked by it. |
| ContentProps.PartOfSiteBlocked | content.js:118 | A hostname that is part of a listed site, such as "tube.com" for "youtube.com", is blocked. |
| ContentProps.EmptyTextBlocks | content.js:114-119 | An empty listed site blocks every page, and a page without hostname is blocked by any non-empty list. |
| ContentProps.UnrelatedHostAllowed | content.js:117-119 | "example.org" is not blocked by "youtube.com"; "m.youtube.com" is. |
| ContentProps.SplitAfterRun | content.js:459 | A run of whitespace of any length before a word starts exactly one new, empty piece. |
| ContentProps.SplitJoin | content.js:459 | Splitting words joined by any non-empty runs of whitespace gives back the words. |
| ContentProps.TrimAround | content.js:459 | Trimming removes exactly the surrounding whitespace of a text that starts and ends with a non-space. |
| ContentProps.WordCountJoined | content.js:457-460 | A text of n words separated by any runs of whitespace (spaces, tabs, newlines, no-break spaces), with any whitespace around it, counts n. |
| ContentProps.CountedPiecesAreWords | content.js:457-460 | On a page that is not blank, every piece counted is a word: non-empty and without whitespace. |
| ContentProps.BlankTextCountsOne | content.js:457-460 | A blank page counts one word. |
| ContentProps.LoadedConsistent | content.js:4-13 | At load, the page invariant holds: overlays created = removed + the one showing, and an overlay only while active. |
| ContentProps.StepKeepsConsistent | content.js:66-390 | Every event keeps the page invariant. |
| ContentProps.MessagesNeedReply | content.js:41-58 | Before the status reply, a message changes nothing. After the reply, whatever it said, each message runs `handleMessage`. |
| ContentProps.CheckShowsOne | content.js:106-126 | The check does nothing while inactive. Otherwise it shows exactly one of the overlay (blocked) or the reminder (not blocked), leaving the other unchanged. |
| ContentProps.OverlayOnce | content.js:134-135 | Showing twice is showing once, at most one overlay is created, and removal leaves none. Also content.js:226-231. |
| ContentProps.ReminderAtMostOnce | content.js:98-103 | Until focus mode ends on the page, at most one reminder is shown, and none once one was. Also content.js:234-235, content.js:289. |
| ContentProps.ReminderAgainAfterEnd | content.js:99-103 | After an end, a start on an unblocked page shows a new reminder. Also content.js:93-96. |
| ContentProps.StorageChangeDispatch | content.js:336-344 | True runs the start handler and false the end handler. A change elsewhere or of other keys does nothing. |
| ContentProps.VisibleStretchCounted | content.js:307-313 | A visible stretch from show to hide adds its length to the time spent. |
| ContentProps.HiddenThenUnloaded | content.js:307-318 | Hiding then unloading counts the stretch before the hide twice. |
| ContentProps.InteractionsCounted | content.js:349-370 | Over any events, interactions grow by exactly the number of clicks, touches and key events. Also content.js:386-390. |
| ContentProps.KeyStrokeCountsTwice | content.js:369 | A key going down and being pressed counts two interactions. Also content.js:386-390. |
| ContentProps.UnloadReports | content.js:316-329 | Unloading reports the accumulated time and interactions for the hostname and leaves no overlay; the focus flags stay. Also content.js:623-626. |

## Left out

- I/O and the browser's asynchrony are left out. `chrome.*` calls become state changes that
  complete in order. Promises, message delivery, `try`/`catch` logging and notifications are
  not modelled. Context menus are not modelled either.
- Read-modify-write races between concurrent handlers on stored counters, logs and lists are
  not modelled. The model runs handlers one at a time. The same holds for the gap between
  `checkFocusMode`'s guard and its storage read.
- Real timers are modelled as calls. `setInterval`, `setTimeout` and the alarm firing become
  explicit calls with `now`. So the reminder's 5-second auto-hide, the overlay's hover styles
  and the periodic log clean-ups (background.js:1059-1075, popup.js:1956-1965) are not modelled.
- The alarm's minimum delay is not modelled. The alarm is an optional armed delay, and Chrome's
  minimum period and the rounding of `delayInMinutes` are not modelled.
- The static ruleset is only an on/off flag. `updateEnabledRulesets` is modelled as turning
  `focus_mode_rules` on or off. The ruleset's contents (a manifest file that is not part of this
  model) and a throwing `updateEnabledRulesets` are not modelled.
- Rules are only their id and url filter. The rule action, priority and resource types are
  constant in every rule the scripts build.
- The browser's rule limits are not modelled. Chrome's limit on the number of dynamic rules,
  and its validation of filter syntax, are left out.
- Text is code points, not UTF-16. Strings are sequences of Unicode scalar values. For text
  outside the Basic Multilingual Plane, JavaScript's UTF-16 `length`, `substring` and
  `charCodeAt` would differ.
- `TabHelpers.Hash`: folds code points, not UTF-16 code units. It therefore agrees with
  `getGroupColor` only on text within the Basic Multilingual Plane.
- `TabHelpers.GetGroupColor`: its property lookup models only the inherited names listed in
  `Common`. These are Object.prototype's members, such as `constructor`, `toString` and
  `__proto__`. Its callers pass URL hostnames, which are lower-case, so names such as
  `toString` are modelled but never reach it there.
- The usage statistics are an association list in insertion order. The history merge in
  `getTabUsageStats` is left out, because it is a foreign API (`chrome.history`). JavaScript's
  ordering of integer-like property names before other keys is left out too.
- URL parsing is taken as given. `new URL(url).hostname` is a parameter (`None` when parsing
  throws), and so is the tab's hostname.
- `Popup.FocusPanel.StartFocusSession`: models the slider's value as an integer number of
  minutes. `parseInt` of the slider text and the missing-slider default of 25 are not modelled.
- The popup's error path is left out. The start's `catch` branch (popup.js:275-279) is not
  modelled. A failure to enable blocking never reaches it, because the popup's
  `enableSiteBlocking` catches its own errors (popup.js:513-516). Only a throwing storage write
  or log could, and the modelled storage never throws.
- The two scripts' copies of shared state are kept apart. In the extension the worker and the
  popup share one `chrome.storage.local` and one set of dynamic rules. The model gives each its
  own copy (`Background.Worker`'s `storage` and `browser`, `Popup.Panel`'s `storage` and
  `dynamicRules`). So what the lemmas state about rules and logged entries holds of each script
  on its own. The interleaving is not modelled: the popup's `enableSiteBlocking` clearing every
  rule before the worker's start adds ids from 1000, and the worker logging "Site blocking
  enabled/disabled" into the same activity log as the popup (background.js:863-870, 896).
- `FocusRecord.Initial`: writes the initial `startTime: null` as 0. JavaScript arithmetic reads
  null as 0, so every computed time agrees. But a `getFocusStatus` reply before any session
  carries 0 where the script sends null.
- `initializeExtension` is not modelled. On install and at browser start it seeds storage's
  `blockedSites` with the default list when none is stored (background.js:96-100). So the case
  of `BackgroundProps.BlacklistChangesDefaultArray`, no stored list, arises only before that
  seeding has run or after the key is removed.
- The page's status reply arrives at most once. The script sends one `getFocusStatus` request and
  adds its message listener after the answer. A second `StatusReply` event would add no second
  listener in the model.
- `Rules.UpdateDynamicRules`: accepts any integer rule id. The blacklist rules take the ids
  `Date.now()` and `Date.now() + 1`, about 1.7e12, far above 2^31 - 1. If Chrome holds rule ids
  to 32 bits, every blacklist add is rejected at run time. The model does not bound the ids.
- The popup does not learn the worker's session. The panel never reads the worker's
  `focusModeState`, so reopening it during a session shows it idle. This is as the code does,
  and the model keeps the two apart.
- Floating point is left out: the Web Audio reward sound, the scroll-depth percentage and all
  `performance.now()` timings. The unload report's scroll depth is therefore left out of the
  modelled report, and so is its `url` (`window.location.href`): the page's address is not part
  of the modelled page, which knows only its hostname.
- The locale `time` string of activity entries (`toLocaleTimeString`) is left out. Only icon,
  text and timestamp are kept.
- DOM content is left out: the overlay and reminder markup, `blockedPageHTML`, the celebration
  CSS, and list rendering.
- Page analysis is left out: `getPageAnalytics`, `analyzeCurrentPage`, `highlightTabElements`,
  `trackPageLoad`, `monitorNewTabs`, `injectFocusModeStyles`, `removeFocusModeStyles` and the
  memory reporter. They only read the page or send what they read.
- Dashboard, AI analysis, settings, import/export, bookmarks, grouping, muting and the
  inactive-tab clean-up in `popup.js` and `background.js` are outside this model.
  `options.js` is not part of this model.
- `Content.WordCount`: takes the page text as a parameter (`innerText || textContent || ''`).
