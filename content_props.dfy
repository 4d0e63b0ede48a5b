/** Properties of the page agent: what a page matches, how words are counted, and the flags. */
module ContentProps {
  import opened Common
  import opened Content

  // ---------------------------------------------------------------------------
  // Matching

  /** A page is blocked by two lists together exactly when one of them blocks it. */
  lemma BlocksAppend(hostname: string, a: seq<string>, b: seq<string>)
    ensures Blocks(hostname, a + b) <==> Blocks(hostname, a) || Blocks(hostname, b)
  {
    if Blocks(hostname, a + b) {
      var i :| 0 <= i < |a + b| && SiteMatches(hostname, (a + b)[i]);
      if i >= |a| {
        assert (a + b)[i] == b[i - |a|];
      }
    }
    if Blocks(hostname, a) {
      var i :| 0 <= i < |a| && SiteMatches(hostname, a[i]);
      assert (a + b)[i] == a[i];
    }
    if Blocks(hostname, b) {
      var i :| 0 <= i < |b| && SiteMatches(hostname, b[i]);
      assert (a + b)[|a| + i] == b[i];
    }
  }

  /** A site blocks every host that ends with it, subdomains included. */
  lemma SubdomainBlocked(prefix: string, site: string)
    ensures Blocks(prefix + site, [site])
  {
    assert OccursAt(prefix + site, site, |prefix|) by {
      assert (prefix + site)[|prefix|..|prefix| + |site|] == site;
    }
    assert SiteMatches(prefix + site, [site][0]);
  }

  /** A site also blocks every host that is part of it: "tube.com" is blocked by "youtube.com". */
  lemma PartOfSiteBlocked(prefix: string, hostname: string)
    ensures Blocks(hostname, [prefix + hostname])
  {
    var site := prefix + hostname;
    assert OccursAt(site, hostname, |prefix|) by {
      assert site[|prefix|..|prefix| + |hostname|] == hostname;
    }
    assert SiteMatches(hostname, [site][0]);
  }

  /** An empty blocked site blocks every page, and a page without a hostname is blocked by any site. */
  lemma EmptyTextBlocks(hostname: string, sites: seq<string>)
    ensures "" in sites ==> Blocks(hostname, sites)
    ensures sites != [] ==> Blocks("", sites)
  {
    if "" in sites {
      var i :| 0 <= i < |sites| && sites[i] == "";
      assert OccursAt(hostname, sites[i], 0);
    }
    if sites != [] {
      assert OccursAt(sites[0], "", 0);
    }
  }

  /** A host that shares no text with the listed site is not blocked. */
  lemma UnrelatedHostAllowed()
    ensures !Blocks("example.org", ["youtube.com"])
    ensures Blocks("m.youtube.com", ["youtube.com"])
  {
    var h, s := "example.org", "youtube.com";
    assert !OccursAt(h, s, 0) by {
      assert h[0] != s[0];
    }
    assert !OccursAt(s, h, 0) by {
      assert h[0] != s[0];
    }
    assert !SiteMatches(h, s);
    assert ["youtube.com"][1..] == [];
    SubdomainBlocked("m.", s);
    assert "m." + s == "m.youtube.com";
  }

  // ---------------------------------------------------------------------------
  // Words

  /** A run of whitespace: what `/\s+/` matches between two words. */
  predicate IsRun(s: string) {
    s != [] && forall i :: 0 <= i < |s| ==> IsSpace(s[i])
  }

  /** The words with `seps[i]` between `ws[i]` and `ws[i + 1]`. */
  function Join(ws: seq<string>, seps: seq<string>): string
    requires |ws| >= 1 && |seps| == |ws| - 1
  {
    if |ws| == 1 then ws[0] else ws[0] + seps[0] + Join(ws[1..], seps[1..])
  }

  /** A non-space letter in front of `u` joins `u`'s first piece. */
  lemma SplitAfterLetter(c: char, u: string)
    requires !IsSpace(c)
    ensures SplitSpaces([c] + u) == [[c] + SplitSpaces(u)[0]] + SplitSpaces(u)[1..]
  {
    assert ([c] + u)[0] == c && ([c] + u)[1..] == u;
  }

  /** Text without whitespace in front of `t` joins `t`'s first piece. */
  lemma {:induction false} SplitAfterWordPart(w: string, t: string)
    requires NoSpace(w)
    ensures SplitSpaces(w + t) == [w + SplitSpaces(t)[0]] + SplitSpaces(t)[1..]
    decreases |w|
  {
    var rest := SplitSpaces(t);
    if w == [] {
      assert w + t == t && w + rest[0] == rest[0];
      assert rest == [rest[0]] + rest[1..];
    } else {
      var u := w[1..] + t;
      assert w + t == [w[0]] + u;
      SplitAfterWordPart(w[1..], t);
      SplitAfterLetter(w[0], u);
      assert w == [w[0]] + w[1..];
      assert [w[0]] + (w[1..] + rest[0]) == ([w[0]] + w[1..]) + rest[0];
    }
  }

  /** A run of whitespace before a word, however long, starts exactly one new piece. */
  lemma {:induction false} SplitAfterRun(run: string, t: string)
    requires IsRun(run) && t != [] && !IsSpace(t[0])
    ensures SplitSpaces(run + t) == [[]] + SplitSpaces(t)
    decreases |run|
  {
    var u := run + t;
    assert u[0] == run[0] && u[1..] == run[1..] + t;
    if |run| == 1 {
      assert u[1..] == t && u[1] == t[0];
    } else {
      assert u[1] == run[1];
      SplitAfterRun(run[1..], t);
    }
  }

  /** Words joined by whitespace runs begin with the first word's first letter and end with the last word's last. */
  lemma {:induction false} JoinEnds(ws: seq<string>, seps: seq<string>)
    requires |ws| >= 1 && |seps| == |ws| - 1 && forall i :: 0 <= i < |ws| ==> IsWord(ws[i])
    ensures var j, first, last := Join(ws, seps), ws[0], ws[|ws| - 1];
      && |first| > 0 && |last| > 0 && j != []
      && j[0] == first[0] && j[|j| - 1] == last[|last| - 1]
  {
    assert IsWord(ws[0]) && IsWord(ws[|ws| - 1]);
    if |ws| > 1 {
      JoinEnds(ws[1..], seps[1..]);
    }
  }

  /** Splitting words joined by any runs of whitespace gives the words back. */
  lemma {:induction false} SplitJoin(ws: seq<string>, seps: seq<string>)
    requires |ws| >= 1 && |seps| == |ws| - 1
    requires forall i :: 0 <= i < |ws| ==> IsWord(ws[i])
    requires forall i :: 0 <= i < |seps| ==> IsRun(seps[i])
    ensures SplitSpaces(Join(ws, seps)) == ws
  {
    if |ws| == 1 {
      SplitAfterWordPart(ws[0], []);
      assert ws[0] + [] == ws[0];
    } else {
      var tail := Join(ws[1..], seps[1..]);
      assert IsWord(ws[0]) && IsWord(ws[1]) && IsRun(seps[0]);
      JoinEnds(ws[1..], seps[1..]);
      assert Join(ws, seps) == ws[0] + (seps[0] + tail);
      SplitAfterWordPart(ws[0], seps[0] + tail);
      SplitAfterRun(seps[0], tail);
      assert ([[]] + SplitSpaces(tail))[1..] == SplitSpaces(tail);
      SplitJoin(ws[1..], seps[1..]);
      assert ws[0] + [] == ws[0];
      assert ws == [ws[0]] + ws[1..];
    }
  }

  /** Leading whitespace goes, the rest stays when it starts with a non-space. */
  lemma {:induction false} TrimStartDrops(pre: string, s: string)
    requires forall i :: 0 <= i < |pre| ==> IsSpace(pre[i])
    requires s == [] || !IsSpace(s[0])
    ensures TrimStart(pre + s) == s
    decreases |pre|
  {
    if pre == [] {
      assert pre + s == s;
    } else {
      assert (pre + s)[1..] == pre[1..] + s;
      TrimStartDrops(pre[1..], s);
    }
  }

  lemma {:induction false} TrimEndDrops(s: string, suf: string)
    requires forall i :: 0 <= i < |suf| ==> IsSpace(suf[i])
    requires s == [] || !IsSpace(s[|s| - 1])
    ensures TrimEnd(s + suf) == s
    decreases |suf|
  {
    if suf == [] {
      assert s + suf == s;
    } else {
      assert (s + suf)[..|s + suf| - 1] == s + suf[..|suf| - 1];
      TrimEndDrops(s, suf[..|suf| - 1]);
    }
  }

  /**
   * `getWordCount` counts the words: words separated by any runs of whitespace (spaces, tabs,
   * newlines, no-break spaces), with any whitespace around them, count as that many words.
   */
  lemma WordCountJoined(pre: string, ws: seq<string>, seps: seq<string>, suf: string)
    requires |ws| >= 1 && |seps| == |ws| - 1
    requires forall i :: 0 <= i < |ws| ==> IsWord(ws[i])
    requires forall i :: 0 <= i < |seps| ==> IsRun(seps[i])
    requires forall i :: 0 <= i < |pre| ==> IsSpace(pre[i])
    requires forall i :: 0 <= i < |suf| ==> IsSpace(suf[i])
    ensures WordCount(pre + Join(ws, seps) + suf) == |ws|
  {
    var j := Join(ws, seps);
    JoinEnds(ws, seps);
    TrimAround(pre, j, suf);
    SplitJoin(ws, seps);
  }

  /**
   * Every piece `getWordCount` counts on a page that is not blank is a word: the count is the
   * number of maximal runs of non-whitespace.
   */
  lemma CountedPiecesAreWords(text: string)
    requires Trim(text) != []
    ensures var ws := SplitSpaces(Trim(text));
      WordCount(text) == |ws| && forall k :: 0 <= k < |ws| ==> IsWord(ws[k])
  {
  }

  /** Trimming drops the whitespace around a text that starts and ends with a non-space. */
  lemma TrimAround(pre: string, s: string, suf: string)
    requires forall i :: 0 <= i < |pre| ==> IsSpace(pre[i])
    requires forall i :: 0 <= i < |suf| ==> IsSpace(suf[i])
    requires s != [] && !IsSpace(s[0]) && !IsSpace(s[|s| - 1])
    ensures Trim(pre + s + suf) == s
  {
    assert (s + suf)[0] == s[0];
    TrimStartDrops(pre, s + suf);
    assert pre + s + suf == pre + (s + suf);
    TrimEndDrops(s, suf);
  }

  /** A page without words, the empty page among them, counts one word. */
  lemma BlankTextCountsOne(text: string)
    requires forall i :: 0 <= i < |text| ==> IsSpace(text[i])
    ensures WordCount(text) == 1
  {
    TrimStartDrops(text, []);
    assert text + [] == text;
  }

  // ---------------------------------------------------------------------------
  // The flags

  /**
   * At most one overlay is in the page, the one `focusOverlay` points to, and it is only there
   * while focus mode is on.
   */
  predicate Consistent(p: PageState) {
    && p.overlaysCreated == p.overlaysRemoved + (if p.overlay then 1 else 0)
    && (p.overlay ==> p.active)
  }

  lemma LoadedConsistent(now: int)
    ensures Consistent(Loaded(now))
  {
  }

  lemma StepKeepsConsistent(p: PageState, hostname: string, e: Event)
    requires Consistent(p)
    ensures Consistent(Step(p, hostname, e))
  {
    match e
    case Message(action, stored) =>
      assert Consistent(Ended(p));
    case StorageChange(namespace, focusChange, stored) =>
      assert Consistent(Ended(p));
    case _ =>
  }

  /**
   * Messages reach the page only after the status reply: before it, a message changes nothing;
   * after it, whatever the reply said, each message runs `handleMessage`.
   */
  lemma MessagesNeedReply(now: int, hostname: string, action: string, stored: Option<seq<string>>,
                          active: bool, replyStored: Option<seq<string>>)
    ensures Step(Loaded(now), hostname, Message(action, stored)) == Loaded(now)
    ensures var q := Step(Loaded(now), hostname, StatusReply(active, replyStored));
      q.listening && Step(q, hostname, Message(action, stored)) == OnMessage(q, hostname, action, stored)
  {
  }

  /** `checkFocusMode` does nothing while inactive and otherwise shows the overlay or the reminder. */
  lemma CheckShowsOne(p: PageState, hostname: string, stored: Option<seq<string>>)
    ensures var q := CheckFocus(p, hostname, stored);
      && (!p.active ==> q == p)
      && (p.active && Blocks(hostname, stored.GetOr([])) ==>
          q.overlay && q.warningShown == p.warningShown && q.remindersShown == p.remindersShown)
      && (p.active && !Blocks(hostname, stored.GetOr([])) ==>
          q.warningShown && q.overlay == p.overlay && q.overlaysCreated == p.overlaysCreated)
  {
  }

  /** A second overlay while one shows is no overlay: showing is idempotent, removing clears it. */
  lemma OverlayOnce(p: PageState)
    ensures ShowOverlay(ShowOverlay(p)) == ShowOverlay(p)
    ensures ShowOverlay(p).overlaysCreated <= p.overlaysCreated + 1
    ensures !RemoveOverlay(ShowOverlay(p)).overlay
  {
  }

  /** The events in order, the first one first. */
  function Run(p: PageState, hostname: string, es: seq<Event>): PageState
    decreases |es|
  {
    if es == [] then p else Run(Step(p, hostname, es[0]), hostname, es[1..])
  }

  lemma RunTwo(p: PageState, hostname: string, e1: Event, e2: Event)
    ensures Run(p, hostname, [e1, e2]) == Step(Step(p, hostname, e1), hostname, e2)
  {
    var p1 := Step(p, hostname, e1);
    assert [e1, e2][0] == e1 && [e1, e2][1..] == [e2];
    assert Run(p, hostname, [e1, e2]) == Run(p1, hostname, [e2]);
    assert [e2][0] == e2 && [e2][1..] == [];
    assert Run(p1, hostname, [e2]) == Run(Step(p1, hostname, e2), hostname, []);
  }

  /** The events that end focus mode on the page and so let the reminder show again. */
  predicate Ending(e: Event) {
    || (e.Message? && e.action == "focusModeEnded")
    || (e.StorageChange? && e.namespace == "local" && e.focusChange == Some(false))
  }

  function Unshown(p: PageState): nat {
    if p.warningShown then 0 else 1
  }

  /** Until focus mode ends on the page, at most one reminder is shown, and none once one was. */
  lemma {:induction false} ReminderAtMostOnce(p: PageState, hostname: string, es: seq<Event>)
    requires forall i :: 0 <= i < |es| ==> !Ending(es[i])
    ensures var q := Run(p, hostname, es);
      && p.remindersShown <= q.remindersShown
      && q.remindersShown + Unshown(q) <= p.remindersShown + Unshown(p)
    ensures Run(p, hostname, es).remindersShown <= p.remindersShown + Unshown(p)
    decreases |es|
  {
    if es != [] {
      var p1 := Step(p, hostname, es[0]);
      assert p.remindersShown <= p1.remindersShown && p1.remindersShown + Unshown(p1) <= p.remindersShown + Unshown(p) by {
        assert !Ending(es[0]);
      }
      ReminderAtMostOnce(p1, hostname, es[1..]);
    }
  }

  /** Once focus mode has ended and starts again, a page that is not blocked shows a new reminder. */
  lemma ReminderAgainAfterEnd(p: PageState, hostname: string, stored: Option<seq<string>>)
    requires !Blocks(hostname, stored.GetOr([]))
    ensures Started(Ended(p), hostname, stored).remindersShown == p.remindersShown + 1
  {
  }

  /** A storage change of the focus flag runs the start handler when truthy, the end handler otherwise. */
  lemma StorageChangeDispatch(p: PageState, hostname: string, stored: Option<seq<string>>, namespace: string, v: Option<bool>)
    ensures Step(p, hostname, StorageChange("local", Some(true), stored)) == Started(p, hostname, stored)
    ensures Step(p, hostname, StorageChange("local", Some(false), stored)) == Ended(p)
    ensures namespace != "local" || v.None? ==> Step(p, hostname, StorageChange(namespace, v, stored)) == p
  {
  }

  // ---------------------------------------------------------------------------
  // Time and interactions

  /** A visible stretch from `shownAt` to `hiddenAt` adds its length to the time spent. */
  lemma VisibleStretchCounted(p: PageState, hostname: string, hiddenAt: int, shownAt: int)
    ensures var q := Run(p, hostname, [VisibilityChange(false, shownAt), VisibilityChange(true, hiddenAt)]);
      q.timeSpent == p.timeSpent + (hiddenAt - shownAt) && q.startTime == shownAt
  {
    RunTwo(p, hostname, VisibilityChange(false, shownAt), VisibilityChange(true, hiddenAt));
  }

  /**
   * Leaving the page after hiding it adds the time since the last showing once more: the stretch
   * before the hiding is counted twice and the hidden stretch once.
   */
  lemma HiddenThenUnloaded(p: PageState, hostname: string, hiddenAt: int, leftAt: int)
    ensures Run(p, hostname, [VisibilityChange(true, hiddenAt), BeforeUnload(leftAt)]).timeSpent
      == p.timeSpent + (hiddenAt - p.startTime) + (leftAt - p.startTime)
  {
    RunTwo(p, hostname, VisibilityChange(true, hiddenAt), BeforeUnload(leftAt));
  }

  predicate IsInteraction(e: Event) {
    e.KeyDownEvent? || e.Click? || e.TouchStart? || e.KeyPress?
  }

  /** The number of interaction events among `es`. */
  function Interactions(es: seq<Event>): nat {
    if es == [] then 0 else (if IsInteraction(es[0]) then 1 else 0) + Interactions(es[1..])
  }

  /** The interaction count only grows, by one per key down, click, touch or key press. */
  lemma {:induction false} InteractionsCounted(p: PageState, hostname: string, es: seq<Event>)
    ensures Run(p, hostname, es).interactions == p.interactions + Interactions(es)
    decreases |es|
  {
    if es != [] {
      StepInteractions(p, hostname, es[0]);
      InteractionsCounted(Step(p, hostname, es[0]), hostname, es[1..]);
    }
  }

  lemma StepInteractions(p: PageState, hostname: string, e: Event)
    ensures Step(p, hostname, e).interactions == p.interactions + (if IsInteraction(e) then 1 else 0)
  {
  }

  /** One typed character fires `keydown` and `keypress`, so it counts as two interactions. */
  lemma KeyStrokeCountsTwice(p: PageState, hostname: string, key: string)
    ensures Run(p, hostname, [KeyDownEvent(false, key), KeyPress]).interactions == p.interactions + 2
  {
    RunTwo(p, hostname, KeyDownEvent(false, key), KeyPress);
  }

  /**
   * Unloading reports the accumulated time and interactions for the page's hostname and leaves
   * no overlay in the page; the focus flags stay as they were.
   */
  lemma UnloadReports(p: PageState, hostname: string, now: int)
    ensures var q := Step(p, hostname, BeforeUnload(now));
      && q.sent == p.sent + [PageAnalytics(hostname, p.timeSpent + (now - p.startTime), p.interactions)]
      && !q.overlay && q.active == p.active && q.warningShown == p.warningShown
      && q.overlaysRemoved == p.overlaysRemoved + (if p.overlay then 1 else 0)
  {
  }
}
