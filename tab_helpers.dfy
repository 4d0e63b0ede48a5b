/**
 * The tab helpers of popup.js: the label and colour of a domain's tab group, and the choice of
 * tabs to pin from the usage statistics (`checkAndPinMostUsedTabs`, `pinMostUsedTabs`).
 */
module TabHelpers {
  import opened Common
  import opened Logs
  import opened TimerDisplay

  // ---------------------------------------------------------------------------
  // getDomainDisplayName

  /** The longest label kept whole. */
  const LabelLength: nat := 15

  /** The domain without one leading "www."; any other domain is kept as it is. */
  function CleanDomain(domain: string): (r: string)
    ensures StartsWith(domain, "www.") ==> domain == "www." + r
    ensures !StartsWith(domain, "www.") ==> r == domain
  {
    DropPrefix(domain, "www.")
  }

  /** `getDomainDisplayName`: the clean domain, cut to 15 characters followed by "..." when longer. */
  function DisplayName(domain: string): (r: string)
    ensures var clean := CleanDomain(domain);
      && (|clean| <= LabelLength ==> r == clean)
      && (|clean| > LabelLength ==> |r| == LabelLength + 3 && r[..LabelLength] == clean[..LabelLength] && r[LabelLength..] == "...")
  {
    var clean := CleanDomain(domain);
    if |clean| > LabelLength then clean[..LabelLength] + "..." else clean
  }

  /** A label is at most 18 characters long and starts like the clean domain. */
  lemma DisplayNameBounds(domain: string)
    ensures |DisplayName(domain)| <= LabelLength + 3
    ensures var n := Min(|CleanDomain(domain)|, LabelLength);
      DisplayName(domain)[..n] == CleanDomain(domain)[..n]
  {
  }

  /** Labelling a label changes nothing, unless the domain began with "www." twice. */
  lemma DisplayNameIdempotent(domain: string)
    requires !StartsWith(CleanDomain(domain), "www.")
    ensures DisplayName(DisplayName(domain)) == DisplayName(domain)
  {
    var clean := CleanDomain(domain);
    var r := DisplayName(domain);
    if |clean| > LabelLength {
      assert r[..4] == clean[..4];
    }
  }

  /** The exception: a domain that starts with "www." twice loses one more "www." when relabelled. */
  lemma DisplayNameNotIdempotent()
    ensures DisplayName("www.www.a.com") == "www.a.com"
    ensures DisplayName(DisplayName("www.www.a.com")) == "a.com"
  {
    assert "www.www.a.com"[..4] == "www.";
    assert "www.a.com"[..4] == "www.";
  }

  /**
   * Two domains whose clean forms are both longer than 15 characters share a label exactly when
   * those clean forms agree on their first 15 characters.
   */
  lemma DisplayNamesCollide(d1: string, d2: string)
    requires |CleanDomain(d1)| > LabelLength && |CleanDomain(d2)| > LabelLength
    ensures DisplayName(d1) == DisplayName(d2) <==> CleanDomain(d1)[..LabelLength] == CleanDomain(d2)[..LabelLength]
  {
    var c1, c2 := CleanDomain(d1), CleanDomain(d2);
    if DisplayName(d1) == DisplayName(d2) {
      assert c1[..LabelLength] == DisplayName(d1)[..LabelLength];
    }
  }

  /** One collision: two documentation domains share the label "documentation.e...". */
  lemma DisplayNameCollisionExample()
    ensures DisplayName("documentation.example.com") == DisplayName("documentation.example.org") == "documentation.e..."
  {
    assert "documentation.example.com"[0..4] == "docu";
    assert "documentation.example.org"[0..4] == "docu";
    DisplayNamesCollide("documentation.example.com", "documentation.example.org");
  }

  // ---------------------------------------------------------------------------
  // getGroupColor

  /** The eight tab-group colours, in the order the hash indexes them. */
  const Colors: seq<string> := ["grey", "blue", "red", "yellow", "green", "pink", "purple", "cyan"]

  /** The colours of the twelve common domains. */
  const DomainColors: map<string, string> := map[
    "google.com" := "blue", "youtube.com" := "red", "facebook.com" := "blue",
    "twitter.com" := "cyan", "instagram.com" := "pink", "linkedin.com" := "blue",
    "github.com" := "grey", "stackoverflow.com" := "yellow", "reddit.com" := "red",
    "amazon.com" := "yellow", "netflix.com" := "red", "spotify.com" := "green"]

  /**
   * What `getGroupColor` returns: a colour name, or, for a domain named like a property every
   * object inherits, that inherited member itself (`domainColors[domain]` is then a truthy
   * function or object, not a colour).
   */
  datatype GroupColor = ColorName(name: string) | InheritedMember(name: string)

  /** The hash of `s`: from 0, each code `c` folds in as `h := int32(31 h + c)`. */
  function Hash(s: string): (h: int)
    ensures IsInt32(h)
  {
    if s == [] then 0 else Int32(31 * Hash(s[..|s| - 1]) + (s[|s| - 1] as int))
  }

  /** `Math.abs`. */
  function Abs(x: int): nat {
    if x < 0 then -x else x
  }

  /**
   * `getGroupColor(domain)`: every domain not named like an inherited member gets one of the
   * eight colours; a name like `constructor` finds the inherited member instead.
   */
  function ColorOf(domain: string): (r: GroupColor)
    ensures domain !in InheritedNames ==> r.ColorName? && r.name in Colors
    ensures domain in InheritedNames && domain !in DomainColors ==> r == InheritedMember(domain)
  {
    if domain in DomainColors then
      assert DomainColors.Values <= set c | c in Colors;
      assert DomainColors[domain] in DomainColors.Values;
      ColorName(DomainColors[domain])
    else if domain in InheritedNames then InheritedMember(domain)
    else ColorName(Colors[Abs(Hash(domain)) % |Colors|])
  }

  /** Values that agree modulo 2^32 have the same 32-bit value. */
  lemma Int32Congruent(x: int, y: int)
    requires (x - y) % TwoTo32 == 0
    ensures Int32(x) == Int32(y)
  {
    var k := (x - y) / TwoTo32;
    assert x + TwoTo31 == (y + TwoTo31) + k * TwoTo32;
    ModAddMultiple(y + TwoTo31, k);
  }

  /** Adding a multiple of 2^32 leaves the remainder. */
  lemma ModAddMultiple(a: int, k: int)
    ensures (a + k * TwoTo32) % TwoTo32 == a % TwoTo32
  {
  }

  /** One step of the loop: `((h << 5) - h) + c` then `& itself` is `int32(31 h + c)` for a 32-bit `h`. */
  lemma HashStep(h: int, c: int)
    requires IsInt32(h)
    ensures Int32(Int32(h * 32) - h + c) == Int32(31 * h + c)
  {
    var s := Int32(h * 32);
    assert (h * 32 - s) % TwoTo32 == 0;
    assert (Int32(h * 32) - h + c) - (31 * h + c) == s - h * 32;
    Int32Congruent(Int32(h * 32) - h + c, 31 * h + c);
  }

  /** The loop of `getGroupColor`. */
  method GetGroupColor(domain: string) returns (color: GroupColor)
    ensures color == ColorOf(domain)
  {
    if domain in DomainColors {
      return ColorName(DomainColors[domain]);
    }
    if domain in InheritedNames {
      return InheritedMember(domain);
    }
    var hash := 0;
    var i := 0;
    while i < |domain|
      invariant 0 <= i <= |domain|
      invariant hash == Hash(domain[..i])
    {
      var code := domain[i] as int;
      assert domain[..i + 1][..i] == domain[..i];
      HashStep(hash, code);
      hash := Int32(Int32(hash * 32) - hash + code);
      i := i + 1;
    }
    assert domain[..i] == domain;
    color := ColorName(Colors[Abs(hash) % |Colors|]);
  }

  /** The colour depends on the domain alone; a domain outside the table takes the colour its hash picks. */
  lemma HashedColor(domain: string)
    requires domain !in DomainColors && domain !in InheritedNames
    ensures ColorOf(domain) == ColorName(Colors[Abs(Hash(domain)) % 8])
  {
  }

  /** `a` hashes to 97, so it is blue; `constructor`, a possible hostname, is an inherited member, not a colour. */
  lemma ColorExamples()
    ensures ColorOf("a") == ColorName("blue")
    ensures ColorOf("constructor") == InheritedMember("constructor")
  {
    assert "a"[..0] == [];
    assert Hash("a") == 97;
  }

  // ---------------------------------------------------------------------------
  // Ranking the usage statistics

  function Visits(e: Entry): int {
    e.usage.totalVisits
  }

  predicate SortedByVisits(s: seq<Entry>) {
    forall i, j :: 0 <= i < j < |s| ==> Visits(s[i]) >= Visits(s[j])
  }

  /** The entries with `v` visits, in order. */
  function WithVisits(s: seq<Entry>, v: int): seq<Entry> {
    if s == [] then [] else (if Visits(s[0]) == v then [s[0]] else []) + WithVisits(s[1..], v)
  }

  /** `x` placed after every entry with at least its visits. */
  function Insert(x: Entry, s: seq<Entry>): (r: seq<Entry>)
    ensures |r| == |s| + 1
  {
    if s == [] then [x]
    else if Visits(s[0]) >= Visits(x) then [s[0]] + Insert(x, s[1..])
    else [x] + s
  }

  /**
   * `Object.entries(usageStats).sort((a, b) => b[1].totalVisits - a[1].totalVisits)`: the
   * entries by visits, most first; `Array.prototype.sort` is stable, so entries with equal
   * visits keep their order.
   */
  function SortByVisits(s: seq<Entry>): (r: seq<Entry>)
    ensures |r| == |s|
  {
    if s == [] then [] else Insert(s[|s| - 1], SortByVisits(s[..|s| - 1]))
  }

  /** `.slice(0, k)` of the ranking. */
  function TopByVisits(stats: seq<Entry>, k: nat): (top: seq<Entry>)
    ensures |top| == Min(k, |stats|)
  {
    var sorted := SortByVisits(stats);
    sorted[..Min(k, |sorted|)]
  }

  /** Inserting adds `x` and loses nothing. */
  lemma {:induction false} InsertPermutes(x: Entry, s: seq<Entry>)
    ensures multiset(Insert(x, s)) == multiset(s) + multiset{x}
  {
    if s != [] {
      assert s == [s[0]] + s[1..];
      if Visits(s[0]) >= Visits(x) {
        InsertPermutes(x, s[1..]);
      }
    }
  }

  /** The ranking holds the entries it was given, each as often. */
  lemma {:induction false} SortPermutes(s: seq<Entry>)
    ensures multiset(SortByVisits(s)) == multiset(s)
  {
    if s != [] {
      var init, x := s[..|s| - 1], s[|s| - 1];
      assert multiset(SortByVisits(s)) == multiset(init) + multiset{x} by {
        SortPermutes(init);
        InsertPermutes(x, SortByVisits(init));
      }
      assert multiset(s) == multiset(init) + multiset{x} by {
        assert s == init + [x];
      }
    }
  }

  /** An entry of the insertion is `x` or an entry of the ranking. */
  lemma InsertMembers(x: Entry, s: seq<Entry>, y: Entry)
    requires y in Insert(x, s)
    ensures y == x || y in s
  {
    InsertPermutes(x, s);
    assert y in multiset(Insert(x, s));
  }

  /** Inserting into a ranking keeps it sorted. */
  lemma {:induction false} InsertSorted(x: Entry, s: seq<Entry>)
    requires SortedByVisits(s)
    ensures SortedByVisits(Insert(x, s))
  {
    if s != [] && Visits(s[0]) >= Visits(x) {
      var tail := Insert(x, s[1..]);
      assert SortedByVisits(tail) by {
        SortedTail(s);
        InsertSorted(x, s[1..]);
      }
      InsertBehind(x, s);
      forall y | y in tail
        ensures Visits(s[0]) >= Visits(y)
      {
        InsertMembers(x, s[1..], y);
        if y != x {
          var m :| 0 <= m < |s[1..]| && s[1..][m] == y;
          assert s[m + 1] == y;
        }
      }
      SortedCons(s[0], tail);
    }
  }

  /** An entry with at least the visits of every entry of a ranking can go in front of it. */
  lemma SortedCons(x: Entry, s: seq<Entry>)
    requires SortedByVisits(s)
    requires forall y :: y in s ==> Visits(x) >= Visits(y)
    ensures SortedByVisits([x] + s)
  {
    var r := [x] + s;
    forall i, j | 0 <= i < j < |r|
      ensures Visits(r[i]) >= Visits(r[j])
    {
      assert r[j] == s[j - 1];
      if i > 0 {
        assert r[i] == s[i - 1];
      }
    }
  }

  /** Entries with `v` visits of an all-lower ranking: none. */
  lemma {:induction false} WithVisitsAllBelow(s: seq<Entry>, v: int)
    requires forall i :: 0 <= i < |s| ==> Visits(s[i]) < v
    ensures WithVisits(s, v) == []
  {
    if s != [] {
      WithVisitsAllBelow(s[1..], v);
    }
  }

  /** The entries with `v` visits of a ranking with `x` in front. */
  lemma WithVisitsCons(x: Entry, s: seq<Entry>, v: int)
    ensures WithVisits([x] + s, v) == (if Visits(x) == v then [x] else []) + WithVisits(s, v)
  {
    assert ([x] + s)[0] == x && ([x] + s)[1..] == s;
  }

  /** Inserting into a ranking puts `x` after every entry with its visits. */
  lemma {:induction false} InsertStable(x: Entry, s: seq<Entry>, v: int)
    requires SortedByVisits(s)
    ensures WithVisits(Insert(x, s), v) == WithVisits(s, v) + (if Visits(x) == v then [x] else [])
    decreases |s|, 1
  {
    if s == [] {
      WithVisitsCons(x, [], v);
    } else if Visits(s[0]) >= Visits(x) {
      InsertStableBehind(x, s, v);
    } else {
      InsertStableInFront(x, s, v);
    }
  }

  /** Behind a first entry with at least its visits, `x` goes into the rest. */
  lemma InsertBehind(x: Entry, s: seq<Entry>)
    requires s != [] && Visits(s[0]) >= Visits(x)
    ensures Insert(x, s) == [s[0]] + Insert(x, s[1..])
  {
  }

  lemma SortedTail(s: seq<Entry>)
    requires SortedByVisits(s) && s != []
    ensures SortedByVisits(s[1..])
  {
  }

  lemma {:induction false} InsertStableBehind(x: Entry, s: seq<Entry>, v: int)
    requires SortedByVisits(s) && s != [] && Visits(s[0]) >= Visits(x)
    ensures WithVisits(Insert(x, s), v) == WithVisits(s, v) + (if Visits(x) == v then [x] else [])
    decreases |s|, 0
  {
    var mine: seq<Entry> := if Visits(x) == v then [x] else [];
    var head: seq<Entry> := if Visits(s[0]) == v then [s[0]] else [];
    var t := Insert(x, s[1..]);
    var rest := WithVisits(s[1..], v);
    assert WithVisits(Insert(x, s), v) == head + WithVisits(t, v) by {
      InsertBehind(x, s);
      WithVisitsCons(s[0], t, v);
    }
    assert WithVisits(s, v) == head + rest by {
      assert s == [s[0]] + s[1..];
      WithVisitsCons(s[0], s[1..], v);
    }
    assert WithVisits(t, v) == rest + mine by {
      SortedTail(s);
      InsertStable(x, s[1..], v);
    }
    ConcatAssociative(head, rest, mine);
  }

  lemma ConcatAssociative(a: seq<Entry>, b: seq<Entry>, c: seq<Entry>)
    ensures a + (b + c) == (a + b) + c
  {
  }

  lemma InsertStableInFront(x: Entry, s: seq<Entry>, v: int)
    requires SortedByVisits(s) && s != [] && Visits(s[0]) < Visits(x)
    ensures WithVisits(Insert(x, s), v) == WithVisits(s, v) + (if Visits(x) == v then [x] else [])
  {
    assert Insert(x, s) == [x] + s;
    WithVisitsCons(x, s, v);
    if Visits(x) == v {
      assert forall i :: 0 <= i < |s| ==> Visits(s[i]) <= Visits(s[0]);
      WithVisitsAllBelow(s, v);
    }
  }

  lemma {:induction false} WithVisitsAppend(a: seq<Entry>, b: seq<Entry>, v: int)
    ensures WithVisits(a + b, v) == WithVisits(a, v) + WithVisits(b, v)
  {
    if a == [] {
      assert a + b == b;
    } else {
      assert (a + b)[0] == a[0] && (a + b)[1..] == a[1..] + b;
      WithVisitsAppend(a[1..], b, v);
    }
  }

  /** The ranking is sorted by visits, most first. */
  lemma {:induction false} SortSorted(s: seq<Entry>)
    ensures SortedByVisits(SortByVisits(s))
  {
    if s != [] {
      SortSorted(s[..|s| - 1]);
      InsertSorted(s[|s| - 1], SortByVisits(s[..|s| - 1]));
    }
  }

  /** The ranking keeps entries with equal visits in their order: it is the stable sort. */
  lemma {:induction false} SortStable(s: seq<Entry>, v: int)
    ensures WithVisits(SortByVisits(s), v) == WithVisits(s, v)
  {
    if s != [] {
      var init, x := s[..|s| - 1], s[|s| - 1];
      var sorted := SortByVisits(init);
      assert WithVisits(SortByVisits(s), v) == WithVisits(sorted, v) + (if Visits(x) == v then [x] else []) by {
        assert SortByVisits(s) == Insert(x, sorted);
        SortSorted(init);
        InsertStable(x, sorted, v);
      }
      SortStable(init, v);
      WithVisitsSnoc(init, x, v);
      assert s == init + [x];
    }
  }

  lemma WithVisitsSnoc(s: seq<Entry>, x: Entry, v: int)
    ensures WithVisits(s + [x], v) == WithVisits(s, v) + (if Visits(x) == v then [x] else [])
  {
    WithVisitsAppend(s, [x], v);
    WithVisitsCons(x, [], v);
    assert [x] + [] == [x];
  }

  /** No entry left out of the top `k` has more visits than one kept. */
  lemma TopDominates(stats: seq<Entry>, k: nat)
    ensures forall e, t :: e in multiset(stats) - multiset(TopByVisits(stats, k)) && t in TopByVisits(stats, k) ==> Visits(t) >= Visits(e)
  {
    var sorted := SortByVisits(stats);
    var n := Min(k, |sorted|);
    assert multiset(stats) - multiset(sorted[..n]) == multiset(sorted[n..]) by {
      SortPermutes(stats);
      assert sorted == sorted[..n] + sorted[n..];
    }
    SortSorted(stats);
    PrefixDominates(sorted, n);
  }

  /** In a ranking, every entry before position `n` has at least the visits of every entry after. */
  lemma PrefixDominates(sorted: seq<Entry>, n: nat)
    requires SortedByVisits(sorted) && n <= |sorted|
    ensures forall e, t :: e in multiset(sorted[n..]) && t in sorted[..n] ==> Visits(t) >= Visits(e)
  {
    forall e, t | e in multiset(sorted[n..]) && t in sorted[..n]
      ensures Visits(t) >= Visits(e)
    {
      var j :| 0 <= j < |sorted[n..]| && sorted[n..][j] == e;
      var i :| 0 <= i < n && sorted[..n][i] == t;
      assert sorted[n + j] == e && sorted[i] == t;
    }
  }

  // ---------------------------------------------------------------------------
  // Choosing the tabs to pin

  /** The first tab whose hostname is exactly `domain` and that is not pinned (`tabs.find`). */
  function FirstUnpinnedOn(tabs: seq<Tab>, domain: string): (r: Option<nat>)
    ensures r.Some? ==> r.value < |tabs| && tabs[r.value].hostname == Some(domain) && !tabs[r.value].pinned
    ensures r.Some? ==> forall j :: 0 <= j < r.value ==> tabs[j].hostname != Some(domain) || tabs[j].pinned
    ensures r.None? ==> forall j :: 0 <= j < |tabs| ==> tabs[j].hostname != Some(domain) || tabs[j].pinned
  {
    if tabs == [] then None
    else if tabs[0].hostname == Some(domain) && !tabs[0].pinned then Some(0)
    else
      match FirstUnpinnedOn(tabs[1..], domain)
      case None => None
      case Some(i) => Some(i + 1)
  }

  /** A tab to pin: its position among the queried tabs, the domain and that domain's visits. */
  datatype Pick = Pick(tab: nat, domain: string, visits: int)

  /** The tabs the loop over the ranked domains finds; with `minVisits`, only domains with at least that many visits count. */
  function Picks(ranked: seq<Entry>, tabs: seq<Tab>, minVisits: Option<int>): (r: seq<Pick>)
    ensures |r| <= |ranked|
  {
    if ranked == [] then []
    else
      var e := ranked[0];
      var rest := Picks(ranked[1..], tabs, minVisits);
      if minVisits.Some? && Visits(e) < minVisits.value then rest
      else match FirstUnpinnedOn(tabs, e.domain)
        case None => rest
        case Some(i) => [Pick(i, e.domain, Visits(e))] + rest
  }

  /**
   * `checkAndPinMostUsedTabs`: the top five domains, those with at least ten visits. At most five
   * tabs are picked, each unpinned and on its domain.
   */
  function AutoPinSelection(stats: seq<Entry>, tabs: seq<Tab>): (r: seq<Pick>)
    ensures |r| <= 5
    ensures forall p :: p in r ==> p.visits >= 10 && p.tab < |tabs| && !tabs[p.tab].pinned && tabs[p.tab].hostname == Some(p.domain)
  {
    var top := TopByVisits(stats, 5);
    PicksSound(top, tabs, Some(10));
    Picks(top, tabs, Some(10))
  }

  /** `pinMostUsedTabs`: the top three domains, whatever their visits. At most three tabs are picked, each unpinned and on its domain. */
  function ManualPinSelection(stats: seq<Entry>, tabs: seq<Tab>): (r: seq<Pick>)
    ensures |r| <= 3
    ensures forall p :: p in r ==> p.tab < |tabs| && !tabs[p.tab].pinned && tabs[p.tab].hostname == Some(p.domain)
  {
    var top := TopByVisits(stats, 3);
    PicksSound(top, tabs, None);
    Picks(top, tabs, None)
  }

  /** The queried tabs once the picked ones are pinned. */
  function Pinned(tabs: seq<Tab>, picks: seq<Pick>): (r: seq<Tab>)
    ensures |r| == |tabs|
  {
    seq(|tabs|, i requires 0 <= i < |tabs| => if exists k :: 0 <= k < |picks| && picks[k].tab == i then tabs[i].(pinned := true) else tabs[i])
  }

  /** The log entry `checkAndPinMostUsedTabs` adds for one pinned tab. */
  function AutoPinText(p: Pick): string {
    "Auto-pinned " + p.domain + " (" + IntText(p.visits) + " visits)"
  }

  /** The log after the auto-pin entries, one per pick in order (the last pick newest). */
  function AutoPinLog(log: seq<Activity>, picks: seq<Pick>, now: int): seq<Activity>
    decreases |picks|
  {
    if picks == [] then log
    else AutoPinLog(Logged(log, Activity("\U{1F4CC}", AutoPinText(picks[0]), now), PopupLogCap), picks[1..], now)
  }

  /** The log entry `pinMostUsedTabs` adds. */
  function ManualPinText(pinnedCount: nat): string {
    "Manually pinned " + IntText(pinnedCount) + " most used tabs"
  }

  // ---------------------------------------------------------------------------
  // Properties of the choice

  /**
   * Every pick is the first unpinned tab on its domain, the domain is one of the ranked ones
   * and has at least `minVisits` visits.
   */
  lemma {:induction false} PicksSound(ranked: seq<Entry>, tabs: seq<Tab>, minVisits: Option<int>)
    ensures forall p :: p in Picks(ranked, tabs, minVisits) ==>
      && FirstUnpinnedOn(tabs, p.domain) == Some(p.tab)
      && (exists e :: e in ranked && e.domain == p.domain && Visits(e) == p.visits)
      && (minVisits.Some? ==> p.visits >= minVisits.value)
  {
    if ranked != [] {
      PicksSound(ranked[1..], tabs, minVisits);
      var rest := Picks(ranked[1..], tabs, minVisits);
      forall p | p in Picks(ranked, tabs, minVisits)
        ensures FirstUnpinnedOn(tabs, p.domain) == Some(p.tab)
        ensures exists e :: e in ranked && e.domain == p.domain && Visits(e) == p.visits
        ensures minVisits.Some? ==> p.visits >= minVisits.value
      {
        if p in rest {
          var e :| e in ranked[1..] && e.domain == p.domain && Visits(e) == p.visits;
          assert e in ranked;
        } else {
          assert ranked[0] in ranked;
        }
      }
    }
  }

  /** Every ranked domain that qualifies and has an unpinned tab on it is picked. */
  lemma {:induction false} PicksComplete(ranked: seq<Entry>, tabs: seq<Tab>, minVisits: Option<int>, e: Entry)
    requires e in ranked
    requires minVisits.None? || Visits(e) >= minVisits.value
    requires FirstUnpinnedOn(tabs, e.domain).Some?
    ensures Pick(FirstUnpinnedOn(tabs, e.domain).value, e.domain, Visits(e)) in Picks(ranked, tabs, minVisits)
  {
    if ranked[0] != e {
      PicksComplete(ranked[1..], tabs, minVisits, e);
    }
  }

  /** Picks for distinct domains are distinct tabs, since a tab has one hostname. */
  lemma PicksDistinctTabs(ranked: seq<Entry>, tabs: seq<Tab>, minVisits: Option<int>, p: Pick, q: Pick)
    requires p in Picks(ranked, tabs, minVisits) && q in Picks(ranked, tabs, minVisits) && p.domain != q.domain
    ensures p.tab != q.tab
  {
    PicksSound(ranked, tabs, minVisits);
  }

  /**
   * A host with two unpinned tabs gets a second one pinned on the next run: once its first tab
   * is pinned, the search finds the next.
   */
  lemma RepeatedRunPinsAgain(a: Tab, b: Tab, e: Entry)
    requires a.hostname == Some(e.domain) && b.hostname == Some(e.domain) && !a.pinned && !b.pinned
    requires Visits(e) >= 10
    ensures AutoPinSelection([e], [a, b]) == [Pick(0, e.domain, Visits(e))]
    ensures AutoPinSelection([e], Pinned([a, b], [Pick(0, e.domain, Visits(e))])) == [Pick(1, e.domain, Visits(e))]
  {
    assert [e][..0] == [] && [e][1..] == [] && [e][..1] == [e];
    assert SortByVisits([e]) == Insert(e, SortByVisits([]));
    assert TopByVisits([e], 5) == [e];
    var pick0, pick1 := Pick(0, e.domain, Visits(e)), Pick(1, e.domain, Visits(e));
    var picks := [pick0];
    var p := Pinned([a, b], picks);
    assert p[0] == a.(pinned := true) by {
      assert picks[0].tab == 0;
    }
    assert p[1] == b;
    assert FirstUnpinnedOn([a, b], e.domain) == Some(0);
    assert FirstUnpinnedOn(p, e.domain) == Some(1) by {
      assert p[1..][0] == b;
      assert FirstUnpinnedOn(p[1..], e.domain) == Some(0);
    }
    assert Picks([e], [a, b], Some(10)) == [pick0] + Picks([], [a, b], Some(10));
    assert Picks([e], p, Some(10)) == [pick1] + Picks([], p, Some(10));
  }

  /** The auto-pin log gains one entry per pick, newest last-picked first, within the cap. */
  lemma {:induction false} AutoPinLogged(log: seq<Activity>, picks: seq<Pick>, now: int)
    ensures |AutoPinLog(log, picks, now)| == if picks == [] then |log| else Min(PopupLogCap, |log| + |picks|)
    ensures picks != [] ==> AutoPinLog(log, picks, now)[0] == Activity("\U{1F4CC}", AutoPinText(picks[|picks| - 1]), now)
    decreases |picks|
  {
    if picks != [] {
      var log1 := Logged(log, Activity("\U{1F4CC}", AutoPinText(picks[0]), now), PopupLogCap);
      AutoPinLogged(log1, picks[1..], now);
      assert |log1| == Min(PopupLogCap, |log| + 1);
      assert AutoPinLog(log, picks, now) == AutoPinLog(log1, picks[1..], now);
    }
  }
}
