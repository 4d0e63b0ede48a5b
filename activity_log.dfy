/** The bounded activity log, the performance counters and the per-domain usage statistics. */
module Logs {
  import opened Common

  /** One entry of `recentActivities`: icon, text and `Date.now()` when it was logged. */
  datatype Activity = Activity(icon: string, text: string, timestamp: int)

  /** The log cap of popup.js's `addActivity`. */
  const PopupLogCap: nat := 20
  /** The log cap of background.js's `addActivity`. */
  const BackgroundLogCap: nat := 50

  /** `unshift` the entry, then `splice(cap)` when the log grew longer than `cap`. */
  function Logged(log: seq<Activity>, entry: Activity, cap: nat): (r: seq<Activity>)
    requires cap >= 1
    ensures |r| == Min(cap, |log| + 1)
    ensures r[0] == entry
    ensures r[1..] == log[..|r| - 1]
  {
    var grown := [entry] + log;
    var kept := if |grown| > cap then grown[..cap] else grown;
    assert kept[1..] == log[..|kept| - 1];
    kept
  }

  /** `stats[stat] = (stats[stat] || 0) + value`. */
  function Bumped(stats: map<string, int>, stat: string, value: int): (r: map<string, int>)
    ensures r.Keys == stats.Keys + {stat}
    ensures r[stat] == (if stat in stats then stats[stat] else 0) + value
    ensures forall k :: k in stats && k != stat ==> r[k] == stats[k]
  {
    stats[stat := (if stat in stats then stats[stat] else 0) + value]
  }

  /** The counters background.js writes at install time and popup.js starts from. */
  const InitialStats: map<string, int> := map[
    "tabsOpened" := 0, "tabsClosed" := 0,
    "focusSessionsCompleted" := 0, "totalFocusTime" := 0]

  // ---------------------------------------------------------------------------
  // Tab usage statistics: `tabUsageStats`, an object keyed by host name

  datatype Usage = Usage(totalVisits: int, lastVisit: int, averageTime: int)

  /** One own property of `tabUsageStats`, kept in the object's insertion order. */
  datatype Entry = Entry(domain: string, usage: Usage)

  /** Each domain has at most one entry. */
  predicate UniqueDomains(stats: seq<Entry>) {
    forall i, j :: 0 <= i < j < |stats| ==> stats[i].domain != stats[j].domain
  }

  /** `usageStats[domain]` for an own property. */
  function Lookup(stats: seq<Entry>, domain: string): (r: Option<Usage>)
    ensures r.None? <==> forall i :: 0 <= i < |stats| ==> stats[i].domain != domain
    ensures r.Some? ==> exists i :: 0 <= i < |stats| && stats[i] == Entry(domain, r.value)
  {
    if stats == [] then None
    else if stats[0].domain == domain then Some(stats[0].usage)
    else
      var r := Lookup(stats[1..], domain);
      assert forall i :: 1 <= i < |stats| ==> stats[i] == stats[1..][i - 1];
      r
  }

  /** The statistics with one more visit, at `now`, on the entry of `domain`. */
  function Touching(stats: seq<Entry>, domain: string, now: int): (r: seq<Entry>)
    ensures |r| == |stats|
    ensures forall i :: 0 <= i < |stats| ==> r[i].domain == stats[i].domain
    ensures forall i :: 0 <= i < |stats| ==>
      r[i].usage == if stats[i].domain == domain
                    then stats[i].usage.(totalVisits := stats[i].usage.totalVisits + 1, lastVisit := now)
                    else stats[i].usage
  {
    if stats == [] then []
    else
      var e := stats[0];
      var head := if e.domain == domain then Entry(domain, e.usage.(totalVisits := e.usage.totalVisits + 1, lastVisit := now)) else e;
      [head] + Touching(stats[1..], domain, now)
  }

  /**
   * `updateTabUsageStats(url)` given `new URL(url).hostname` (`None` when the URL does not parse).
   * A new host gets `{totalVisits: 0, lastVisit: 0, averageTime: 0}` first; then its visits grow by
   * one and `lastVisit` becomes `now`. A host named like an inherited property finds that property
   * instead, so its own entry is never created.
   */
  function RecordVisit(stats: seq<Entry>, hostname: Option<string>, now: int): (r: seq<Entry>)
    ensures hostname.None? ==> r == stats
    ensures hostname.Some? && hostname.value in InheritedNames ==> r == stats
    ensures |stats| <= |r| <= |stats| + 1
    ensures forall i :: 0 <= i < |stats| ==> r[i].domain == stats[i].domain
  {
    match hostname
    case None => stats
    case Some(domain) =>
      if domain in InheritedNames then stats
      else if Lookup(stats, domain).Some? then Touching(stats, domain, now)
      else stats + [Entry(domain, Usage(1, now, 0))]
  }

  // ---------------------------------------------------------------------------
  // Properties

  /** A logged entry is first, at most `cap` entries stay, and the older ones keep their order. */
  lemma {:induction false} LoggingKeepsNewest(log: seq<Activity>, a: Activity, b: Activity, cap: nat)
    requires cap >= 2
    ensures var r := Logged(Logged(log, a, cap), b, cap);
      |r| <= cap && r[0] == b && r[1] == a && r[2..] == log[..|r| - 2]
  {
    var once := Logged(log, a, cap);
    var r := Logged(once, b, cap);
    assert r[1..] == once[..|r| - 1];
    assert r[1] == once[0];
    assert r[2..] == once[1..][..|r| - 2];
  }

  /** A visit adds one to the host's visits and records `now`; every other host is untouched. */
  lemma {:induction false} VisitCounts(stats: seq<Entry>, domain: string, now: int)
    requires domain !in InheritedNames
    ensures Lookup(RecordVisit(stats, Some(domain), now), domain) ==
      Some(match Lookup(stats, domain)
           case None => Usage(1, now, 0)
           case Some(u) => u.(totalVisits := u.totalVisits + 1, lastVisit := now))
    ensures forall d :: d != domain ==> Lookup(RecordVisit(stats, Some(domain), now), d) == Lookup(stats, d)
  {
    LookupTouching(stats, domain, now);
    LookupAppend(stats, Entry(domain, Usage(1, now, 0)));
  }

  /** Touching changes the looked-up usage of `domain` only. */
  lemma {:induction false} LookupTouching(stats: seq<Entry>, domain: string, now: int)
    ensures forall d :: d != domain ==> Lookup(Touching(stats, domain, now), d) == Lookup(stats, d)
    ensures Lookup(Touching(stats, domain, now), domain) ==
      match Lookup(stats, domain)
      case None => None
      case Some(u) => Some(u.(totalVisits := u.totalVisits + 1, lastVisit := now))
  {
    if stats != [] {
      LookupTouching(stats[1..], domain, now);
      var r := Touching(stats, domain, now);
      assert r[1..] == Touching(stats[1..], domain, now);
    }
  }

  /** An appended entry is found only when no earlier entry has its domain. */
  lemma {:induction false} LookupAppend(stats: seq<Entry>, e: Entry)
    ensures forall d :: d != e.domain ==> Lookup(stats + [e], d) == Lookup(stats, d)
    ensures Lookup(stats, e.domain).None? ==> Lookup(stats + [e], e.domain) == Some(e.usage)
  {
    if stats != [] {
      LookupAppend(stats[1..], e);
      assert (stats + [e])[1..] == stats[1..] + [e];
    }
  }

  /** Visits never create a second entry for a domain. */
  lemma VisitKeepsDomainsUnique(stats: seq<Entry>, hostname: Option<string>, now: int)
    requires UniqueDomains(stats)
    ensures UniqueDomains(RecordVisit(stats, hostname, now))
  {
  }

  /** A host named `constructor` is never counted. */
  lemma InheritedHostIgnored(stats: seq<Entry>, now: int)
    ensures RecordVisit(stats, Some("constructor"), now) == stats
  {
  }
}
