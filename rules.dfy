/**
 * Dynamic blocking rules: how background.js and popup.js derive them from the blocked-site
 * list, and how the browser applies an update to the live dynamic rule set.
 */
module Rules {
  import opened Common

  /**
   * A dynamic redirect rule, by its id and its `urlFilter`. Every rule the extension adds has
   * priority 1, redirects to blocked.html and matches only `main_frame` requests.
   */
  datatype Rule = Rule(id: int, urlFilter: string)

  /** The live dynamic rule set: rule id to `urlFilter`. */
  type RuleSet = map<int, string>

  /** The subdomain pattern: the site and every subdomain. */
  function SubdomainFilter(site: string): string {
    "*://*." + site + "/*"
  }

  /** The exact pattern: the bare site only. */
  function ExactFilter(site: string): string {
    "*://" + site + "/*"
  }

  /** The sites the static ruleset `focus_mode_rules` already blocks (background.js). */
  const StaticSites: seq<string> := [
    "youtube.com", "facebook.com", "twitter.com", "instagram.com",
    "reddit.com", "netflix.com", "tiktok.com", "twitch.tv",
    "discord.com", "whatsapp.com"]

  /** `DEFAULT_BLOCKED_SITES` of background.js, used when storage holds no `blockedSites`. */
  const DefaultBlockedSites: seq<string> := [
    "youtube.com", "facebook.com", "twitter.com", "instagram.com", "reddit.com",
    "netflix.com", "tiktok.com", "twitch.tv", "discord.com", "whatsapp.com",
    "telegram.org", "snapchat.com", "pinterest.com", "linkedin.com"]

  /** The first reserved id of background.js's dynamic rules. */
  const FirstDynamicId: int := 1000

  // ---------------------------------------------------------------------------
  // The browser's rule update

  /** No two rules of the batch share an id. */
  predicate DistinctIds(rules: seq<Rule>) {
    forall i, j :: 0 <= i < j < |rules| ==> rules[i].id != rules[j].id
  }

  /** The batch as an id-to-filter map. */
  function AsMap(rules: seq<Rule>): (m: RuleSet)
    ensures forall id :: id in m <==> exists k :: 0 <= k < |rules| && rules[k].id == id
    ensures DistinctIds(rules) ==> forall k :: 0 <= k < |rules| ==> rules[k].id in m && m[rules[k].id] == rules[k].urlFilter
  {
    if rules == [] then map[]
    else
      var m := AsMap(rules[1..]);
      assert forall k :: 1 <= k < |rules| ==> rules[k] == rules[1..][k - 1];
      m[rules[0].id := rules[0].urlFilter]
  }

  /**
   * `declarativeNetRequest.updateDynamicRules({removeRuleIds, addRules})`: the removals are
   * applied first; the whole call is rejected, changing nothing, when an added id is already
   * live or appears twice in the batch.
   */
  function UpdateDynamicRules(live: RuleSet, removeIds: set<int>, add: seq<Rule>): (r: Option<RuleSet>)
    ensures r.Some? <==> DistinctIds(add) && forall k :: 0 <= k < |add| ==> add[k].id !in live - removeIds
    ensures r.Some? ==> r.value.Keys == (live.Keys - removeIds) + AsMap(add).Keys
    ensures r.Some? ==> forall id :: id in live && id !in removeIds ==> r.value[id] == live[id]
    ensures r.Some? ==> forall k :: 0 <= k < |add| ==> r.value[add[k].id] == add[k].urlFilter
  {
    var kept := live - removeIds;
    if DistinctIds(add) && forall k :: 0 <= k < |add| ==> add[k].id !in kept then Some(kept + AsMap(add))
    else None
  }

  /** A batch numbered consecutively from `lo` holds exactly the ids `lo` to `lo + |rules| - 1`. */
  lemma AsMapConsecutive(rules: seq<Rule>, lo: int)
    requires forall k :: 0 <= k < |rules| ==> rules[k].id == lo + k
    ensures forall id :: id in AsMap(rules) <==> lo <= id < lo + |rules|
  {
    forall id | lo <= id < lo + |rules|
      ensures id in AsMap(rules)
    {
      assert rules[id - lo].id == id;
    }
  }

  /** With no live rules, a batch with distinct ids is accepted and becomes the live set. */
  lemma FreshBatchAccepted(add: seq<Rule>)
    requires DistinctIds(add)
    ensures UpdateDynamicRules(map[], {}, add) == Some(AsMap(add))
  {
    var none: RuleSet := map[];
    assert none - {} == none;
    assert none + AsMap(add) == AsMap(add);
  }

  /** A batch that only removes is never rejected: it leaves exactly the rules not named. */
  lemma RemovalAccepted(live: RuleSet, removeIds: set<int>)
    ensures UpdateDynamicRules(live, removeIds, []) == Some(live - removeIds)
  {
    assert DistinctIds([]);
    assert AsMap([]) == map[];
    assert (live - removeIds) + map[] == live - removeIds;
  }

  // ---------------------------------------------------------------------------
  // background.js: enableSiteBlocking, addToFocusBlacklist, removeFromFocusBlacklist

  /** The rules for one kept site: the subdomain rule, and the bare rule unless it starts with "www.". */
  function SiteRules(site: string, id: int): seq<Rule> {
    if StartsWith(site, "www.") then [Rule(id, SubdomainFilter(site))]
    else [Rule(id, SubdomainFilter(site)), Rule(id + 1, ExactFilter(site))]
  }

  /** The rule list `enableSiteBlocking` pushes for `sites`, skipping those in `statics` (its `staticSites`), numbering from `nextId`. */
  function BackgroundRules(sites: seq<string>, statics: seq<string>, nextId: int): seq<Rule>
    decreases |sites|
  {
    if sites == [] then []
    else if sites[0] in statics then BackgroundRules(sites[1..], statics, nextId)
    else
      var head := SiteRules(sites[0], nextId);
      head + BackgroundRules(sites[1..], statics, nextId + |head|)
  }

  /** The loop step: the rules of `sites[..i]` followed by those of `sites[i..]` go on being those of `sites` with one more site consumed. */
  lemma BackgroundRulesExtend(sites: seq<string>, statics: seq<string>, i: nat, nextId: int, done: seq<Rule>, whole: seq<Rule>)
    requires i < |sites|
    requires done + BackgroundRules(sites[i..], statics, nextId) == whole
    ensures sites[i] in statics ==> done + BackgroundRules(sites[i + 1..], statics, nextId) == whole
    ensures sites[i] !in statics ==>
      (done + SiteRules(sites[i], nextId)) + BackgroundRules(sites[i + 1..], statics, nextId + |SiteRules(sites[i], nextId)|) == whole
  {
    assert sites[i..][0] == sites[i] && sites[i..][1..] == sites[i + 1..];
    BackgroundRulesUnfold(sites[i..], statics, nextId);
    if sites[i] !in statics {
      var head := SiteRules(sites[i], nextId);
      var rest := BackgroundRules(sites[i + 1..], statics, nextId + |head|);
      RulesAssociative(done, head, rest);
    }
  }

  lemma RulesAssociative(a: seq<Rule>, b: seq<Rule>, c: seq<Rule>)
    ensures (a + b) + c == a + (b + c)
  {
  }

  /** The loop of `enableSiteBlocking` that fills `dynamicRules` with `ruleId++`. */
  method BuildBackgroundRules(sites: seq<string>, statics: seq<string>) returns (dynamicRules: seq<Rule>)
    ensures dynamicRules == BackgroundRules(sites, statics, FirstDynamicId)
  {
    dynamicRules := [];
    var ruleId := FirstDynamicId;
    var i := 0;
    while i < |sites|
      invariant 0 <= i <= |sites|
      invariant ruleId == FirstDynamicId + |dynamicRules|
      invariant dynamicRules + BackgroundRules(sites[i..], statics, ruleId) == BackgroundRules(sites, statics, FirstDynamicId)
    {
      var site := sites[i];
      BackgroundRulesExtend(sites, statics, i, ruleId, dynamicRules, BackgroundRules(sites, statics, FirstDynamicId));
      if site in statics {
        i := i + 1;
        continue;
      }
      ghost var before, startId := dynamicRules, ruleId;
      dynamicRules := dynamicRules + [Rule(ruleId, SubdomainFilter(site))];
      ruleId := ruleId + 1;
      if !StartsWith(site, "www.") {
        dynamicRules := dynamicRules + [Rule(ruleId, ExactFilter(site))];
        ruleId := ruleId + 1;
      }
      assert dynamicRules == before + SiteRules(site, startId);
      i := i + 1;
    }
    assert sites[i..] == [];
  }

  /** The two rules `addToFocusBlacklist` adds for `domain`, with ids `Date.now()` and `Date.now() + 1`. */
  function BlacklistRules(domain: string, timestamp: int): (r: seq<Rule>)
    ensures DistinctIds(r)
  {
    [Rule(timestamp, SubdomainFilter(domain)), Rule(timestamp + 1, ExactFilter(domain))]
  }

  /** The ids of the live rules whose `urlFilter` contains `domain`. */
  function MatchingIds(live: RuleSet, domain: string): (ids: set<int>)
    ensures ids <= live.Keys
    ensures forall id :: id in live ==> (id in ids <==> Includes(live[id], domain))
  {
    set id | id in live && Includes(live[id], domain)
  }

  /** The live rules left after removing every rule whose `urlFilter` contains `domain`. */
  function RemoveMatching(live: RuleSet, domain: string): (r: RuleSet)
    ensures r.Keys <= live.Keys
    ensures forall id :: id in live ==> (id in r <==> !Includes(live[id], domain))
    ensures forall id :: id in r ==> r[id] == live[id]
  {
    live - MatchingIds(live, domain)
  }

  // ---------------------------------------------------------------------------
  // popup.js: enableSiteBlocking

  /** The rules popup.js pushes for `sites[i..]`: site `j` gets ids `2j+1` and `2j+2`. */
  function PopupRules(sites: seq<string>, i: nat): seq<Rule>
    requires i <= |sites|
    decreases |sites| - i
  {
    if i == |sites| then []
    else [Rule(2 * i + 1, SubdomainFilter(sites[i])), Rule(2 * i + 2, ExactFilter(sites[i]))] + PopupRules(sites, i + 1)
  }

  /** The `forEach` of popup.js's `enableSiteBlocking` that pushes two rules per site. */
  method BuildPopupRules(blockedSites: seq<string>) returns (rules: seq<Rule>)
    ensures rules == PopupRules(blockedSites, 0)
  {
    rules := [];
    var index := 0;
    while index < |blockedSites|
      invariant 0 <= index <= |blockedSites|
      invariant rules + PopupRules(blockedSites, index) == PopupRules(blockedSites, 0)
    {
      var site := blockedSites[index];
      ghost var pair := [Rule(index * 2 + 1, SubdomainFilter(site)), Rule(index * 2 + 2, ExactFilter(site))];
      assert PopupRules(blockedSites, index) == pair + PopupRules(blockedSites, index + 1);
      ghost var before := rules;
      rules := rules + [Rule(index * 2 + 1, SubdomainFilter(site))];
      rules := rules + [Rule(index * 2 + 2, ExactFilter(site))];
      assert rules == before + pair;
      index := index + 1;
    }
  }

  // ---------------------------------------------------------------------------
  // Properties

  /** Background rule ids run consecutively from `nextId`, so they are pairwise distinct. */
  lemma {:induction false} BackgroundRulesConsecutive(sites: seq<string>, statics: seq<string>, nextId: int)
    ensures forall k :: 0 <= k < |BackgroundRules(sites, statics, nextId)| ==> BackgroundRules(sites, statics, nextId)[k].id == nextId + k
    ensures DistinctIds(BackgroundRules(sites, statics, nextId))
    decreases |sites|
  {
    if sites != [] {
      var r := BackgroundRules(sites, statics, nextId);
      if sites[0] in statics {
        BackgroundRulesConsecutive(sites[1..], statics, nextId);
      } else {
        var head := SiteRules(sites[0], nextId);
        var rest := BackgroundRules(sites[1..], statics, nextId + |head|);
        BackgroundRulesConsecutive(sites[1..], statics, nextId + |head|);
        assert r == head + rest;
        assert forall k :: |head| <= k < |r| ==> r[k] == rest[k - |head|];
      }
    }
  }

  /** Every background rule belongs to a non-static site: its subdomain filter, or its bare filter when it lacks "www.". */
  lemma {:induction false} BackgroundRulesSound(sites: seq<string>, statics: seq<string>, nextId: int, k: nat)
    requires k < |BackgroundRules(sites, statics, nextId)|
    ensures exists s :: (s in sites && s !in statics &&
      (BackgroundRules(sites, statics, nextId)[k].urlFilter == SubdomainFilter(s)
       || (!StartsWith(s, "www.") && BackgroundRules(sites, statics, nextId)[k].urlFilter == ExactFilter(s))))
    decreases |sites|
  {
    var r := BackgroundRules(sites, statics, nextId);
    if sites[0] in statics {
      BackgroundRulesSound(sites[1..], statics, nextId, k);
      var s :| s in sites[1..] && s !in statics &&
        (r[k].urlFilter == SubdomainFilter(s) || (!StartsWith(s, "www.") && r[k].urlFilter == ExactFilter(s)));
      assert s in sites;
    } else {
      var head := SiteRules(sites[0], nextId);
      if k < |head| {
        assert r[k] == head[k];
        assert sites[0] in sites;
      } else {
        BackgroundRulesSound(sites[1..], statics, nextId + |head|, k - |head|);
        var s :| s in sites[1..] && s !in statics &&
          (BackgroundRules(sites[1..], statics, nextId + |head|)[k - |head|].urlFilter == SubdomainFilter(s)
           || (!StartsWith(s, "www.") && BackgroundRules(sites[1..], statics, nextId + |head|)[k - |head|].urlFilter == ExactFilter(s)));
        assert r[k] == BackgroundRules(sites[1..], statics, nextId + |head|)[k - |head|];
        assert s in sites;
      }
    }
  }

  /** Some rule of the batch has `filter` as its `urlFilter`. */
  predicate HasFilter(rules: seq<Rule>, filter: string) {
    exists k :: 0 <= k < |rules| && rules[k].urlFilter == filter
  }

  lemma HasFilterAppend(a: seq<Rule>, b: seq<Rule>, filter: string)
    ensures HasFilter(a, filter) || HasFilter(b, filter) ==> HasFilter(a + b, filter)
  {
    if HasFilter(a, filter) {
      var k :| 0 <= k < |a| && a[k].urlFilter == filter;
      assert (a + b)[k] == a[k];
    } else if HasFilter(b, filter) {
      var k :| 0 <= k < |b| && b[k].urlFilter == filter;
      assert (a + b)[|a| + k] == b[k];
    }
  }

  /** The rules of the first site, then those of the others. */
  lemma BackgroundRulesUnfold(sites: seq<string>, statics: seq<string>, nextId: int)
    requires sites != []
    ensures var head := if sites[0] in statics then [] else SiteRules(sites[0], nextId);
      BackgroundRules(sites, statics, nextId) == head + BackgroundRules(sites[1..], statics, nextId + |head|)
  {
  }

  /** Every non-static site gets its subdomain rule, and its bare rule unless it starts with "www.". */
  lemma {:induction false} BackgroundRulesComplete(sites: seq<string>, statics: seq<string>, nextId: int, s: string)
    requires s in sites && s !in statics
    ensures HasFilter(BackgroundRules(sites, statics, nextId), SubdomainFilter(s))
    ensures !StartsWith(s, "www.") ==> HasFilter(BackgroundRules(sites, statics, nextId), ExactFilter(s))
    decreases |sites|
  {
    var head := if sites[0] in statics then [] else SiteRules(sites[0], nextId);
    var rest := BackgroundRules(sites[1..], statics, nextId + |head|);
    var r := BackgroundRules(sites, statics, nextId);
    assert r == head + rest by {
      BackgroundRulesUnfold(sites, statics, nextId);
    }
    var sub, exact := SubdomainFilter(s), ExactFilter(s);
    if sites[0] == s {
      assert head[0].urlFilter == sub;
      HasFilterAppend(head, rest, sub);
      if !StartsWith(s, "www.") {
        assert head[1].urlFilter == exact;
        HasFilterAppend(head, rest, exact);
      }
    } else {
      assert s in sites[1..];
      BackgroundRulesComplete(sites[1..], statics, nextId + |head|, s);
      HasFilterAppend(head, rest, sub);
      if !StartsWith(s, "www.") {
        HasFilterAppend(head, rest, exact);
      }
    }
  }

  /** Popup rule ids: the rule at position `k` of `PopupRules(sites, i)` has id `2i + k + 1`, and the site's two filters alternate. */
  lemma {:induction false} PopupRulesShape(sites: seq<string>, i: nat)
    requires i <= |sites|
    ensures |PopupRules(sites, i)| == 2 * (|sites| - i)
    ensures forall k :: 0 <= k < |PopupRules(sites, i)| ==> PopupRules(sites, i)[k].id == 2 * i + k + 1
    ensures forall j :: i <= j < |sites| ==>
      PopupRules(sites, i)[2 * (j - i)] == Rule(2 * j + 1, SubdomainFilter(sites[j]))
      && PopupRules(sites, i)[2 * (j - i) + 1] == Rule(2 * j + 2, ExactFilter(sites[j]))
    ensures DistinctIds(PopupRules(sites, i))
    decreases |sites| - i
  {
    if i < |sites| {
      PopupRulesShape(sites, i + 1);
      var r := PopupRules(sites, i);
      var tail := PopupRules(sites, i + 1);
      assert forall k :: 2 <= k < |r| ==> r[k] == tail[k - 2];
    }
  }

  /**
   * Adding a domain's blacklist rules under free ids is accepted, and removing the domain's
   * rules afterwards leaves what removing them before would have left: the two new rules go,
   * every other rule is as it was.
   */
  lemma BlacklistRulesRoundTrip(live: RuleSet, domain: string, timestamp: int)
    requires timestamp !in live && timestamp + 1 !in live
    ensures UpdateDynamicRules(live, {}, BlacklistRules(domain, timestamp)).Some?
    ensures var added := UpdateDynamicRules(live, {}, BlacklistRules(domain, timestamp)).value;
      && timestamp in added && added[timestamp] == SubdomainFilter(domain)
      && timestamp + 1 in added && added[timestamp + 1] == ExactFilter(domain)
      && RemoveMatching(added, domain) == RemoveMatching(live, domain)
  {
    var rules := BlacklistRules(domain, timestamp);
    assert rules[0].id == timestamp && rules[1].id == timestamp + 1;
    var added := UpdateDynamicRules(live, {}, rules).value;
    assert added.Keys == live.Keys + {timestamp, timestamp + 1};
    assert OccursAt(added[timestamp], domain, 6);
    assert OccursAt(added[timestamp + 1], domain, 4);
    assert RemoveMatching(added, domain).Keys == RemoveMatching(live, domain).Keys;
  }

  /** Removal by substring also drops the rules of any other site whose name contains the domain. */
  lemma RemovalBySubstringOverreaches()
    ensures RemoveMatching(map[1 := ExactFilter("m.youtube.com")], "youtube.com") == map[]
  {
    assert OccursAt(ExactFilter("m.youtube.com"), "youtube.com", 6);
  }
}
