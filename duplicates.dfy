/**
 * Duplicate-tab selection of background.js (`closeDuplicateTabs`): the first tab of each url
 * stays, every later tab with the same url is closed. The url is used as a property name of
 * a plain object, so a missing url reads as the name "undefined", and a url that names an
 * inherited property reads as already seen.
 */
module DuplicateTabs {
  import opened Common

  /** The property name `urlMap[tab.url]` looks up. */
  function UrlKey(t: Tab): string {
    t.url.GetOr("undefined")
  }

  /** Tab `i` is closed: its url key was met at an earlier tab, or names an inherited property. */
  predicate IsDuplicate(tabs: seq<Tab>, i: nat)
    requires i < |tabs|
  {
    UrlKey(tabs[i]) in InheritedNames || exists j :: 0 <= j < i && UrlKey(tabs[j]) == UrlKey(tabs[i])
  }

  /** The tabs of `tabs[i..]` that are closed (`dup`) or that stay open (`!dup`), in order. */
  function Select(tabs: seq<Tab>, i: nat, dup: bool): seq<Tab>
    requires i <= |tabs|
    decreases |tabs| - i
  {
    if i == |tabs| then []
    else (if IsDuplicate(tabs, i) == dup then [tabs[i]] else []) + Select(tabs, i + 1, dup)
  }

  /** The own keys of `urlMap` after the first `i` tabs. */
  function SeenUrls(tabs: seq<Tab>, i: nat): set<string>
    requires i <= |tabs|
  {
    set j | 0 <= j < i && UrlKey(tabs[j]) !in InheritedNames :: UrlKey(tabs[j])
  }

  /** How many of the tabs have url key `key`. */
  function CountUrl(tabs: seq<Tab>, key: string): nat {
    if tabs == [] then 0 else (if UrlKey(tabs[0]) == key then 1 else 0) + CountUrl(tabs[1..], key)
  }

  /** Which tabs the `forEach` over the window's tabs collects in `duplicates`. */
  method CloseDuplicateTabs(tabs: seq<Tab>) returns (duplicates: seq<Tab>)
    ensures duplicates == Select(tabs, 0, true)
  {
    var urlMap: set<string> := {};
    duplicates := [];
    var i := 0;
    while i < |tabs|
      invariant 0 <= i <= |tabs|
      invariant urlMap == SeenUrls(tabs, i)
      invariant duplicates + Select(tabs, i, true) == Select(tabs, 0, true)
    {
      var tab := tabs[i];
      SeenStep(tabs, i);
      ghost var before := duplicates;
      if UrlKey(tab) in InheritedNames || UrlKey(tab) in urlMap {
        duplicates := duplicates + [tab];
      } else {
        urlMap := urlMap + {UrlKey(tab)};
      }
      assert before + Select(tabs, i, true) == duplicates + Select(tabs, i + 1, true);
      i := i + 1;
    }
  }

  // ---------------------------------------------------------------------------
  // Properties

  /** The object test `urlMap[tab.url]` decides exactly `IsDuplicate`, and one more tab extends the keys as the loop does. */
  lemma SeenStep(tabs: seq<Tab>, i: nat)
    requires i < |tabs|
    ensures IsDuplicate(tabs, i) <==> UrlKey(tabs[i]) in InheritedNames || UrlKey(tabs[i]) in SeenUrls(tabs, i)
    ensures SeenUrls(tabs, i + 1) == SeenUrls(tabs, i) + (if UrlKey(tabs[i]) in InheritedNames then {} else {UrlKey(tabs[i])})
  {
    var k := UrlKey(tabs[i]);
    if k !in InheritedNames && k in SeenUrls(tabs, i) {
      var j :| 0 <= j < i && UrlKey(tabs[j]) !in InheritedNames && UrlKey(tabs[j]) == k;
    }
    if k !in InheritedNames && (exists j :: 0 <= j < i && UrlKey(tabs[j]) == k) {
      var j :| 0 <= j < i && UrlKey(tabs[j]) == k;
      assert k in SeenUrls(tabs, i);
    }
  }

  /** Counting over a concatenation adds up. */
  lemma {:induction false} CountUrlAppend(a: seq<Tab>, b: seq<Tab>, key: string)
    ensures CountUrl(a + b, key) == CountUrl(a, key) + CountUrl(b, key)
  {
    if a == [] {
      assert a + b == b;
    } else {
      assert (a + b)[0] == a[0];
      assert (a + b)[1..] == a[1..] + b;
      CountUrlAppend(a[1..], b, key);
    }
  }

  /** Closed and kept tabs split the window's tabs: together they are exactly its tabs. */
  lemma {:induction false} SelectPartitions(tabs: seq<Tab>, i: nat)
    requires i <= |tabs|
    ensures multiset(Select(tabs, i, true)) + multiset(Select(tabs, i, false)) == multiset(tabs[i..])
    decreases |tabs| - i
  {
    if i < |tabs| {
      SelectPartitions(tabs, i + 1);
      assert tabs[i..] == [tabs[i]] + tabs[i + 1..];
    }
  }

  /**
   * Of the tabs from `i` on, a url key stays open exactly once when it is not inherited, was
   * not met before `i` and occurs from `i` on; otherwise it does not stay open at all.
   */
  lemma {:induction false} KeptCountFrom(tabs: seq<Tab>, i: nat, key: string)
    requires i <= |tabs|
    ensures CountUrl(Select(tabs, i, false), key)
      == if key !in InheritedNames && key !in SeenUrls(tabs, i) && (exists j :: i <= j < |tabs| && UrlKey(tabs[j]) == key) then 1 else 0
    decreases |tabs| - i
  {
    if i < |tabs| {
      SeenStep(tabs, i);
      KeptCountFrom(tabs, i + 1, key);
      var head := if IsDuplicate(tabs, i) then [] else [tabs[i]];
      CountUrlAppend(head, Select(tabs, i + 1, false), key);
      if UrlKey(tabs[i]) != key {
        assert (exists j :: i <= j < |tabs| && UrlKey(tabs[j]) == key) <==> (exists j :: i + 1 <= j < |tabs| && UrlKey(tabs[j]) == key);
      }
    }
  }

  /**
   * After closing, each url key of the window that is not an inherited property name is open
   * in exactly one tab, and no other key is open at all.
   */
  lemma KeptExactlyOncePerUrl(tabs: seq<Tab>, key: string)
    ensures CountUrl(Select(tabs, 0, false), key)
      == if key !in InheritedNames && (exists j :: 0 <= j < |tabs| && UrlKey(tabs[j]) == key) then 1 else 0
  {
    KeptCountFrom(tabs, 0, key);
    assert SeenUrls(tabs, 0) == {};
  }

  /** The first tab with a given url is the one kept: it is never closed. */
  lemma FirstTabKept(tabs: seq<Tab>, i: nat)
    requires i < |tabs| && UrlKey(tabs[i]) !in InheritedNames
    requires forall j :: 0 <= j < i ==> UrlKey(tabs[j]) != UrlKey(tabs[i])
    ensures !IsDuplicate(tabs, i)
  {
  }

  /** Tabs whose url cannot be read all share the key "undefined": only the first of them stays open. */
  lemma UnreadableUrlsCollapse(a: Tab, b: Tab)
    requires a.url.None? && b.url.None?
    ensures Select([a, b], 0, true) == [b]
    ensures Select([a, b], 0, false) == [a]
  {
    var tabs := [a, b];
    assert UrlKey(tabs[0]) == UrlKey(tabs[1]) == "undefined";
    assert IsDuplicate(tabs, 1);
    assert "undefined" !in InheritedNames;
    assert !IsDuplicate(tabs, 0);
    assert Select(tabs, 2, true) == [] && Select(tabs, 2, false) == [];
  }
}
