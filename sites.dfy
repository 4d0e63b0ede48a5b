/** The blocked-site list: how entries are cleaned up, added and removed. */
module Sites {
  import opened Common

  /** Whether `s` contains the character `c`. */
  predicate HasChar(s: string, c: char) {
    exists i :: 0 <= i < |s| && s[i] == c
  }

  /** JavaScript `s.split('/')[0]`: the text before the first '/', or all of `s`. */
  function BeforeSlash(s: string): (r: string)
    ensures |r| <= |s| && r == s[..|r|]
    ensures !HasChar(r, '/')
    ensures |r| < |s| ==> s[|r|] == '/'
  {
    if s == [] || s[0] == '/' then []
    else
      var rest := BeforeSlash(s[1..]);
      assert [s[0]] + rest == s[..|rest| + 1];
      [s[0]] + rest
  }

  /** The text before the first '/' is exactly the prefix up to that '/'. */
  lemma {:induction false} BeforeSlashIsPrefix(s: string, i: nat)
    requires i <= |s| && (forall k :: 0 <= k < i ==> s[k] != '/') && (i == |s| || s[i] == '/')
    ensures BeforeSlash(s) == s[..i]
  {
    if i > 0 {
      BeforeSlashIsPrefix(s[1..], i - 1);
      assert s[..i] == [s[0]] + s[1..][..i - 1];
    }
  }

  /** popup.js's `addBlockedSite` cleanup: drop /^https?:\/\//, then /^www\./, then keep what precedes the first '/'. */
  function Normalise(site: string): (r: string)
    ensures !HasChar(r, '/')
  {
    var noScheme := if StartsWith(site, "http://") then site[7..]
                    else if StartsWith(site, "https://") then site[8..]
                    else site;
    BeforeSlash(DropPrefix(noScheme, "www."))
  }

  /**
   * The domain `addToFocusBlacklist` records for a page: its host name with the first "www."
   * removed, wherever in the name it stands.
   */
  function BlacklistDomain(hostname: string): (r: string)
    ensures !Includes(hostname, "www.") ==> r == hostname
    ensures Includes(hostname, "www.") ==> |r| == |hostname| - 4
  {
    ReplaceFirst(hostname, "www.", "")
  }

  /** `if (!list.includes(x)) list.push(x)`. */
  function AddIfAbsent(list: seq<string>, x: string): (r: seq<string>)
    ensures x in r
    ensures x in list ==> r == list
    ensures x !in list ==> r == list + [x] && multiset(r) == multiset(list) + multiset{x}
  {
    if x in list then list else list + [x]
  }

  /** `i = list.indexOf(x); if (i > -1) list.splice(i, 1)`. */
  function RemoveFirst(list: seq<string>, x: string): (r: seq<string>)
    ensures x !in list ==> r == list
    ensures x in list ==> |r| == |list| - 1 && multiset(r) == multiset(list) - multiset{x}
    ensures x in list ==> var i := IndexOf(list, x); r == list[..i] + list[i + 1..]
  {
    var i := IndexOf(list, x);
    if i > -1 then
      assert list == list[..i] + [x] + list[i + 1..];
      RemoveAt(list, i)
    else list
  }

  // ---------------------------------------------------------------------------
  // Properties

  /** Adding twice is adding once. */
  lemma AddIdempotent(list: seq<string>, x: string)
    ensures AddIfAbsent(AddIfAbsent(list, x), x) == AddIfAbsent(list, x)
  {
  }

  /** Removing a site just added restores the list it was added to. */
  lemma {:induction false} RemoveUndoesAdd(list: seq<string>, x: string)
    requires x !in list
    ensures RemoveFirst(AddIfAbsent(list, x), x) == list
  {
    var added := list + [x];
    var i := IndexOf(added, x);
    assert added[|list|] == x;
    assert i == |list| by {
      assert x !in added[..|list|] by { assert added[..|list|] == list; }
    }
    assert added[..i] == list;
  }

  /** Removal drops only the first copy: a duplicated entry is still listed once removed. */
  lemma RemoveKeepsLaterCopies(list: seq<string>, x: string)
    requires multiset(list)[x] >= 2
    ensures x in RemoveFirst(list, x)
  {
    assert x in multiset(list);
    assert multiset(RemoveFirst(list, x))[x] >= 1;
  }

  /** Removal keeps the other entries in their order: the result is the list minus one position. */
  lemma RemoveKeepsOrder(list: seq<string>, x: string)
    requires x in list
    ensures exists i :: 0 <= i < |list| && list[i] == x && RemoveFirst(list, x) == list[..i] + list[i + 1..]
  {
    var i := IndexOf(list, x);
    assert list[i] == x;
  }

  /** A pasted address becomes its bare base name. */
  lemma NormaliseUrl()
    ensures Normalise("https://www.a.com/x") == "a.com"
  {
    var s := "https://www.a.com/x";
    assert StartsWith(s, "https://");
    assert !StartsWith(s, "http://") by { assert s[4] != "http://"[4]; }
    var a := s[8..];
    assert a == "www.a.com/x";
    assert StartsWith(a, "www.");
    var b := a[4..];
    assert b == "a.com/x";
    BeforeSlashIsPrefix(b, 5);
    assert b[..5] == "a.com";
  }

  /** Only one leading "www." goes, so cleaning up is not idempotent. */
  lemma NormaliseNotIdempotent()
    ensures Normalise("www.www.a.b") == "www.a.b"
    ensures Normalise(Normalise("www.www.a.b")) == "a.b"
  {
    assert StartsWith("www.www.a.b", "www.");
    assert !StartsWith("www.www.a.b", "http://") by { assert "www.www.a.b"[0] != 'h'; }
    assert !StartsWith("www.www.a.b", "https://") by { assert "www.www.a.b"[0] != 'h'; }
    assert StartsWith("www.a.b", "www.");
    assert !StartsWith("www.a.b", "http://") by { assert "www.a.b"[0] != 'h'; }
    assert !StartsWith("www.a.b", "https://") by { assert "www.a.b"[0] != 'h'; }
    assert !StartsWith("a.b", "www.") by { assert "a.b"[0] != 'w'; }
    assert BeforeSlash("www.a.b") == "www.a.b";
    assert BeforeSlash("a.b") == "a.b";
  }

  /** A bare scheme cleans up to the empty site, which the list then accepts. */
  lemma NormaliseSchemeOnly()
    ensures Normalise("https://") == ""
  {
    assert StartsWith("https://", "https://");
    assert !StartsWith("https://", "http://") by { assert "https://"[4] != "http://"[4]; }
  }

  /** The blacklist domain drops a "www." from the middle of a name, not only its start. */
  lemma BlacklistDomainInner()
    ensures BlacklistDomain("mywww.site.com") == "mysite.com"
  {
    var h := "mywww.site.com";
    assert OccursAt(h, "www.", 2);
    assert !OccursAt(h, "www.", 0) by { assert h[0] != 'w'; }
    assert !OccursAt(h, "www.", 1) by { assert h[1] != 'w'; }
    assert FindFirst(h, "www.") == Some(2);
  }
}
