/** Values and string operations of JavaScript that the extension's scripts rely on. */
module Common {

  /** `Some(v)` for a present value, `None` for an absent one (`undefined`, a missing key). */
  datatype Option<T> = None | Some(value: T) {
    /** `x || d` for an optional value: the value when present, else the default. */
    function GetOr(default: T): T {
      if Some? then value else default
    }
  }

  function Max(a: int, b: int): int {
    if a < b then b else a
  }

  function Min(a: int, b: int): int {
    if a < b then a else b
  }

  // ---------------------------------------------------------------------------
  // Substrings

  /** `t` occurs in `s` starting at index `i`. */
  predicate OccursAt(s: string, t: string, i: int) {
    0 <= i && i + |t| <= |s| && s[i..i + |t|] == t
  }

  /** JavaScript `s.includes(t)`. */
  predicate Includes(s: string, t: string) {
    exists i :: 0 <= i <= |s| && OccursAt(s, t, i)
  }

  /** JavaScript `s.startsWith(p)`. */
  predicate StartsWith(s: string, p: string) {
    OccursAt(s, p, 0)
  }

  /** The first index at or after `i` where `t` occurs in `s`, if any. */
  function FindFrom(s: string, t: string, i: nat): (r: Option<nat>)
    requires i <= |s|
    ensures r.Some? ==> i <= r.value && OccursAt(s, t, r.value)
    ensures r.Some? ==> forall j :: i <= j < r.value ==> !OccursAt(s, t, j)
    ensures r.None? ==> forall j :: i <= j ==> !OccursAt(s, t, j)
    decreases |s| - i
  {
    if i + |t| > |s| then None
    else if s[i..i + |t|] == t then Some(i)
    else if i == |s| then None
    else FindFrom(s, t, i + 1)
  }

  /** JavaScript `s.indexOf(t)` for strings, as an option. */
  function FindFirst(s: string, t: string): (r: Option<nat>)
    ensures r.Some? <==> Includes(s, t)
    ensures r.Some? ==> OccursAt(s, t, r.value) && forall j :: 0 <= j < r.value ==> !OccursAt(s, t, j)
  {
    FindFrom(s, t, 0)
  }

  /** JavaScript `s.replace(t, u)` with a string pattern: only the FIRST occurrence is replaced. */
  function ReplaceFirst(s: string, t: string, u: string): (r: string)
    ensures !Includes(s, t) ==> r == s
  {
    match FindFirst(s, t)
    case None => s
    case Some(i) => s[..i] + u + s[i + |t|..]
  }

  /** JavaScript `s.replace(/^p/, '')`: drops `p` when `s` starts with it. */
  function DropPrefix(s: string, p: string): (r: string)
    ensures StartsWith(s, p) ==> s == p + r
    ensures !StartsWith(s, p) ==> r == s
  {
    if StartsWith(s, p) then s[|p|..] else s
  }

  /**
   * The property names every plain JavaScript object inherits from `Object.prototype`:
   * `obj[k]` is truthy for these keys even on an empty object `{}`.
   */
  const InheritedNames: set<string> := {
    "constructor", "__defineGetter__", "__defineSetter__", "hasOwnProperty",
    "__lookupGetter__", "__lookupSetter__", "isPrototypeOf", "propertyIsEnumerable",
    "toString", "valueOf", "__proto__", "toLocaleString"}

  /**
   * A browser tab as the scripts see it: `url` is absent when the extension may not read it, and
   * `hostname` is `new URL(url).hostname`, absent when the URL does not parse.
   */
  datatype Tab = Tab(id: int, url: Option<string>, hostname: Option<string>, pinned: bool)

  // ---------------------------------------------------------------------------
  // Arrays as sequences

  /** JavaScript `a.indexOf(x)`: the first index holding `x`, or -1. */
  function IndexOf<T(==)>(a: seq<T>, x: T): (r: int)
    ensures -1 <= r < |a|
    ensures r == -1 <==> x !in a
    ensures 0 <= r ==> a[r] == x && x !in a[..r]
  {
    if |a| == 0 then -1
    else if a[0] == x then 0
    else
      var k := IndexOf(a[1..], x);
      assert a[1..][..Max(k, 0)] == a[1..Max(k, 0) + 1];
      if k == -1 then -1 else k + 1
  }

  /** JavaScript `a.splice(i, 1)` on the array `a`: the array without its element at `i`. */
  function RemoveAt<T>(a: seq<T>, i: nat): (r: seq<T>)
    requires i < |a|
    ensures |r| == |a| - 1
    ensures forall j :: 0 <= j < i ==> r[j] == a[j]
    ensures forall j :: i <= j < |r| ==> r[j] == a[j + 1]
  {
    a[..i] + a[i + 1..]
  }

  // ---------------------------------------------------------------------------
  // Whitespace, as JavaScript's `trim` and the regular expression `\s` see it

  /** The WhiteSpace and LineTerminator code points of ECMAScript. */
  predicate IsSpace(c: char) {
    c == ' ' || c == '\t' || c == '\n' || c == '\r' || c == '\U{000B}' || c == '\U{000C}'
    || c == '\U{00A0}' || c == '\U{1680}' || ('\U{2000}' <= c <= '\U{200A}')
    || c == '\U{2028}' || c == '\U{2029}' || c == '\U{202F}' || c == '\U{205F}'
    || c == '\U{3000}' || c == '\U{FEFF}'
  }

  function TrimStart(s: string): (r: string)
    ensures |r| <= |s| && r == s[|s| - |r|..]
    ensures r == [] || !IsSpace(r[0])
    ensures forall j :: 0 <= j < |s| - |r| ==> IsSpace(s[j])
  {
    if |s| > 0 && IsSpace(s[0]) then TrimStart(s[1..]) else s
  }

  function TrimEnd(s: string): (r: string)
    ensures |r| <= |s| && r == s[..|r|]
    ensures r == [] || !IsSpace(r[|r| - 1])
    ensures forall j :: |r| <= j < |s| ==> IsSpace(s[j])
  {
    if |s| > 0 && IsSpace(s[|s| - 1]) then TrimEnd(s[..|s| - 1]) else s
  }

  /** JavaScript `s.trim()`. */
  function Trim(s: string): (r: string)
    ensures r == [] || (!IsSpace(r[0]) && !IsSpace(r[|r| - 1]))
  {
    TrimEnd(TrimStart(s))
  }

  // ---------------------------------------------------------------------------
  // 32-bit integers

  const TwoTo31: int := 0x8000_0000
  const TwoTo32: int := 0x1_0000_0000

  predicate IsInt32(x: int) {
    -TwoTo31 <= x < TwoTo31
  }

  /** ECMAScript ToInt32: the value of the low 32 bits of `x`, read as a signed integer. */
  function Int32(x: int): (r: int)
    ensures IsInt32(r)
    ensures (x - r) % TwoTo32 == 0
    ensures IsInt32(x) ==> r == x
  {
    (x + TwoTo31) % TwoTo32 - TwoTo31
  }
}
