/**
 * The popup's timer text (`updateTimerDisplay` of popup.js): whole minutes and the remaining
 * seconds of `timeLeft`, each as JavaScript prints an integer, padded to two characters with
 * '0', joined by ':'.
 */
module TimerDisplay {
  import opened Common

  /** The decimal digit character of `d`. */
  function Digit(d: nat): (c: char)
    requires d < 10
    ensures '0' <= c <= '9'
  {
    (('0' as int) + d) as char
  }

  /** The value of a decimal digit character. */
  function DigitValue(c: char): (d: nat)
    requires '0' <= c <= '9'
    ensures d < 10 && Digit(d) == c
  {
    (c as int) - ('0' as int)
  }

  predicate IsDigits(s: string) {
    forall i :: 0 <= i < |s| ==> '0' <= s[i] <= '9'
  }

  /** `n.toString()` for a non-negative integer: its decimal digits, without leading zeros. */
  function NatText(n: nat): (s: string)
    ensures 1 <= |s| && IsDigits(s)
    ensures n < 10 <==> |s| == 1
  {
    if n < 10 then [Digit(n)] else NatText(n / 10) + [Digit(n % 10)]
  }

  /** `i.toString()` for any integer: a '-' in front of the digits of a negative one. */
  function IntText(i: int): string {
    if i < 0 then "-" + NatText(-i) else NatText(i)
  }

  /** `s.padStart(2, '0')`. */
  function PadStart2(s: string): (r: string)
    ensures |s| >= 2 ==> r == s
    ensures |s| < 2 ==> |r| == 2 && r[2 - |s|..] == s
  {
    if |s| >= 2 then s else seq(2 - |s|, _ => '0') + s
  }

  /** JavaScript `a % b` for `b > 0`: the remainder takes the sign of `a`. */
  function JsRem(a: int, b: int): (r: int)
    requires b > 0
    ensures a >= 0 ==> r == a % b
    ensures a < 0 ==> -b < r <= 0 && r == -((-a) % b)
  {
    if a >= 0 then a % b else -((-a) % b)
  }

  /**
   * `updateTimerDisplay`'s text: `Math.floor(timeLeft / 60)` and `timeLeft % 60`, printed, padded
   * to two characters and joined by ':'.
   */
  function TimerText(timeLeft: int): (r: string)
    ensures |r| >= 5 && ':' in r
  {
    PadStart2(IntText(timeLeft / 60)) + ":" + PadStart2(IntText(JsRem(timeLeft, 60)))
  }

  // ---------------------------------------------------------------------------
  // Reading the text back

  /** The value of a string of decimal digits. */
  function DigitsValue(s: string): nat
    requires IsDigits(s)
  {
    if s == [] then 0 else DigitsValue(s[..|s| - 1]) * 10 + DigitValue(s[|s| - 1])
  }

  /** `minutes` and `seconds` as a number of seconds. */
  function Total(minutes: nat, seconds: nat): nat {
    minutes * 60 + seconds
  }

  /** The seconds a `M:SS` text stands for: digits, a ':', digits; `None` for any other text. */
  function ParseTimer(s: string): (r: Option<int>)
    ensures r.Some? ==> r.value >= 0
  {
    var i := IndexOf(s, ':');
    if i < 1 || i + 1 == |s| then None
    else if IsDigits(s[..i]) && IsDigits(s[i + 1..]) then Some(Total(DigitsValue(s[..i]), DigitsValue(s[i + 1..])))
    else None
  }

  // ---------------------------------------------------------------------------
  // Properties

  /** The digits of `n` read back as `n`. */
  lemma {:induction false} NatTextRoundTrip(n: nat)
    ensures DigitsValue(NatText(n)) == n
    decreases n
  {
    if n >= 10 {
      NatTextRoundTrip(n / 10);
      var s := NatText(n);
      assert s[..|s| - 1] == NatText(n / 10);
    }
  }

  /** Leading zeros do not change the value. */
  lemma {:induction false} LeadingZerosValue(k: nat, s: string)
    requires IsDigits(s)
    ensures IsDigits(seq(k, _ => '0') + s)
    ensures DigitsValue(seq(k, _ => '0') + s) == DigitsValue(s)
    decreases |s|
  {
    var z := seq(k, _ => '0');
    if s == [] {
      assert z + s == z;
      ZerosValue(k);
    } else {
      var t := z + s;
      assert t[..|t| - 1] == z + s[..|s| - 1];
      LeadingZerosValue(k, s[..|s| - 1]);
    }
  }

  /** A run of zeros is worth 0. */
  lemma {:induction false} ZerosValue(k: nat)
    ensures IsDigits(seq(k, _ => '0')) && DigitsValue(seq(k, _ => '0')) == 0
  {
    if k > 0 {
      assert seq(k, _ => '0')[..k - 1] == seq(k - 1, _ => '0');
      ZerosValue(k - 1);
    }
  }

  /** The padded digits of `n` hold no ':' and read back as `n`. */
  lemma PaddedRoundTrip(n: nat)
    ensures IsDigits(PadStart2(NatText(n))) && DigitsValue(PadStart2(NatText(n))) == n
  {
    NatTextRoundTrip(n);
    var s := NatText(n);
    if |s| < 2 {
      LeadingZerosValue(2 - |s|, s);
    }
  }

  /** Digits, a ':', digits read back as the first number times 60 plus the second. */
  lemma ParseJoined(ms: string, ss: string)
    requires 1 <= |ms| && IsDigits(ms) && 1 <= |ss| && IsDigits(ss)
    ensures ParseTimer(ms + ":" + ss) == Some(Total(DigitsValue(ms), DigitsValue(ss)))
  {
    var text := ms + ":" + ss;
    assert text[..|ms|] == ms && text[|ms| + 1..] == ss && text[|ms|] == ':';
    assert ':' !in ms;
    var k := IndexOf(text, ':');
    assert k == |ms| && |text| == |ms| + 1 + |ss|;
    assert text[..k] == ms && text[k + 1..] == ss;
  }

  /** `t` is its whole minutes times 60 plus its remaining seconds. */
  lemma MinutesSeconds(t: nat)
    ensures Total(t / 60, t % 60) == t
  {
  }

  /**
   * For any non-negative `timeLeft` the text is the padded minutes and the padded seconds
   * (two characters, below 60) around a ':', and it reads back as `timeLeft`.
   */
  lemma TimerTextRoundTrip(timeLeft: nat)
    ensures var m := PadStart2(NatText(timeLeft / 60));
      var s := PadStart2(NatText(timeLeft % 60));
      TimerText(timeLeft) == m + ":" + s && |s| == 2
    ensures ParseTimer(TimerText(timeLeft)) == Some(timeLeft)
  {
    var m, sec := timeLeft / 60, timeLeft % 60;
    assert JsRem(timeLeft, 60) == sec;
    var ms, ss := PadStart2(NatText(m)), PadStart2(NatText(sec));
    assert TimerText(timeLeft) == ms + ":" + ss;
    PaddedRoundTrip(m);
    PaddedRoundTrip(sec);
    TwoDigits(sec);
    ParseJoined(ms, ss);
    MinutesSeconds(timeLeft);
  }

  /** Below 100 minutes the text is exactly five characters `MM:SS`. */
  lemma TimerTextFiveChars(timeLeft: nat)
    requires timeLeft < 6000
    ensures |TimerText(timeLeft)| == 5 && TimerText(timeLeft)[2] == ':'
  {
    var m, sec := timeLeft / 60, timeLeft % 60;
    assert JsRem(timeLeft, 60) == sec;
    TwoDigits(m);
    TwoDigits(sec);
  }

  /** A number below 100 prints and pads to two characters. */
  lemma TwoDigits(n: nat)
    requires n < 100
    ensures |PadStart2(NatText(n))| == 2
  {
    if n >= 10 {
      assert n / 10 < 10;
      assert NatText(n) == NatText(n / 10) + [Digit(n % 10)];
    }
  }

  /** One second past zero the display reads "-1:-1": floor rounds the minutes down, the remainder keeps the sign. */
  lemma NegativeSecondText()
    ensures TimerText(-1) == "-1:-1"
  {
    assert -1 / 60 == -1;
    assert JsRem(-1, 60) == -1;
    assert IntText(-1) == "-1";
  }
}
