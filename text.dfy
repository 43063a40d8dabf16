/** The string operations the downloader borrows from `java.lang` and from
    Apache Commons Lang `StringUtils`, specialised to the arguments it passes. */
module Text {
  import opened Optional

  /** `StringUtils.isEmpty`: null or of length zero; nothing is trimmed. */
  predicate IsEmpty(s: Option<string>) {
    s.None? || s.value == ""
  }

  /** `String.lastIndexOf`: the position of the last `c` in `s`, or -1. */
  function LastIndexOf(s: string, c: char): (r: int)
    ensures -1 <= r < |s|
    ensures 0 <= r ==> s[r] == c
    ensures forall j :: r < j < |s| ==> s[j] != c
  {
    if s == [] then -1
    else if s[|s| - 1] == c then |s| - 1
    else
      var init := s[..|s| - 1];
      var r := LastIndexOf(init, c);
      assert forall j :: r < j < |init| ==> s[j] == init[j];
      r
  }

  /** `StringUtils.substringAfterLast(s, sep)` for a one-character separator:
      the text after the last `sep`, or "" when `s` holds no `sep`. */
  function SubstringAfterLast(s: string, sep: char): (r: string)
    ensures sep !in r
    ensures sep !in s ==> r == ""
    ensures sep in s ==> |r| < |s| && s[|s| - |r| - 1] == sep && r == s[|s| - |r|..]
  {
    var pos := LastIndexOf(s, sep);
    if pos < 0 then "" else s[pos + 1..]
  }

  /** `Character.toLowerCase` restricted to the ASCII letters. */
  function LowerAscii(c: char): char {
    if 'A' <= c <= 'Z' then (c as int + 32) as char else c
  }

  /** `String.toLowerCase`, ASCII letters only. */
  function ToLower(s: string): (r: string)
    ensures |r| == |s|
    ensures forall i :: 0 <= i < |s| ==> r[i] == LowerAscii(s[i])
  {
    seq(|s|, i requires 0 <= i < |s| => LowerAscii(s[i]))
  }

  function DigitChar(d: nat): char
    requires d < 10
  {
    ('0' as int + d) as char
  }

  /** Decimal text of a non-negative int, as `Integer.toString` writes it. */
  function NatToString(n: nat): (r: string)
    ensures |r| >= 1
    ensures n < 10 <==> |r| == 1
    ensures forall i :: 0 <= i < |r| ==> '0' <= r[i] <= '9'
  {
    if n < 10 then [DigitChar(n)] else NatToString(n / 10) + [DigitChar(n % 10)]
  }

  /** `Integer.toString` (and `%s` of an int): a minus sign before negative values. */
  function IntToString(i: int): (r: string)
    ensures |r| >= 1
    ensures r[0] == '-' <==> i < 0
  {
    if i < 0 then "-" + NatToString(-i) else NatToString(i)
  }

  /** Different numbers print differently. */
  lemma {:induction false} NatToStringInjective(a: nat, b: nat)
    requires NatToString(a) == NatToString(b)
    ensures a == b
  {
    if a >= 10 && b >= 10 {
      var s := NatToString(a);
      assert s == NatToString(a / 10) + [DigitChar(a % 10)];
      assert s == NatToString(b / 10) + [DigitChar(b % 10)];
      assert NatToString(a / 10) == s[..|s| - 1] == NatToString(b / 10);
      assert DigitChar(a % 10) == s[|s| - 1] == DigitChar(b % 10);
      NatToStringInjective(a / 10, b / 10);
    } else if a < 10 && b < 10 {
      assert DigitChar(a) == NatToString(a)[0] == DigitChar(b);
    }
  }

  /** What follows the last separator of `s + [sep] + t` is `t`, when `t` has none. */
  lemma SubstringAfterLastOfJoin(s: string, sep: char, t: string)
    requires sep !in t
    ensures SubstringAfterLast(s + [sep] + t, sep) == t
  {
    var u := s + [sep] + t;
    var r := SubstringAfterLast(u, sep);
    assert u[|s|] == sep;
    assert forall k :: |s| < k < |u| ==> u[k] == t[k - |s| - 1];
    assert |r| == |t|;
    assert r == u[|s| + 1..] == t;
  }
}
