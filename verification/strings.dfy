/**
 * The Python `str` operations the controller relies on, over `seq<char>`:
 * prefix and substring tests, `find`, `strip`, `split`, `isdigit`, `int`,
 * decimal formatting, `upper` and the ordering `<` used by `sorted`.
 * Only ASCII whitespace, digits and letters are given their Python meaning.
 */
module Strings {

  /** `s.startswith(p)` */
  predicate StartsWith(s: string, p: string) {
    |p| <= |s| && s[..|p|] == p
  }

  /** `sub in s` */
  predicate Contains(s: string, sub: string)
    decreases |s|
  {
    StartsWith(s, sub) || (|s| > 0 && Contains(s[1..], sub))
  }

  /** An occurrence at a known index makes `sub in s` true. */
  lemma {:induction false} ContainsAt(s: string, sub: string, i: nat)
    requires i + |sub| <= |s| && s[i..i + |sub|] == sub
    ensures Contains(s, sub)
    decreases i
  {
    if i > 0 {
      assert s[1..][i - 1..i - 1 + |sub|] == sub;
      ContainsAt(s[1..], sub, i - 1);
    }
  }

  /** A string contains every piece it is built from. */
  lemma ContainsMiddle(a: string, b: string, c: string)
    ensures Contains(a + b + c, b)
  {
    var s := a + b + c;
    assert s[|a|..|a| + |b|] == b;
    ContainsAt(s, b, |a|);
  }

  /** `sub in s` is false when the first character of `sub` never occurs in `s`. */
  lemma {:induction false} FirstCharAbsent(s: string, sub: string)
    requires |sub| > 0 && sub[0] !in s
    ensures !Contains(s, sub)
    decreases |s|
  {
    if |sub| <= |s| {
      assert s[..|sub|][0] == s[0];
    }
    if |s| > 0 {
      assert sub[0] !in s[1..] by {
        forall k | 0 <= k < |s[1..]| ensures s[1..][k] != sub[0] {
          assert s[1..][k] == s[k + 1];
        }
      }
      FirstCharAbsent(s[1..], sub);
    }
  }

  /** `s.find(sub)`: the index of the first occurrence of `sub`, or -1. */
  function Find(s: string, sub: string): (r: int)
    ensures -1 <= r <= |s|
    ensures r == -1 <==> !Contains(s, sub)
    ensures r >= 0 ==> StartsWith(s[r..], sub)
    ensures forall j :: 0 <= j < r ==> !StartsWith(s[j..], sub)
    decreases |s|
  {
    if StartsWith(s, sub) then 0
    else if |s| == 0 then -1
    else
      var r := Find(s[1..], sub);
      assert forall j :: 1 <= j <= |s| ==> s[j..] == s[1..][j - 1..];
      if r == -1 then -1 else r + 1
  }

  /** The whitespace `str.strip()` removes (its ASCII part, the separators U+001C to U+001F included). */
  predicate IsSpace(c: char) {
    c == ' ' || c == '\t' || c == '\n' || c == '\r' || c == '\U{000B}' || c == '\U{000C}'
    || ('\U{001C}' <= c <= '\U{001F}')
  }

  /** The index of the first non-whitespace character of `s` at or after `i`, or `|s|`. */
  function LeftEnd(s: string, i: nat): (j: nat)
    requires i <= |s|
    ensures i <= j <= |s|
    ensures forall k :: i <= k < j ==> IsSpace(s[k])
    ensures j == |s| || !IsSpace(s[j])
    decreases |s| - i
  {
    if i < |s| && IsSpace(s[i]) then LeftEnd(s, i + 1) else i
  }

  /** The index just past the last non-whitespace character of `s` before `j`, never below `lo`. */
  function RightEnd(s: string, lo: nat, j: nat): (e: nat)
    requires lo <= j <= |s|
    ensures lo <= e <= j
    ensures forall k :: e <= k < j ==> IsSpace(s[k])
    ensures e == lo || !IsSpace(s[e - 1])
    decreases j
  {
    if lo < j && IsSpace(s[j - 1]) then RightEnd(s, lo, j - 1) else j
  }

  /** `r` is `s[i..]` cut short, with only whitespace cut off at either end. */
  ghost predicate PaddedBy(s: string, r: string, i: nat) {
    i + |r| <= |s| && r == s[i..i + |r|]
    && (forall k :: 0 <= k < i ==> IsSpace(s[k]))
    && (forall k :: i + |r| <= k < |s| ==> IsSpace(s[k]))
  }

  /** `s.strip()`: the middle of `s` with no whitespace at either end. */
  function Strip(s: string): (r: string)
    ensures r == [] || (!IsSpace(r[0]) && !IsSpace(r[|r| - 1]))
    ensures exists i :: PaddedBy(s, r, i)
  {
    var i := LeftEnd(s, 0);
    var e := RightEnd(s, i, |s|);
    assert PaddedBy(s, s[i..e], i);
    s[i..e]
  }

  /** Stripping a string with no whitespace at its ends leaves it alone. */
  lemma StripUnpadded(s: string)
    requires s == [] || (!IsSpace(s[0]) && !IsSpace(s[|s| - 1]))
    ensures Strip(s) == s
  {
  }

  /** The first index of `c` in `s`. */
  function IndexOf(s: string, c: char): (i: nat)
    requires c in s
    ensures i < |s| && s[i] == c
    ensures forall j :: 0 <= j < i ==> s[j] != c
    decreases |s|
  {
    if s[0] == c then 0 else IndexOf(s[1..], c) + 1
  }

  /** `sep.join(parts)` for a one-character separator. */
  function Join(parts: seq<string>, sep: char): string
    decreases |parts|
  {
    if |parts| == 0 then ""
    else if |parts| == 1 then parts[0]
    else parts[0] + [sep] + Join(parts[1..], sep)
  }

  /** `s.split(sep)` for a one-character separator: empty fields are kept. */
  function Split(s: string, sep: char): (parts: seq<string>)
    ensures |parts| >= 1
    ensures forall i :: 0 <= i < |parts| ==> sep !in parts[i]
    ensures Join(parts, sep) == s
    decreases |s|
  {
    if sep !in s then [s]
    else
      var i := IndexOf(s, sep);
      var rest := Split(s[i + 1..], sep);
      assert s == s[..i] + [sep] + s[i + 1..];
      [s[..i]] + rest
  }

  /** Splitting undoes joining fields that do not contain the separator. */
  lemma {:induction false} SplitJoin(parts: seq<string>, sep: char)
    requires |parts| >= 1
    requires forall i :: 0 <= i < |parts| ==> sep !in parts[i]
    ensures Split(Join(parts, sep), sep) == parts
    decreases |parts|
  {
    if |parts| > 1 {
      var s := Join(parts, sep);
      var tail := Join(parts[1..], sep);
      assert s == parts[0] + [sep] + tail;
      assert sep in s by { assert s[|parts[0]|] == sep; }
      assert forall k :: 0 <= k < |parts[0]| ==> s[k] == parts[0][k];
      var i := IndexOf(s, sep);
      assert i == |parts[0]|;
      assert s[..i] == parts[0];
      assert s[i + 1..] == tail;
      SplitJoin(parts[1..], sep);
    }
  }

  /** An ASCII decimal digit (what `str.isdigit` accepts, restricted to ASCII). */
  predicate IsDigit(c: char) {
    '0' <= c <= '9'
  }

  predicate AllDigits(s: string) {
    forall i :: 0 <= i < |s| ==> IsDigit(s[i])
  }

  /** `s.isdigit()`: non-empty and digits only. */
  predicate IsDigitString(s: string) {
    |s| > 0 && AllDigits(s)
  }

  function DigitValue(c: char): (d: nat)
    requires IsDigit(c)
    ensures d < 10
  {
    c as int - '0' as int
  }

  function DigitChar(d: nat): (c: char)
    requires d < 10
    ensures IsDigit(c) && DigitValue(c) == d
  {
    ('0' as int + d) as char
  }

  /** `int(s)` for a string of decimal digits (leading zeros allowed). */
  function DigitsValue(s: string): nat
    requires AllDigits(s)
    decreases |s|
  {
    if s == [] then 0 else DigitsValue(s[..|s| - 1]) * 10 + DigitValue(s[|s| - 1])
  }

  /** `str(n)`: decimal digits without leading zeros. */
  function NatToString(n: nat): (s: string)
    ensures 1 <= |s| && AllDigits(s) && DigitsValue(s) == n
    ensures (|s| == 1) == (n < 10)
    ensures |s| > 1 ==> s[0] != '0'
    decreases n
  {
    if n < 10 then [DigitChar(n)]
    else
      var p := NatToString(n / 10);
      var s := p + [DigitChar(n % 10)];
      assert s[..|s| - 1] == p;
      s
  }

  /** `f"{n:02d}"`: at least two digits, zero-padded on the left. */
  function ZeroPad2(n: nat): (s: string)
    ensures 2 <= |s| && AllDigits(s) && DigitsValue(s) == n
    ensures n >= 10 ==> s == NatToString(n)
  {
    if n < 10 then
      var s := ['0', DigitChar(n)];
      assert s[..1] == ['0'] && ['0'][..0] == [];
      s
    else NatToString(n)
  }

  /** `c.upper()` for ASCII letters; every other character is kept. */
  function UpperChar(c: char): char {
    if 'a' <= c <= 'z' then (c as int - 32) as char else c
  }

  /** `s.upper()` */
  function Upper(s: string): (r: string)
    ensures |r| == |s| && forall i :: 0 <= i < |s| ==> r[i] == UpperChar(s[i])
  {
    seq(|s|, i requires 0 <= i < |s| => UpperChar(s[i]))
  }

  /** Python's `a < b` on `str`: code point by code point, a proper prefix first. */
  predicate LexLess(a: string, b: string)
    decreases |a|
  {
    |b| > 0 && (|a| == 0 || a[0] < b[0] || (a[0] == b[0] && LexLess(a[1..], b[1..])))
  }

  lemma {:induction false} LexIrreflexive(a: string)
    ensures !LexLess(a, a)
    decreases |a|
  {
    if |a| > 0 {
      LexIrreflexive(a[1..]);
    }
  }

  lemma {:induction false} LexTotal(a: string, b: string)
    ensures LexLess(a, b) || a == b || LexLess(b, a)
    decreases |a|
  {
    if |a| > 0 && |b| > 0 && a[0] == b[0] {
      LexTotal(a[1..], b[1..]);
      if a[1..] == b[1..] {
        assert a == [a[0]] + a[1..] && b == [b[0]] + b[1..];
      }
    }
  }

  lemma {:induction false} LexTransitive(a: string, b: string, c: string)
    requires LexLess(a, b) && LexLess(b, c)
    ensures LexLess(a, c)
    decreases |a|
  {
    if |a| > 0 && a[0] == b[0] && b[0] == c[0] {
      LexTransitive(a[1..], b[1..], c[1..]);
    }
  }
}
