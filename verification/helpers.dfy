/**
 * `Helpers`: the duration formatting and the IPv4 address check of the
 * utility module. Integers are unbounded, as in Python; `//` and `%` by a
 * positive number round toward minus infinity there and in Dafny alike.
 */
module Helpers {
  import opened Strings

  /** Python's `f"{n:02d}"`: zero-padded to two characters; a negative number is its sign and digits. */
  function Format02(n: int): (s: string)
    ensures |s| >= 2
    ensures n >= 0 ==> AllDigits(s) && DigitsValue(s) == n
    ensures n < 0 ==> s[0] == '-' && AllDigits(s[1..]) && DigitsValue(s[1..]) == -n
  {
    if n >= 0 then ZeroPad2(n)
    else
      var digits := NatToString(-n);
      assert ("-" + digits)[1..] == digits;
      "-" + digits
  }

  /** Any split of `x` into sixties and a remainder below 60 has `x % 60` as its remainder. */
  lemma ModSixty(x: int, q: int, r: int)
    requires x == q * 60 + r && 0 <= r < 60
    ensures x % 60 == r
  {
    assert (x / 60 - q) * 60 == r - x % 60;
  }

  /** The hours, minutes and seconds `format_duration` computes. */
  function DurationFields(seconds: int): (f: (int, int, int))
    ensures f.0 * 3600 + f.1 * 60 + f.2 == seconds
    ensures 0 <= f.1 < 60 && 0 <= f.2 < 60
    ensures seconds >= 0 ==> f.0 >= 0
  {
    var hours := seconds / 3600;
    var rest := seconds % 3600;
    var minutes := rest / 60;
    ModSixty(rest, minutes, rest % 60);
    ModSixty(seconds, hours * 60 + minutes, rest % 60);
    (hours, minutes, seconds % 60)
  }

  /** Only one split of a number of seconds has minutes and seconds below 60. */
  lemma FieldsUnique(seconds: int, h: int, m: int, s: int)
    requires 0 <= m < 60 && 0 <= s < 60 && h * 3600 + m * 60 + s == seconds
    ensures DurationFields(seconds) == (h, m, s)
  {
    var f := DurationFields(seconds);
    var a := f.1 * 60 + f.2;
    var b := m * 60 + s;
    assert 0 <= a < 3600 && 0 <= b < 3600;
    assert (f.0 - h) * 3600 == b - a;
    assert f.0 == h;
    assert (f.1 - m) * 60 == s - f.2;
    assert f.1 == m;
  }

  /** `format_duration(seconds)`: "H:M:S", each field by `:02d`. */
  function FormatDuration(seconds: int): string {
    var f := DurationFields(seconds);
    Format02(f.0) + ":" + Format02(f.1) + ":" + Format02(f.2)
  }

  /** Joining three fields. */
  lemma JoinThree(a: string, b: string, c: string, sep: char)
    ensures Join([a, b, c], sep) == a + [sep] + b + [sep] + c
  {
    assert [b, c][1..] == [c];
    assert Join([b, c], sep) == b + [sep] + c;
    assert [a, b, c][1..] == [b, c];
    assert Join([a, b, c], sep) == a + [sep] + Join([b, c], sep);
  }

  /** Joining four fields. */
  lemma JoinFour(a: string, b: string, c: string, d: string, sep: char)
    ensures Join([a, b, c, d], sep) == a + [sep] + b + [sep] + c + [sep] + d
  {
    assert [a, b, c, d][1..] == [b, c, d];
    JoinThree(b, c, d, sep);
  }

  /** A digit string holds no separator that is not a digit. */
  lemma NoSeparator(s: string, sep: char)
    requires AllDigits(s) && !IsDigit(sep)
    ensures sep !in s
  {
    assert forall k :: 0 <= k < |s| ==> s[k] != sep;
  }

  /**
   * For a non-negative duration the output is three ':'-separated fields
   * of at least two digits each, which read back as hours, minutes below
   * 60 and seconds below 60 adding up to the input.
   */
  lemma FormatDurationReadsBack(seconds: int)
    requires seconds >= 0
    ensures var fields := Split(FormatDuration(seconds), ':');
      |fields| == 3
      && (forall i :: 0 <= i < 3 ==> |fields[i]| >= 2 && AllDigits(fields[i]))
      && DigitsValue(fields[1]) < 60 && DigitsValue(fields[2]) < 60
      && DigitsValue(fields[0]) * 3600 + DigitsValue(fields[1]) * 60 + DigitsValue(fields[2]) == seconds
  {
    var f := DurationFields(seconds);
    var parts := [Format02(f.0), Format02(f.1), Format02(f.2)];
    JoinThree(parts[0], parts[1], parts[2], ':');
    NoSeparator(parts[0], ':');
    NoSeparator(parts[1], ':');
    NoSeparator(parts[2], ':');
    SplitJoin(parts, ':');
  }

  /** One field of an address: `part.isdigit()` and its value at most 255. */
  predicate ValidOctet(part: string) {
    IsDigitString(part) && DigitsValue(part) <= 255
  }

  /** What `validate_ip_address` accepts: four '.'-separated fields, each a valid octet. */
  predicate IsValidIp(ip: string) {
    var parts := Split(ip, '.');
    |parts| == 4 && forall i :: 0 <= i < 4 ==> ValidOctet(parts[i])
  }

  /** `validate_ip_address`: the field count first, then each field in turn. */
  method ValidateIpAddress(ip: string) returns (ok: bool)
    ensures ok <==> IsValidIp(ip)
  {
    var parts := Split(ip, '.');
    if |parts| != 4 {
      return false;
    }
    var i := 0;
    while i < |parts|
      invariant 0 <= i <= 4
      invariant forall j :: 0 <= j < i ==> ValidOctet(parts[j])
    {
      var part := parts[i];
      if !IsDigitString(part) {
        return false;
      }
      var num: int := DigitsValue(part);
      if num < 0 || num > 255 {
        return false;
      }
      i := i + 1;
    }
    return true;
  }

  /** A leading zero does not change a field's value, so it is accepted. */
  lemma {:induction false} LeadingZeroValue(part: string)
    requires AllDigits(part)
    ensures AllDigits("0" + part) && DigitsValue("0" + part) == DigitsValue(part)
    decreases |part|
  {
    var s := "0" + part;
    if part != [] {
      assert s[..|s| - 1] == "0" + part[..|part| - 1];
      LeadingZeroValue(part[..|part| - 1]);
    } else {
      assert s[..|s| - 1] == [];
    }
  }

  /** Octets with leading zeros ("010") are valid when their value is. */
  lemma LeadingZeroAccepted(part: string)
    requires ValidOctet(part)
    ensures ValidOctet("0" + part)
  {
    LeadingZeroValue(part);
  }

  /** The dotted-quad text of four numbers. */
  function Dotted(a: nat, b: nat, c: nat, d: nat): string {
    NatToString(a) + "." + NatToString(b) + "." + NatToString(c) + "." + NatToString(d)
  }

  /** A dotted quad splits back into its four numbers' texts. */
  lemma DottedSplits(a: nat, b: nat, c: nat, d: nat)
    ensures Split(Dotted(a, b, c, d), '.') == [NatToString(a), NatToString(b), NatToString(c), NatToString(d)]
  {
    var parts := [NatToString(a), NatToString(b), NatToString(c), NatToString(d)];
    JoinFour(parts[0], parts[1], parts[2], parts[3], '.');
    NoSeparator(parts[0], '.');
    NoSeparator(parts[1], '.');
    NoSeparator(parts[2], '.');
    NoSeparator(parts[3], '.');
    SplitJoin(parts, '.');
  }

  /** An address that splits into four valid octets is accepted. */
  lemma QuadValid(ip: string, parts: seq<string>)
    requires Split(ip, '.') == parts && |parts| == 4
    requires ValidOctet(parts[0]) && ValidOctet(parts[1]) && ValidOctet(parts[2]) && ValidOctet(parts[3])
    ensures IsValidIp(ip)
  {
    forall i | 0 <= i < 4
      ensures ValidOctet(parts[i])
    {
      if i == 0 {} else if i == 1 {} else if i == 2 {} else {}
    }
  }

  /** Every dotted quad of numbers up to 255 is accepted, and its fields read back as those numbers. */
  lemma DottedAccepted(a: nat, b: nat, c: nat, d: nat)
    requires a <= 255 && b <= 255 && c <= 255 && d <= 255
    ensures IsValidIp(Dotted(a, b, c, d))
    ensures var parts := Split(Dotted(a, b, c, d), '.');
      DigitsValue(parts[0]) == a && DigitsValue(parts[1]) == b && DigitsValue(parts[2]) == c && DigitsValue(parts[3]) == d
  {
    var parts := [NatToString(a), NatToString(b), NatToString(c), NatToString(d)];
    DottedSplits(a, b, c, d);
    QuadValid(Dotted(a, b, c, d), parts);
  }
}
