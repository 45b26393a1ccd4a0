/**
 * `SystemChecker`: reading `requirements.txt` into package → version spec,
 * splitting a requirement into its name and spec, the numeric version
 * comparison used when the `packaging` library is missing, the choice of
 * packages to install, and the record of checks behind the final verdict.
 * The file, the installed versions and the `packaging` library are inputs.
 */
module SystemChecker {
  import opened Wrappers
  import opened Strings
  import OM = OrderedMaps

  /** The operators `_parse_package_spec` looks for, in the order it tries them. */
  const Operators: seq<string> := ["==", ">=", "<=", ">", "<", "~=", "!="]

  /** Python's `s[n:]`: empty once `n` is past the end. */
  function Drop(s: string, n: nat): string {
    if n <= |s| then s[n..] else []
  }

  /** Python's truth value of an optional string: present and non-empty. */
  predicate Truthy(s: Option<string>) {
    s.Some? && s.value != []
  }

  /**
   * When an operator occurrence counts as the start of the version spec.
   * `NoBracketBefore` is the code: no '[' anywhere before it.
   * `OutsideBrackets` is what the code means to do: the operator is not
   * inside an `[extras]` bracket that is still open.
   */
  datatype BracketRule = NoBracketBefore | OutsideBrackets

  /** The last bracket of `p` is an opening one. */
  predicate InOpenBracket(p: string)
    decreases |p|
  {
    p != [] && (p[|p| - 1] == '[' || (p[|p| - 1] != ']' && InOpenBracket(p[..|p| - 1])))
  }

  predicate Admits(rule: BracketRule, prefix: string) {
    match rule
    case NoBracketBefore => '[' !in prefix
    case OutsideBrackets => !InOpenBracket(prefix)
  }

  /** Operator `k` occurs in `spec` and its first occurrence passes the bracket rule. */
  predicate Eligible(spec: string, k: nat, rule: BracketRule)
    requires k < |Operators|
  {
    var pos := Find(spec, Operators[k]);
    pos != -1 && Admits(rule, spec[..pos])
  }

  /** Where each of the first `n` operators first occurs in `spec` (-1 when it does not). */
  function Positions(spec: string, n: nat): (pos: seq<int>)
    requires n <= |Operators|
    ensures |pos| == n
    ensures forall k :: 0 <= k < n ==> pos[k] == Find(spec, Operators[k])
  {
    if n == 0 then [] else Positions(spec, n - 1) + [Find(spec, Operators[n - 1])]
  }

  /** Which of the first `n` operators are eligible in `spec`. */
  function EligibleOnes(spec: string, rule: BracketRule, n: nat): (ok: seq<bool>)
    requires n <= |Operators|
    ensures |ok| == n
    ensures forall k :: 0 <= k < n ==> ok[k] == Eligible(spec, k, rule)
  {
    if n == 0 then [] else EligibleOnes(spec, rule, n - 1) + [Eligible(spec, n - 1, rule)]
  }

  /**
   * The loop of `_parse_package_spec` over the first `n` operators: a
   * later eligible operator replaces the current one only when it occurs
   * strictly earlier.
   */
  function Scan(pos: seq<int>, ok: seq<bool>, n: nat): (c: Option<nat>)
    requires n <= |pos| == |ok|
    ensures c.Some? ==> c.value < n && ok[c.value]
  {
    if n == 0 then None
    else
      var c := Scan(pos, ok, n - 1);
      if ok[n - 1] && (c.None? || pos[n - 1] < pos[c.value]) then Some(n - 1) else c
  }

  /** The scan finds an operator iff one is eligible. */
  lemma {:induction false} ScanIffEligible(pos: seq<int>, ok: seq<bool>, n: nat)
    requires n <= |pos| == |ok|
    ensures Scan(pos, ok, n).None? <==> forall k :: 0 <= k < n ==> !ok[k]
  {
    if n > 0 {
      ScanIffEligible(pos, ok, n - 1);
    }
  }

  /**
   * The operator found is the eligible one that occurs first, the earlier
   * in the list on a tie (so ">=" wins over ">" at the same place).
   */
  lemma {:induction false} ScanIsEarliest(pos: seq<int>, ok: seq<bool>, n: nat, k: nat)
    requires k < n <= |pos| == |ok| && ok[k]
    ensures Scan(pos, ok, n).Some?
    ensures var c := Scan(pos, ok, n).value; pos[c] < pos[k] || (pos[c] == pos[k] && c <= k)
  {
    if k < n - 1 {
      ScanIsEarliest(pos, ok, n - 1, k);
    }
  }

  /** The operator `_parse_package_spec` settles on. */
  function Chosen(spec: string, rule: BracketRule): (c: Option<nat>)
    ensures c.Some? ==> c.value < |Operators| && Eligible(spec, c.value, rule)
  {
    Scan(Positions(spec, |Operators|), EligibleOnes(spec, rule, |Operators|), |Operators|)
  }

  /**
   * The name and the version spec `_parse_package_spec` makes of `spec`
   * once the scan chose operator `c`: both sides stripped, `[extras]` cut
   * from the name, "~=X" turned into ">=X".
   */
  function SpecParts(spec: string, c: Option<nat>): (r: (string, Option<string>))
    requires c.Some? ==> c.value < |Operators| && Find(spec, Operators[c.value]) != -1
    ensures '[' in r.0 ==> ']' !in r.0
  {
    var pos := if c.Some? then Find(spec, Operators[c.value]) else -1;
    var name := if pos != -1 then Strip(spec[..pos]) else Strip(spec);
    var versionSpec := if pos != -1 then Some(Strip(spec[pos..])) else None;
    var packageName := if '[' in name && ']' in name then Split(name, '[')[0] else name;
    if Truthy(versionSpec) then
      var op := Operators[c.value];
      if op == "~=" then (packageName, Some(">=" + Strip(Drop(versionSpec.value, |op|))))
      else if op !in [">=", "==", "<=", ">", "<", "!="] then (packageName, None)
      else (packageName, versionSpec)
    else (packageName, versionSpec)
  }

  /** `_parse_package_spec` under a bracket rule. */
  function ParseSpec(spec: string, rule: BracketRule): (string, Option<string>) {
    SpecParts(spec, Chosen(spec, rule))
  }

  /** `_parse_package_spec`: the operator scan, then the split. */
  method ParsePackageSpec(packageSpec: string, rule: BracketRule) returns (packageName: string, versionSpec: Option<string>)
    ensures (packageName, versionSpec) == ParseSpec(packageSpec, rule)
  {
    var found := ScanOperators(packageSpec, rule);
    var parts := SpecParts(packageSpec, found);
    packageName, versionSpec := parts.0, parts.1;
  }

  /** The loop of `_parse_package_spec`, trying the operators one by one. */
  method ScanOperators(packageSpec: string, rule: BracketRule) returns (found: Option<nat>)
    ensures found == Chosen(packageSpec, rule)
  {
    ghost var count: nat := |Operators|;
    ghost var pos := Positions(packageSpec, count);
    ghost var ok := EligibleOnes(packageSpec, rule, count);
    var operatorPos := -1;
    found := None;
    var i := 0;
    while i < |Operators|
      invariant 0 <= i <= |Operators|
      invariant found == Scan(pos, ok, i)
      invariant found.None? ==> operatorPos == -1
      invariant found.Some? ==> operatorPos == pos[found.value] != -1
    {
      var p := Find(packageSpec, Operators[i]);
      assert pos[i] == p && ok[i] == (p != -1 && Admits(rule, packageSpec[..p]));
      if p != -1 && (operatorPos == -1 || p < operatorPos) && Admits(rule, packageSpec[..p]) {
        operatorPos := p;
        found := Some(i);
      }
      i := i + 1;
    }
  }

  /** Stripping keeps a leading piece that has no whitespace in it. */
  lemma StripKeepsLead(s: string, p: string)
    requires |p| >= 1 && StartsWith(s, p) && forall k :: 0 <= k < |p| ==> !IsSpace(p[k])
    ensures StartsWith(Strip(s), p)
  {
    assert !IsSpace(s[0]) && !IsSpace(s[|p| - 1]);
    var i := LeftEnd(s, 0);
    var e := RightEnd(s, i, |s|);
    assert i == 0;
    assert e >= |p|;
    assert Strip(s)[..|p|] == s[..|p|];
  }

  /** Every operator is one or two non-blank characters, and all but "~=" are kept as they are. */
  lemma OperatorFacts(j: nat)
    requires j < |Operators|
    ensures |Operators[j]| >= 1 && forall k :: 0 <= k < |Operators[j]| ==> !IsSpace(Operators[j][k])
    ensures Operators[j] == "~=" || Operators[j] in [">=", "==", "<=", ">", "<", "!="]
    ensures Operators[j][0] in "=<>~!"
  {
    if j == 0 {} else if j == 1 {} else if j == 2 {} else if j == 3 {} else if j == 4 {} else if j == 5 {} else {}
  }

  /** The version part of a chosen operator starts with it, so it is never empty. */
  lemma ChosenLead(spec: string, c: nat)
    requires c < |Operators| && Find(spec, Operators[c]) != -1
    ensures StartsWith(Strip(spec[Find(spec, Operators[c])..]), Operators[c])
  {
    OperatorFacts(c);
    StripKeepsLead(spec[Find(spec, Operators[c])..], Operators[c]);
  }

  /** A spec gets a version part iff some operator is eligible in it. */
  lemma ParsedVersionIff(spec: string, rule: BracketRule)
    ensures ParseSpec(spec, rule).1.None? <==> forall k :: 0 <= k < |Operators| ==> !Eligible(spec, k, rule)
  {
    var c := Chosen(spec, rule);
    ScanIffEligible(Positions(spec, |Operators|), EligibleOnes(spec, rule, |Operators|), |Operators|);
    if c.Some? {
      ChosenLead(spec, c.value);
      OperatorFacts(c.value);
    }
  }

  /** The version part starts with the chosen operator, ">=" in place of "~=". */
  lemma ParsedVersionLead(spec: string, rule: BracketRule)
    ensures var c := Chosen(spec, rule); var r := ParseSpec(spec, rule);
      r.1.Some? ==> StartsWith(r.1.value, if Operators[c.value] == "~=" then ">=" else Operators[c.value])
  {
    var c := Chosen(spec, rule);
    if c.Some? {
      ChosenLead(spec, c.value);
      OperatorFacts(c.value);
    }
  }

  /** An operator whose first character is absent from `spec` does not occur in it. */
  lemma AbsentOperator(spec: string, k: nat)
    requires k < |Operators| && Operators[k][0] !in spec
    ensures Find(spec, Operators[k]) == -1
  {
    OperatorFacts(k);
    FirstCharAbsent(spec, Operators[k]);
  }

  /** The scan settles on the only eligible operator. */
  lemma {:induction false} ScanSingle(pos: seq<int>, ok: seq<bool>, n: nat, k: nat)
    requires k < n <= |pos| == |ok| && ok[k]
    requires forall j :: 0 <= j < |ok| && j != k ==> !ok[j]
    ensures Scan(pos, ok, n) == Some(k)
  {
    if n - 1 > k {
      ScanSingle(pos, ok, n - 1, k);
    } else {
      ScanIffEligible(pos, ok, k);
    }
  }

  /** Text with no whitespace, no bracket and no operator character. */
  predicate Plain(t: string) {
    forall i :: 0 <= i < |t| ==> t[i] !in "=<>~![]" && !IsSpace(t[i])
  }

  /**
   * Under the code's rule a '[' blocks every operator after it, so an
   * operator can only count if its first character occurs before the first
   * '['.
   */
  lemma BracketBlocks(spec: string, k: nat, b: nat)
    requires k < |Operators| && b < |spec| && spec[b] == '[' && Operators[k][0] !in spec[..b + 1]
    ensures !Eligible(spec, k, NoBracketBefore)
  {
    var pos := Find(spec, Operators[k]);
    if pos != -1 {
      OperatorFacts(k);
      assert spec[pos] == Operators[k][0] by { assert spec[pos..][..|Operators[k]|] == Operators[k]; }
      assert forall j :: 0 <= j <= b ==> spec[..b + 1][j] == spec[j];
      assert b < pos;
      assert spec[..pos][b] == '[';
    }
  }

  /** The first field of a split is what comes before the first separator. */
  lemma CutAt(s: string, sep: char, b: nat)
    requires b < |s| && s[b] == sep && sep !in s[..b]
    ensures Split(s, sep)[0] == s[..b]
  {
    assert forall j :: 0 <= j < b ==> s[j] == s[..b][j];
    assert IndexOf(s, sep) == b;
  }

  /** The requirement "name[extras]" followed by `spec`. */
  function WithExtras(name: string, extras: string, spec: string): (s: string)
    ensures |s| == |name| + |extras| + 2 + |spec|
    ensures s[..|name| + |extras| + 2] == name + "[" + extras + "]"
    ensures s[|name| + |extras| + 2..] == spec
  {
    var front := name + "[" + extras + "]";
    assert (front + spec)[..|front|] == front;
    front + spec
  }

  /** No operator of a requirement with extras and a plain name passes the code's rule. */
  lemma ExtrasBlockOperator(name: string, extras: string, spec: string, k: nat)
    requires Plain(name) && k < |Operators|
    ensures !Eligible(WithExtras(name, extras, spec), k, NoBracketBefore)
  {
    var s := WithExtras(name, extras, spec);
    OperatorFacts(k);
    assert s[..|name| + 1] == name + "[" by {
      assert s[..|name| + 1] == s[..|name| + |extras| + 2][..|name| + 1];
    }
    BracketBlocks(s, k, |name|);
  }

  /**
   * The code loses the version spec of every requirement with extras whose
   * name holds no operator character: "urllib3[socks]==2.5.0", the
   * docstring's own example, yields none.
   */
  lemma ExtrasDropVersion(name: string, extras: string, spec: string)
    requires Plain(name)
    ensures ParseSpec(WithExtras(name, extras, spec), NoBracketBefore).1 == None
  {
    forall k | 0 <= k < |Operators|
      ensures !Eligible(WithExtras(name, extras, spec), k, NoBracketBefore)
    {
      ExtrasBlockOperator(name, extras, spec, k);
    }
    ParsedVersionIff(WithExtras(name, extras, spec), NoBracketBefore);
  }

  /** `sub` is first found where it first starts. */
  lemma FindAt(s: string, sub: string, p: nat)
    requires p <= |s| && StartsWith(s[p..], sub)
    requires forall j :: 0 <= j < p ==> !StartsWith(s[j..], sub)
    ensures Find(s, sub) == p
  {
    ContainsAt(s, sub, p);
  }

  /** In "name[extras]==version" the first "==" follows the ']'. */
  lemma ExtrasEqualsAt(name: string, extras: string, version: string)
    requires Plain(name) && Plain(extras)
    ensures Find(WithExtras(name, extras, "==" + version), "==") == |name| + |extras| + 2
  {
    var s := WithExtras(name, extras, "==" + version);
    var p := |name| + |extras| + 2;
    var front := name + "[" + extras + "]";
    assert s[p..][..2] == "==";
    forall j | 0 <= j < p
      ensures !StartsWith(s[j..], "==")
    {
      assert s[j..][0] == s[j] == front[j];
      if j < |name| {
        assert front[j] == name[j];
      } else if |name| < j < |name| + 1 + |extras| {
        assert front[j] == extras[j - |name| - 1];
      }
    }
    FindAt(s, "==", p);
  }

  /** Operators other than "==" do not occur in "name[extras]==version". */
  lemma ExtrasOtherAbsent(name: string, extras: string, version: string, k: nat)
    requires Plain(name) && Plain(extras) && Plain(version) && 1 <= k < |Operators|
    ensures Find(WithExtras(name, extras, "==" + version), Operators[k]) == -1
  {
    var s := WithExtras(name, extras, "==" + version);
    var p := |name| + |extras| + 2;
    var front := name + "[" + extras + "]";
    OperatorFacts(k);
    assert Operators[k][0] in "<>~!";
    forall i | 0 <= i < |s|
      ensures s[i] != Operators[k][0]
    {
      if i < p {
        assert s[i] == front[i];
        if i < |name| {
          assert front[i] == name[i];
        } else if |name| < i < |name| + 1 + |extras| {
          assert front[i] == extras[i - |name| - 1];
        }
      } else {
        assert s[i] == ("==" + version)[i - p];
        if i >= p + 2 {
          assert s[i] == version[i - p - 2];
        }
      }
    }
    AbsentOperator(s, k);
  }

  /** With the corrected rule, "==" is the operator chosen in "name[extras]==version". */
  lemma ExtrasChooseEquals(name: string, extras: string, version: string)
    requires Plain(name) && Plain(extras) && Plain(version)
    ensures Chosen(WithExtras(name, extras, "==" + version), OutsideBrackets) == Some(0)
  {
    var s := WithExtras(name, extras, "==" + version);
    var p := |name| + |extras| + 2;
    ExtrasEqualsAt(name, extras, version);
    assert s[..p][p - 1] == ']';
    assert Eligible(s, 0, OutsideBrackets);
    forall k | 1 <= k < |Operators|
      ensures !Eligible(s, k, OutsideBrackets)
    {
      ExtrasOtherAbsent(name, extras, version, k);
    }
    ScanSingle(Positions(s, |Operators|), EligibleOnes(s, OutsideBrackets, |Operators|), |Operators|, 0);
  }

  /** Once "==" is chosen, the version part is everything from it on, stripped. */
  lemma EqualsParts(spec: string)
    requires Find(spec, "==") != -1
    ensures var pos := Find(spec, "==");
      var name := Strip(spec[..pos]);
      SpecParts(spec, Some(0)) == (if '[' in name && ']' in name then Split(name, '[')[0] else name, Some(Strip(spec[pos..])))
  {
    ChosenLead(spec, 0);
    OperatorFacts(0);
  }

  /** The front "name[extras]" of a requirement, stripped and cut, is the name. */
  lemma ExtrasFrontName(name: string, extras: string)
    requires Plain(name) && Plain(extras) && name != []
    ensures var front := Strip(name + "[" + extras + "]");
      '[' in front && ']' in front && Split(front, '[')[0] == name
  {
    var front := name + "[" + extras + "]";
    StripUnpadded(front);
    assert front[|name|] == '[';
    assert front[|front| - 1] == ']';
    assert front[..|name|] == name;
    CutAt(front, '[', |name|);
  }

  /** Once "==" is chosen, "name[extras]==version" splits into the name and "==version". */
  lemma ExtrasPartsOfEquals(name: string, extras: string, version: string)
    requires Plain(name) && Plain(extras) && Plain(version) && name != []
    requires Find(WithExtras(name, extras, "==" + version), "==") == |name| + |extras| + 2
    ensures SpecParts(WithExtras(name, extras, "==" + version), Some(0)) == (name, Some("==" + version))
  {
    var v := "==" + version;
    var s := WithExtras(name, extras, v);
    var p := |name| + |extras| + 2;
    EqualsUnpadded(version);
    ExtrasFrontName(name, extras);
    EqualsParts(s);
    assert s[..p] == name + "[" + extras + "]" && s[p..] == v;
  }

  /** "==version" has no whitespace to strip. */
  lemma EqualsUnpadded(version: string)
    requires Plain(version)
    ensures Strip("==" + version) == "==" + version
  {
    var v := "==" + version;
    assert v[0] == '=';
    assert version != [] ==> v[|v| - 1] == version[|version| - 1];
    StripUnpadded(v);
  }

  /**
   * With the operator looked for outside the brackets, a requirement
   * "name[extras]==version" keeps both its name and its version spec, as
   * the docstring of `_parse_package_spec` promises.
   */
  lemma ExtrasKeepVersion(name: string, extras: string, version: string)
    requires Plain(name) && Plain(extras) && Plain(version) && name != []
    ensures ParseSpec(WithExtras(name, extras, "==" + version), OutsideBrackets) == (name, Some("==" + version))
  {
    ExtrasEqualsAt(name, extras, version);
    ExtrasChooseEquals(name, extras, version);
    ExtrasPartsOfEquals(name, extras, version);
  }

  /** A prefix without '[' is inside no bracket. */
  lemma {:induction false} NoOpenBracket(p: string)
    requires '[' !in p
    ensures !InOpenBracket(p)
    decreases |p|
  {
    if p != [] {
      assert '[' !in p[..|p| - 1];
      NoOpenBracket(p[..|p| - 1]);
    }
  }

  /** On a requirement without '[', the code and the intended rule agree. */
  lemma BracketFreeAgree(spec: string)
    requires '[' !in spec
    ensures ParseSpec(spec, NoBracketBefore) == ParseSpec(spec, OutsideBrackets)
  {
    forall k | 0 <= k < |Operators|
      ensures Eligible(spec, k, NoBracketBefore) == Eligible(spec, k, OutsideBrackets)
    {
      var pos := Find(spec, Operators[k]);
      if pos != -1 {
        assert '[' !in spec[..pos];
        NoOpenBracket(spec[..pos]);
      }
    }
    assert EligibleOnes(spec, NoBracketBefore, |Operators|) == EligibleOnes(spec, OutsideBrackets, |Operators|);
  }

  /** `''.join(filter(str.isdigit, part))`: the digits of `part`, in order. */
  function DigitsOf(part: string): (d: string)
    ensures AllDigits(d) && |d| <= |part|
    ensures d == [] <==> forall i :: 0 <= i < |part| ==> !IsDigit(part[i])
    decreases |part|
  {
    if part == [] then []
    else
      var init := DigitsOf(part[..|part| - 1]);
      assert forall i :: 0 <= i < |part| - 1 ==> part[..|part| - 1][i] == part[i];
      if IsDigit(part[|part| - 1]) then init + [part[|part| - 1]] else init
  }

  /** Filtering a field made of digits alone keeps it whole. */
  lemma {:induction false} DigitsOfDigits(part: string)
    requires AllDigits(part)
    ensures DigitsOf(part) == part
    decreases |part|
  {
    if part != [] {
      DigitsOfDigits(part[..|part| - 1]);
    }
  }

  /** `parse_version` over the '.'-fields of a version: one number per field that has a digit. */
  function PartsOf(fields: seq<string>): (p: seq<nat>)
    ensures |p| <= |fields|
  {
    if fields == [] then []
    else
      var d := DigitsOf(fields[|fields| - 1]);
      PartsOf(fields[..|fields| - 1]) + (if d != [] then [DigitsValue(d)] else [])
  }

  /** `parse_version(v)`. */
  function VersionParts(v: string): seq<nat> {
    PartsOf(Split(v, '.'))
  }

  /** The local `parse_version` of `_simple_version_compare`. */
  method ParseVersion(v: string) returns (parts: seq<nat>)
    ensures parts == VersionParts(v)
  {
    var fields := Split(v, '.');
    parts := [];
    var i := 0;
    while i < |fields|
      invariant 0 <= i <= |fields|
      invariant parts == PartsOf(fields[..i])
    {
      var numericPart := DigitsOf(fields[i]);
      assert fields[..i + 1][..i] == fields[..i];
      if numericPart != [] {
        parts := parts + [DigitsValue(numericPart)];
      }
      i := i + 1;
    }
    assert fields[..i] == fields;
  }

  /** Component `i` of a parsed version, 0 past its end. */
  function PartAt(p: seq<nat>, i: nat): nat {
    if i < |p| then p[i] else 0
  }

  /** The comparison loop of `_simple_version_compare` from component `i` on. */
  function CompareFrom(a: seq<nat>, b: seq<nat>, i: nat): (r: int)
    ensures -1 <= r <= 1
    decreases (if |a| < |b| then |b| else |a|) - i
  {
    if i >= |a| && i >= |b| then 0
    else if PartAt(a, i) < PartAt(b, i) then -1
    else if PartAt(a, i) > PartAt(b, i) then 1
    else CompareFrom(a, b, i + 1)
  }

  /** `_simple_version_compare(v1, v2)`. */
  function SimpleCompare(v1: string, v2: string): int {
    CompareFrom(VersionParts(v1), VersionParts(v2), 0)
  }

  /** `_simple_version_compare`: parse both versions, then compare them. */
  method SimpleVersionCompare(v1: string, v2: string) returns (r: int)
    ensures r == SimpleCompare(v1, v2)
  {
    var v1Parts := ParseVersion(v1);
    var v2Parts := ParseVersion(v2);
    r := CompareParts(v1Parts, v2Parts);
  }

  /** The loop of `_simple_version_compare`: the first differing component decides. */
  method CompareParts(v1Parts: seq<nat>, v2Parts: seq<nat>) returns (r: int)
    ensures r == CompareFrom(v1Parts, v2Parts, 0)
  {
    var n := if |v1Parts| < |v2Parts| then |v2Parts| else |v1Parts|;
    var i := 0;
    while i < n
      invariant 0 <= i <= n
      invariant CompareFrom(v1Parts, v2Parts, i) == CompareFrom(v1Parts, v2Parts, 0)
    {
      var v1Part := if i < |v1Parts| then v1Parts[i] else 0;
      var v2Part := if i < |v2Parts| then v2Parts[i] else 0;
      if v1Part < v2Part {
        return -1;
      } else if v1Part > v2Part {
        return 1;
      }
      i := i + 1;
    }
    return 0;
  }

  /** The comparison is 0 exactly when the versions agree in every component, missing ones counting as 0. */
  lemma {:induction false} CompareZeroIff(a: seq<nat>, b: seq<nat>, i: nat)
    ensures CompareFrom(a, b, i) == 0 <==> forall j :: i <= j ==> PartAt(a, j) == PartAt(b, j)
    decreases (if |a| < |b| then |b| else |a|) - i
  {
    if !(i >= |a| && i >= |b|) && PartAt(a, i) == PartAt(b, i) {
      CompareZeroIff(a, b, i + 1);
    }
  }

  /** Swapping the versions negates the comparison. */
  lemma {:induction false} CompareAntisymmetric(a: seq<nat>, b: seq<nat>, i: nat)
    ensures CompareFrom(b, a, i) == -CompareFrom(a, b, i)
    decreases (if |a| < |b| then |b| else |a|) - i
  {
    if !(i >= |a| && i >= |b|) && PartAt(a, i) == PartAt(b, i) {
      CompareAntisymmetric(a, b, i + 1);
    }
  }

  /** The comparison is -1 exactly when the first differing component of `a` is the smaller one. */
  lemma {:induction false} CompareLessIff(a: seq<nat>, b: seq<nat>, i: nat)
    ensures CompareFrom(a, b, i) == -1 <==>
      exists j :: i <= j && PartAt(a, j) < PartAt(b, j) && forall l :: i <= l < j ==> PartAt(a, l) == PartAt(b, l)
    decreases (if |a| < |b| then |b| else |a|) - i
  {
    if i >= |a| && i >= |b| {
      assert forall j :: i <= j ==> PartAt(a, j) == 0 == PartAt(b, j);
    } else if PartAt(a, i) < PartAt(b, i) {
    } else if PartAt(a, i) > PartAt(b, i) {
      forall j | i <= j && PartAt(a, j) < PartAt(b, j)
        ensures exists l :: i <= l < j && PartAt(a, l) != PartAt(b, l)
      {
        assert i < j && PartAt(a, i) != PartAt(b, i);
      }
    } else {
      CompareLessIff(a, b, i + 1);
      if CompareFrom(a, b, i) == -1 {
        var j :| i + 1 <= j && PartAt(a, j) < PartAt(b, j) && forall l :: i + 1 <= l < j ==> PartAt(a, l) == PartAt(b, l);
        assert forall l :: i <= l < j ==> PartAt(a, l) == PartAt(b, l);
      } else {
        forall j | i <= j && PartAt(a, j) < PartAt(b, j)
          ensures exists l :: i <= l < j && PartAt(a, l) != PartAt(b, l)
        {
          assert i + 1 <= j;
        }
      }
    }
  }

  /** Every version equals itself. */
  lemma SimpleCompareReflexive(v: string)
    ensures SimpleCompare(v, v) == 0
  {
    CompareZeroIff(VersionParts(v), VersionParts(v), 0);
  }

  /** Swapping the two versions negates `_simple_version_compare`. */
  lemma SimpleCompareAntisymmetric(v1: string, v2: string)
    ensures SimpleCompare(v2, v1) == -SimpleCompare(v1, v2)
  {
    CompareAntisymmetric(VersionParts(v1), VersionParts(v2), 0);
  }

  /** Joining one more field appends the separator and that field. */
  lemma {:induction false} JoinAppend(parts: seq<string>, x: string, sep: char)
    requires |parts| >= 1
    ensures Join(parts + [x], sep) == Join(parts, sep) + [sep] + x
    decreases |parts|
  {
    if |parts| > 1 {
      assert (parts + [x])[1..] == parts[1..] + [x];
      JoinAppend(parts[1..], x, sep);
    }
  }

  /** Splitting `v + ".0"` gives the fields of `v` and then "0". */
  lemma SplitAppendZero(v: string)
    ensures Split(v + ".0", '.') == Split(v, '.') + ["0"]
  {
    var fields := Split(v, '.');
    var more := fields + ["0"];
    JoinAppend(fields, "0", '.');
    assert Join(more, '.') == v + ".0" by {
      assert ['.'] + "0" == ".0";
    }
    assert forall i :: 0 <= i < |more| ==> '.' !in more[i] by {
      assert forall i :: 0 <= i < |fields| ==> more[i] == fields[i];
      assert more[|fields|] == "0";
    }
    SplitJoin(more, '.');
  }

  /** A "0" field adds a 0 component. */
  lemma PartsOfAppendZero(fields: seq<string>)
    ensures PartsOf(fields + ["0"]) == PartsOf(fields) + [0]
  {
    assert (fields + ["0"])[..|fields|] == fields;
    DigitsOfDigits("0");
  }

  /** A ".0" field appended to a version adds a 0 component. */
  lemma ZeroFieldAppended(v: string)
    ensures VersionParts(v + ".0") == VersionParts(v) + [0]
  {
    SplitAppendZero(v);
    PartsOfAppendZero(Split(v, '.'));
  }

  /** A version and the same version with a ".0" field appended compare equal: "1.0" equals "1". */
  lemma TrailingZeroEqual(v: string)
    ensures SimpleCompare(v + ".0", v) == 0
  {
    var a := VersionParts(v);
    ZeroFieldAppended(v);
    assert forall j :: 0 <= j ==> PartAt(a + [0], j) == PartAt(a, j);
    CompareZeroIff(a + [0], a, 0);
  }

  /** The example of the version components: "1.0" equals "1". */
  lemma OnePointZeroEqualsOne()
    ensures SimpleCompare("1.0", "1") == 0
  {
    TrailingZeroEqual("1");
    assert "1" + ".0" == "1.0";
  }

  /**
   * How `_check_version_compatibility` decides once the installed version
   * is known: through the `packaging` library, whose verdict on (installed,
   * spec) is `Some(installed in SpecifierSet(spec))`, or `None` when parsing
   * raised; or, when that library cannot be imported, by the fallback.
   */
  datatype Packaging = Library(verdict: (string, string) -> Option<bool>) | NoPackaging

  /** An installed version the check works with: not None, "" or "unknown". */
  predicate KnownVersion(installed: Option<string>) {
    installed.Some? && installed.value != "" && installed.value != "unknown"
  }

  /** `_check_version_compatibility(installed, requiredSpec)`. */
  function CheckVersionCompatibility(installed: Option<string>, requiredSpec: string, packaging: Packaging): (ok: bool)
    ensures ok ==> KnownVersion(installed)
  {
    if !KnownVersion(installed) then false
    else match packaging
      case Library(verdict) =>
        var inSet := verdict(installed.value, requiredSpec);
        inSet.None? || inSet.value
      case NoPackaging =>
        if StartsWith(requiredSpec, ">=") then SimpleCompare(installed.value, Strip(requiredSpec[2..])) >= 0
        else true
  }

  /** Without `packaging`, every spec other than ">=..." is accepted for a known version. */
  lemma FallbackAcceptsOthers(installed: string, requiredSpec: string)
    requires KnownVersion(Some(installed)) && !StartsWith(requiredSpec, ">=")
    ensures CheckVersionCompatibility(Some(installed), requiredSpec, NoPackaging)
  {
  }

  /** Without `packaging`, ">=" + v accepts v itself. */
  lemma FallbackAcceptsSelf(installed: string)
    requires KnownVersion(Some(installed)) && !IsSpace(installed[0]) && !IsSpace(installed[|installed| - 1])
    ensures CheckVersionCompatibility(Some(installed), ">=" + installed, NoPackaging)
  {
    assert (">=" + installed)[2..] == installed;
    StripUnpadded(installed);
    SimpleCompareReflexive(installed);
  }

  /** Without `packaging`, ">=" + v rejects exactly the versions that compare below v. */
  lemma FallbackAtLeast(installed: string, required: string)
    requires KnownVersion(Some(installed))
    ensures CheckVersionCompatibility(Some(installed), ">=" + required, NoPackaging)
      <==> SimpleCompare(installed, Strip(required)) != -1
  {
    assert (">=" + required)[..2] == ">=";
    assert (">=" + required)[2..] == required;
  }

  /** `_get_default_requirements`. */
  const DefaultRequirements: OM.OMap<string, Option<string>> := [
    ("selenium", Some(">=4.15.0")),
    ("pandas", Some(">=2.1.3")),
    ("psutil", Some(">=5.9.6")),
    ("openpyxl", Some(">=3.1.2")),
    ("requests", Some(">=2.31.0")),
    ("webdriver-manager", Some(">=4.0.1"))]

  /** `d.get(k)` on a dict whose values may themselves be None. */
  function Lookup(m: OM.OMap<string, Option<string>>, k: string): (v: Option<string>)
    ensures v.Some? ==> OM.Get(m, k) == Some(v)
  {
    match OM.Get(m, k)
    case Some(value) => value
    case None => None
  }

  /**
   * What one line of requirements.txt gives when its spec is parsed under
   * `rule`: nothing for a blank line, a comment, an option ("--...") or a
   * line without a package name; otherwise the name and version spec of
   * the text before any '#'.
   */
  function LineEntryUnder(raw: string, rule: BracketRule): (e: Option<(string, Option<string>)>)
    ensures e.Some? ==> e.value.0 != []
    ensures e.Some? ==> Strip(raw) != [] && !StartsWith(Strip(raw), "#") && !StartsWith(Strip(raw), "--")
    ensures e.Some? ==> e.value == ParseSpec(Strip(Split(Strip(raw), '#')[0]), rule)
  {
    var line := Strip(raw);
    if line == [] || StartsWith(line, "#") || StartsWith(line, "--") then None
    else
      var packageSpec := Strip(Split(line, '#')[0]);
      if packageSpec == [] then None
      else
        var parsed := ParseSpec(packageSpec, rule);
        if parsed.0 == [] then None else Some(parsed)
  }

  /**
   * What one line gives `_load_requirements_from_file`, which parses with
   * `_parse_package_spec` and so with the code's bracket rule.
   */
  function LineEntry(raw: string): Option<(string, Option<string>)> {
    LineEntryUnder(raw, NoBracketBefore)
  }

  /** A requirement line with no padding, no '#' and no leading '-' is parsed whole. */
  lemma WholeLine(s: string, rule: BracketRule)
    requires Unpadded(s) && '#' !in s && s[0] != '-' && ParseSpec(s, rule).0 != []
    ensures LineEntryUnder(s, rule) == Some(ParseSpec(s, rule))
  {
    StripUnpadded(s);
    assert Split(s, '#') == [s];
    assert s[..1] != "#" && s[..1] != "-";
  }

  /** "name[extras]==version" with plain parts is an unpadded line without '#'. */
  lemma ExtrasLineShape(name: string, extras: string, version: string)
    requires Plain(name) && Plain(extras) && Plain(version) && name != []
    requires '#' !in name && '#' !in extras && '#' !in version
    ensures var s := WithExtras(name, extras, "==" + version);
      Unpadded(s) && '#' !in s && s[0] == name[0]
  {
    var s := WithExtras(name, extras, "==" + version);
    var p := |name| + |extras| + 2;
    var front := name + "[" + extras + "]";
    assert s[0] == front[0] == name[0];
    assert s[|s| - 1] == ("==" + version)[|s| - 1 - p];
    forall i | 0 <= i < |s|
      ensures s[i] != '#'
    {
      if i < p {
        assert s[i] == front[i];
        if i < |name| {
          assert front[i] == name[i];
        } else if |name| < i < |name| + 1 + |extras| {
          assert front[i] == extras[i - |name| - 1];
        }
      } else {
        assert s[i] == ("==" + version)[i - p];
        if i >= p + 2 {
          assert s[i] == version[i - p - 2];
        }
      }
    }
  }

  /** Where the brackets of "name[extras]..." stand. */
  lemma ExtrasMarks(name: string, extras: string, spec: string)
    ensures var s := WithExtras(name, extras, spec);
      s[|name|] == '[' && s[|name| + |extras| + 1] == ']' && s[..|name|] == name
  {
    var s := WithExtras(name, extras, spec);
    var front := name + "[" + extras + "]";
    assert s[..|name| + |extras| + 2] == front;
    assert s[|name|] == front[|name|];
    assert s[|name| + |extras| + 1] == front[|name| + |extras| + 1];
    assert s[..|name|] == front[..|name|];
  }

  /** With no operator chosen, "name[extras]..." gives its plain name and no spec. */
  lemma ExtrasNameOnly(name: string, extras: string, spec: string)
    requires Plain(name) && Unpadded(WithExtras(name, extras, spec))
    ensures SpecParts(WithExtras(name, extras, spec), None) == (name, None)
  {
    var s := WithExtras(name, extras, spec);
    ExtrasMarks(name, extras, spec);
    StripUnpadded(s);
    assert '[' !in s[..|name|];
    CutAt(s, '[', |name|);
    assert '[' in s && ']' in s;
  }

  /** Under the code's rule no operator is chosen in "name[extras]...". */
  lemma ExtrasNoneChosen(name: string, extras: string, spec: string)
    requires Plain(name)
    ensures Chosen(WithExtras(name, extras, spec), NoBracketBefore) == None
  {
    var s := WithExtras(name, extras, spec);
    forall k | 0 <= k < |Operators|
      ensures !EligibleOnes(s, NoBracketBefore, |Operators|)[k]
    {
      ExtrasBlockOperator(name, extras, spec, k);
    }
    ScanIffEligible(Positions(s, |Operators|), EligibleOnes(s, NoBracketBefore, |Operators|), |Operators|);
  }

  /**
   * The loader as written reads the line "name[extras]==version" as the
   * package `name` with no version spec: the requirement's version is lost
   * (and an earlier line's spec for the package is kept).
   */
  lemma LoaderDropsExtrasVersion(name: string, extras: string, version: string)
    requires Plain(name) && Plain(extras) && Plain(version) && name != [] && name[0] != '-'
    requires '#' !in name && '#' !in extras && '#' !in version
    ensures LineEntry(WithExtras(name, extras, "==" + version)) == Some((name, None))
  {
    var s := WithExtras(name, extras, "==" + version);
    ExtrasLineShape(name, extras, version);
    ExtrasNoneChosen(name, extras, "==" + version);
    ExtrasNameOnly(name, extras, "==" + version);
    WholeLine(s, NoBracketBefore);
  }

  /**
   * Parsed with the operator looked for outside the brackets, the same line
   * gives the package and its "==version" spec.
   */
  lemma IntendedLoaderKeepsVersion(name: string, extras: string, version: string)
    requires Plain(name) && Plain(extras) && Plain(version) && name != [] && name[0] != '-'
    requires '#' !in name && '#' !in extras && '#' !in version
    ensures LineEntryUnder(WithExtras(name, extras, "==" + version), OutsideBrackets) == Some((name, Some("==" + version)))
  {
    var s := WithExtras(name, extras, "==" + version);
    ExtrasLineShape(name, extras, version);
    ExtrasKeepVersion(name, extras, version);
    WholeLine(s, OutsideBrackets);
  }

  /** What a line of requirements.txt gives: nothing, or a package name and its version spec. */
  type Entry = Option<(string, Option<string>)>

  /**
   * One entry read into the requirements: a spec replaces the one held for
   * the name, an entry without one keeps it (`version_spec or get(name)`).
   */
  function AddEntry(required: OM.OMap<string, Option<string>>, e: Entry): OM.OMap<string, Option<string>> {
    if e.None? then required
    else
      var name := e.value.0;
      var spec := e.value.1;
      OM.Put(required, name, if Truthy(spec) then spec else Lookup(required, name))
  }

  /** One line of requirements.txt read into the requirements. */
  function AddLine(required: OM.OMap<string, Option<string>>, raw: string): OM.OMap<string, Option<string>> {
    AddEntry(required, LineEntry(raw))
  }

  /** The loop of `_load_requirements_from_file` over the first lines of the file. */
  function RequirementsFold(lines: seq<string>): OM.OMap<string, Option<string>> {
    if lines == [] then [] else AddLine(RequirementsFold(lines[..|lines| - 1]), lines[|lines| - 1])
  }

  /**
   * `_load_requirements_from_file`: `None` stands for a file that is
   * missing or cannot be read, which gives the defaults.
   */
  function LoadRequirements(file: Option<seq<string>>): OM.OMap<string, Option<string>> {
    match file
    case None => DefaultRequirements
    case Some(lines) => RequirementsFold(lines)
  }

  /** `_load_requirements_from_file`, line by line. */
  method LoadRequirementsFromFile(file: Option<seq<string>>) returns (requiredPackages: OM.OMap<string, Option<string>>)
    ensures requiredPackages == LoadRequirements(file)
  {
    if file.None? {
      return DefaultRequirements;
    }
    var lines := file.value;
    requiredPackages := [];
    var i := 0;
    while i < |lines|
      invariant 0 <= i <= |lines|
      invariant requiredPackages == RequirementsFold(lines[..i])
    {
      ghost var prefix := lines[..i + 1];
      assert prefix[..i] == lines[..i] && prefix[i] == lines[i];
      requiredPackages := ReadLine(requiredPackages, lines[i]);
      i := i + 1;
    }
    assert lines[..i] == lines;
  }

  /** One pass of the loop of `_load_requirements_from_file`. */
  method ReadLine(requiredPackages: OM.OMap<string, Option<string>>, raw: string) returns (next: OM.OMap<string, Option<string>>)
    ensures next == AddLine(requiredPackages, raw)
  {
    next := requiredPackages;
    var entry := LineEntry(raw);
    if entry.Some? {
      var packageName := entry.value.0;
      var versionSpec := entry.value.1;
      next := OM.Put(requiredPackages, packageName,
        if Truthy(versionSpec) then versionSpec else Lookup(requiredPackages, packageName));
    }
  }

  /** The entry of each line. */
  function Entries(lines: seq<string>): (es: seq<Entry>)
    ensures |es| == |lines| && forall i :: 0 <= i < |lines| ==> es[i] == LineEntry(lines[i])
  {
    seq(|lines|, i requires 0 <= i < |lines| => LineEntry(lines[i]))
  }

  /** The requirements built from a sequence of entries. */
  function EntriesFold(es: seq<Entry>): OM.OMap<string, Option<string>> {
    if es == [] then [] else AddEntry(EntriesFold(es[..|es| - 1]), es[|es| - 1])
  }

  /** Reading lines is reading their entries. */
  lemma {:induction false} FoldIsEntriesFold(lines: seq<string>)
    ensures RequirementsFold(lines) == EntriesFold(Entries(lines))
  {
    if lines != [] {
      FoldIsEntriesFold(lines[..|lines| - 1]);
      assert Entries(lines)[..|lines| - 1] == Entries(lines[..|lines| - 1]);
    }
  }

  /** Entry `e` is a requirement of package `name`. */
  predicate Names(e: Entry, name: string) {
    e.Some? && e.value.0 == name
  }

  /** Some entry is a requirement of `name`. */
  predicate Mentioned(es: seq<Entry>, name: string) {
    exists i :: 0 <= i < |es| && Names(es[i], name)
  }

  /** The spec of the last entry for `name` that has one (None when none has). */
  function LastSpec(es: seq<Entry>, name: string): (spec: Option<string>)
    ensures spec.Some? ==> Truthy(spec) && Mentioned(es, name)
  {
    if es == [] then None
    else
      var e := es[|es| - 1];
      if Names(e, name) && Truthy(e.value.1) then e.value.1
      else
        var earlier := LastSpec(es[..|es| - 1], name);
        assert earlier.Some? ==> Mentioned(es, name) by {
          if earlier.Some? {
            var i :| 0 <= i < |es| - 1 && Names(es[..|es| - 1][i], name);
            assert es[..|es| - 1][i] == es[i];
          }
        }
        earlier
  }

  /** Mentioned in entries plus one: in the earlier ones or by the new one. */
  lemma MentionedSnoc(es: seq<Entry>, name: string)
    requires es != []
    ensures Mentioned(es, name) <==> Mentioned(es[..|es| - 1], name) || Names(es[|es| - 1], name)
  {
    var init := es[..|es| - 1];
    assert forall i :: 0 <= i < |init| ==> init[i] == es[i];
    if Mentioned(es, name) && !Names(es[|es| - 1], name) {
      var i :| 0 <= i < |es| && Names(es[i], name);
      assert Names(init[i], name);
    }
  }

  /** The fold over entries keeps, for each name, the spec of its last entry that has one. */
  lemma {:induction false} EntriesKeepLastSpec(es: seq<Entry>, name: string)
    ensures OM.Get(EntriesFold(es), name) == if Mentioned(es, name) then Some(LastSpec(es, name)) else None
  {
    if es != [] {
      var before := EntriesFold(es[..|es| - 1]);
      var e := es[|es| - 1];
      EntriesKeepLastSpec(es[..|es| - 1], name);
      MentionedSnoc(es, name);
      if e.Some? {
        var v := if Truthy(e.value.1) then e.value.1 else Lookup(before, e.value.0);
        if e.value.0 == name {
          OM.GetPutSame(before, name, v);
        } else {
          OM.GetPutOther(before, e.value.0, v, name);
        }
      }
    }
  }

  /**
   * The spec the loader keeps for a package is the one of the last line
   * for it that has a spec: a later line with a spec overrides, a later
   * line without one keeps what was there; packages no line names are
   * absent.
   */
  lemma LoaderKeepsLastSpec(lines: seq<string>, name: string)
    ensures var es := Entries(lines);
      OM.Get(RequirementsFold(lines), name) == if Mentioned(es, name) then Some(LastSpec(es, name)) else None
  {
    FoldIsEntriesFold(lines);
    EntriesKeepLastSpec(Entries(lines), name);
  }

  /** The requirements read from a file never name a package twice. */
  lemma {:induction false} LoadedUnique(lines: seq<string>)
    ensures OM.UniqueKeys(RequirementsFold(lines))
  {
    if lines != [] {
      var before := RequirementsFold(lines[..|lines| - 1]);
      LoadedUnique(lines[..|lines| - 1]);
      var e := LineEntry(lines[|lines| - 1]);
      if e.Some? {
        OM.PutUnique(before, e.value.0, if Truthy(e.value.1) then e.value.1 else Lookup(before, e.value.0));
      }
    }
  }

  /** A text with no whitespace at its ends. */
  predicate Unpadded(t: string) {
    t != [] && !IsSpace(t[0]) && !IsSpace(t[|t| - 1])
  }

  /** Stripping `code + "#" + comment` keeps all of `code` and the '#'. */
  lemma StripBeforeComment(code: string, comment: string)
    requires Unpadded(code)
    ensures var line := Strip(code + "#" + comment);
      |line| > |code| && line[..|code| + 1] == code + "#"
  {
    var s := code + "#" + comment;
    var line := Strip(s);
    var i :| PaddedBy(s, line, i);
    assert s[0] == code[0];
    assert i == 0;
    assert s[|code|] == '#';
    assert |line| > |code|;
    assert line[..|code| + 1] == s[..|code| + 1] == code + "#";
  }

  /** A line that is `code` then '#' is skipped exactly when `code` is. */
  lemma CommentGuards(code: string, line: string)
    requires '#' !in code && |line| > |code| && line[..|code| + 1] == code + "#"
    ensures (line == [] || StartsWith(line, "#") || StartsWith(line, "--"))
      == (code == [] || StartsWith(code, "#") || StartsWith(code, "--"))
  {
    assert line[|code|] == '#';
    if code != [] {
      assert line[0] == code[0];
      if |code| >= 2 {
        assert line[..2] == code[..2];
      }
    }
  }

  /** An inline '#' comment does not change what a line gives. */
  lemma CommentDropped(code: string, comment: string)
    requires Unpadded(code) && '#' !in code
    ensures LineEntry(code + "#" + comment) == LineEntry(code)
  {
    var line := Strip(code + "#" + comment);
    StripBeforeComment(code, comment);
    StripUnpadded(code);
    CommentGuards(code, line);
    assert line[..|code|] == code;
    CutAt(line, '#', |code|);
    assert Split(code, '#')[0] == code;
  }

  /** Whether `get_packages_to_install` lists a package: not installed, or its spec is not met. */
  predicate NeedsInstall(installed: Option<string>, spec: Option<string>, packaging: Packaging) {
    installed.None? || (Truthy(spec) && !CheckVersionCompatibility(installed, spec.value, packaging))
  }

  /** `get_packages_to_install` over the requirements: each listed package with its spec. */
  function ToInstall(required: OM.OMap<string, Option<string>>, versions: OM.OMap<string, Option<string>>, packaging: Packaging): OM.OMap<string, Option<string>> {
    if required == [] then []
    else
      var rest := ToInstall(required[..|required| - 1], versions, packaging);
      var package := required[|required| - 1].0;
      var spec := required[|required| - 1].1;
      if NeedsInstall(Lookup(versions, package), spec, packaging) then OM.Put(rest, package, spec) else rest
  }

  /** The last requirement is listed with its spec iff it needs installing. */
  lemma ToInstallSnocSame(init: OM.OMap<string, Option<string>>, last: (string, Option<string>), versions: OM.OMap<string, Option<string>>, packaging: Packaging)
    requires OM.Get(ToInstall(init, versions, packaging), last.0) == None
    ensures OM.Get(ToInstall(init + [last], versions, packaging), last.0) ==
      if NeedsInstall(Lookup(versions, last.0), last.1, packaging) then Some(last.1) else None
  {
    assert (init + [last])[..|init|] == init;
    if NeedsInstall(Lookup(versions, last.0), last.1, packaging) {
      OM.GetPutSame(ToInstall(init, versions, packaging), last.0, last.1);
    }
  }

  /** The last requirement does not change whether another package is listed. */
  lemma ToInstallSnocOther(init: OM.OMap<string, Option<string>>, last: (string, Option<string>), versions: OM.OMap<string, Option<string>>, packaging: Packaging, package: string)
    requires package != last.0
    ensures OM.Get(ToInstall(init + [last], versions, packaging), package) == OM.Get(ToInstall(init, versions, packaging), package)
  {
    assert (init + [last])[..|init|] == init;
    if NeedsInstall(Lookup(versions, last.0), last.1, packaging) {
      OM.GetPutOther(ToInstall(init, versions, packaging), last.0, last.1, package);
    }
  }

  /** Unique keys: the earlier requirements are unique and lack the last one's name. */
  lemma UniqueSnoc(required: OM.OMap<string, Option<string>>)
    requires OM.UniqueKeys(required) && required != []
    ensures var init := required[..|required| - 1];
      OM.UniqueKeys(init) && !OM.HasKey(init, required[|required| - 1].0)
  {
    var init := required[..|required| - 1];
    assert forall i :: 0 <= i < |init| ==> init[i] == required[i];
    assert forall i :: 0 <= i < |init| ==> init[i].0 != required[|required| - 1].0;
  }

  /**
   * A package is to be installed, with its spec, iff it is required and
   * either not installed or installed at a version its spec rejects.
   */
  lemma {:induction false} ToInstallIff(required: OM.OMap<string, Option<string>>, versions: OM.OMap<string, Option<string>>, packaging: Packaging, package: string)
    requires OM.UniqueKeys(required)
    ensures OM.Get(ToInstall(required, versions, packaging), package) ==
      match OM.Get(required, package)
      case None => None
      case Some(spec) => if NeedsInstall(Lookup(versions, package), spec, packaging) then Some(spec) else None
  {
    if required != [] {
      var init := required[..|required| - 1];
      var last := required[|required| - 1];
      assert required == init + [last];
      UniqueSnoc(required);
      OM.GetSnoc(init, last.0, last.1, package);
      if package == last.0 {
        ToInstallIff(init, versions, packaging, last.0);
        ToInstallSnocSame(init, last, versions, packaging);
      } else {
        ToInstallIff(init, versions, packaging, package);
        ToInstallSnocOther(init, last, versions, packaging, package);
      }
    }
  }

  /** One result as `_add_check` records it. */
  datatype CheckRecord = CheckRecord(name: string, status: bool, message: string)

  /** Every record passed. */
  predicate AllPassed(records: seq<CheckRecord>) {
    forall i :: 0 <= i < |records| ==> records[i].status
  }

  /** The names `_add_check` puts in `failed_checks` for these records, in order. */
  function FailedNames(records: seq<CheckRecord>): (names: seq<string>)
    ensures |names| <= |records|
  {
    if records == [] then []
    else
      var last := records[|records| - 1];
      FailedNames(records[..|records| - 1]) + (if last.status then [] else [last.name])
  }

  /** No name is listed as failed iff every record passed. */
  lemma {:induction false} NoFailedNames(records: seq<CheckRecord>)
    ensures FailedNames(records) == [] <==> AllPassed(records)
  {
    if records != [] {
      var init := records[..|records| - 1];
      NoFailedNames(init);
      assert forall i :: 0 <= i < |init| ==> init[i] == records[i];
    }
  }

  /** The failed names of records read one after the other. */
  lemma {:induction false} FailedNamesAppend(a: seq<CheckRecord>, b: seq<CheckRecord>)
    ensures FailedNames(a + b) == FailedNames(a) + FailedNames(b)
    decreases |b|
  {
    if b == [] {
      assert a + b == a;
    } else {
      assert (a + b)[..|a + b| - 1] == a + b[..|b| - 1];
      FailedNamesAppend(a, b[..|b| - 1]);
    }
  }

  /**
   * What `check_required_packages` records for one package, given its
   * installed version (None when it is not installed) and its spec.
   */
  function PackageRecord(package: string, installed: Option<string>, spec: Option<string>, packaging: Packaging): (r: CheckRecord)
    ensures r.name == "Package: " + package
    ensures r.status <==> !NeedsInstall(installed, spec, packaging)
  {
    if installed.None? then
      CheckRecord("Package: " + package, false, "Chưa cài đặt" + (if Truthy(spec) then " (need " + spec.value + ")" else ""))
    else if Truthy(spec) && !CheckVersionCompatibility(installed, spec.value, packaging) then
      CheckRecord("Package: " + package, false, installed.value + " (LỖI: need " + spec.value + ")")
    else
      CheckRecord("Package: " + package, true, installed.value + " ✓")
  }

  /** The records of `check_required_packages` for each required package, in order. */
  function PackageRecords(required: OM.OMap<string, Option<string>>, installedOf: string -> Option<string>, packaging: Packaging): (records: seq<CheckRecord>)
    ensures |records| == |required|
  {
    if required == [] then []
    else
      var last := required[|required| - 1];
      PackageRecords(required[..|required| - 1], installedOf, packaging)
        + [PackageRecord(last.0, installedOf(last.0), last.1, packaging)]
  }

  /** The record of each required package is at its place. */
  lemma {:induction false} PackageRecordAt(required: OM.OMap<string, Option<string>>, installedOf: string -> Option<string>, packaging: Packaging, i: nat)
    requires i < |required|
    ensures PackageRecords(required, installedOf, packaging)[i] == PackageRecord(required[i].0, installedOf(required[i].0), required[i].1, packaging)
  {
    if i < |required| - 1 {
      PackageRecordAt(required[..|required| - 1], installedOf, packaging, i);
    }
  }

  /** All that `check_required_packages` records: one failure when nothing is required. */
  function RequiredRecords(required: OM.OMap<string, Option<string>>, installedOf: string -> Option<string>, packaging: Packaging): (records: seq<CheckRecord>)
    ensures records != []
  {
    if required == [] then [CheckRecord("Requirements File", false, "No requirements found")]
    else PackageRecords(required, installedOf, packaging)
  }

  /** `package_versions` once `check_required_packages` stored each required package's installed version. */
  function RecordVersions(versions: OM.OMap<string, Option<string>>, required: OM.OMap<string, Option<string>>, installedOf: string -> Option<string>): OM.OMap<string, Option<string>> {
    if required == [] then versions
    else
      var package := required[|required| - 1].0;
      OM.Put(RecordVersions(versions, required[..|required| - 1], installedOf), package, installedOf(package))
  }

  /** A key of a map that is not its last key is a key of the earlier pairs. */
  lemma HasKeyInit(m: OM.OMap<string, Option<string>>, k: string)
    requires OM.HasKey(m, k) && k != m[|m| - 1].0
    ensures OM.HasKey(m[..|m| - 1], k)
  {
    var i :| 0 <= i < |m| && m[i].0 == k;
    assert m[..|m| - 1][i].0 == k;
  }

  /** After `check_required_packages`, each required package's stored version is its installed one. */
  lemma {:induction false} RecordedVersion(versions: OM.OMap<string, Option<string>>, required: OM.OMap<string, Option<string>>, installedOf: string -> Option<string>, package: string)
    requires OM.HasKey(required, package)
    ensures Lookup(RecordVersions(versions, required, installedOf), package) == installedOf(package)
  {
    var init := required[..|required| - 1];
    var last := required[|required| - 1].0;
    var before := RecordVersions(versions, init, installedOf);
    if package == last {
      OM.GetPutSame(before, last, installedOf(last));
    } else {
      OM.GetPutOther(before, last, installedOf(last), package);
      HasKeyInit(required, package);
      RecordedVersion(versions, init, installedOf, package);
    }
  }

  /**
   * The two views of the requirements agree: after `check_required_packages`
   * has stored the installed versions, `get_packages_to_install` lists a
   * required package iff its check failed.
   */
  lemma InstallListMatchesFailures(required: OM.OMap<string, Option<string>>, versions: OM.OMap<string, Option<string>>, installedOf: string -> Option<string>, packaging: Packaging, i: nat)
    requires OM.UniqueKeys(required) && i < |required|
    ensures var package := required[i].0;
      (OM.HasKey(ToInstall(required, RecordVersions(versions, required, installedOf), packaging), package)
       <==> !PackageRecords(required, installedOf, packaging)[i].status)
  {
    var package := required[i].0;
    var recorded := RecordVersions(versions, required, installedOf);
    RecordedVersion(versions, required, installedOf, package);
    ToInstallIff(required, recorded, packaging, package);
    PackageRecordAt(required, installedOf, packaging, i);
    assert OM.Get(required, package) == Some(required[i].1) by {
      var r := OM.Get(required, package);
      var j :| 0 <= j < |required| && required[j] == (package, r.value);
    }
  }

  /** The records and stored versions of `check_required_packages` grow one package at a time. */
  lemma RecordsStep(required: OM.OMap<string, Option<string>>, versions: OM.OMap<string, Option<string>>, installedOf: string -> Option<string>, packaging: Packaging, i: nat)
    requires i < |required|
    ensures PackageRecords(required[..i + 1], installedOf, packaging)
      == PackageRecords(required[..i], installedOf, packaging) + [PackageRecord(required[i].0, installedOf(required[i].0), required[i].1, packaging)]
    ensures RecordVersions(versions, required[..i + 1], installedOf)
      == OM.Put(RecordVersions(versions, required[..i], installedOf), required[i].0, installedOf(required[i].0))
  {
    assert required[..i + 1][..i] == required[..i];
  }

  /** Concatenation is associative. */
  lemma Assoc<T>(a: seq<T>, b: seq<T>, c: seq<T>)
    ensures (a + b) + c == a + (b + c)
  {
  }

  /** Records plus one all passed iff the earlier ones did and the new one did. */
  lemma AllPassedSnoc(records: seq<CheckRecord>, r: CheckRecord)
    ensures AllPassed(records + [r]) <==> AllPassed(records) && r.status
  {
    assert forall i :: 0 <= i < |records| ==> (records + [r])[i] == records[i];
    assert (records + [r])[|records|] == r;
  }

  /** The list of packages to install grows one required package at a time. */
  lemma ToInstallStep(required: OM.OMap<string, Option<string>>, versions: OM.OMap<string, Option<string>>, packaging: Packaging, i: nat)
    requires i < |required|
    ensures ToInstall(required[..i + 1], versions, packaging) ==
      if NeedsInstall(Lookup(versions, required[i].0), required[i].1, packaging)
      then OM.Put(ToInstall(required[..i], versions, packaging), required[i].0, required[i].1)
      else ToInstall(required[..i], versions, packaging)
  {
    assert required[..i + 1][..i] == required[..i];
  }

  /** The state the checks of `SystemChecker` write: the records, the failed names, the installed versions. */
  class Checker {
    var checks: seq<CheckRecord>
    var failedChecks: seq<string>
    var packageVersions: OM.OMap<string, Option<string>>

    /** `failed_checks` lists the names of the failed records, in order. */
    predicate Valid()
      reads this
    {
      failedChecks == FailedNames(checks)
    }

    constructor ()
      ensures checks == [] && failedChecks == [] && packageVersions == []
      ensures Valid()
    {
      checks := [];
      failedChecks := [];
      packageVersions := [];
    }

    /** `_add_check`: the result is always recorded, and its name listed as failed iff its status is false. */
    method AddCheck(name: string, status: bool, message: string)
      requires Valid()
      modifies this
      ensures checks == old(checks) + [CheckRecord(name, status, message)]
      ensures failedChecks == if status then old(failedChecks) else old(failedChecks) + [name]
      ensures packageVersions == old(packageVersions)
      ensures Valid()
    {
      checks := checks + [CheckRecord(name, status, message)];
      if !status {
        failedChecks := failedChecks + [name];
      }
      assert checks[..|checks| - 1] == old(checks);
    }

    /** The results of checks whose probes are not modelled, recorded one by one. */
    method AddChecks(records: seq<CheckRecord>)
      requires Valid()
      modifies this
      ensures checks == old(checks) + records
      ensures packageVersions == old(packageVersions)
      ensures Valid()
    {
      var i := 0;
      while i < |records|
        invariant 0 <= i <= |records|
        invariant checks == old(checks) + records[..i]
        invariant packageVersions == old(packageVersions)
        invariant Valid()
      {
        var record := records[i];
        AddCheck(record.name, record.status, record.message);
        Assoc(old(checks), records[..i], [record]);
        ghost var prefix := records[..i + 1];
        assert prefix == records[..i] + [record];
        i := i + 1;
      }
      assert records[..i] == records;
    }

    /** One pass of the loop of `check_required_packages`: store the installed version, record the result. */
    method CheckPackage(package: string, requiredSpec: Option<string>, installedOf: string -> Option<string>, packaging: Packaging) returns (status: bool)
      requires Valid()
      modifies this
      ensures status == PackageRecord(package, installedOf(package), requiredSpec, packaging).status
      ensures checks == old(checks) + [PackageRecord(package, installedOf(package), requiredSpec, packaging)]
      ensures packageVersions == OM.Put(old(packageVersions), package, installedOf(package))
      ensures Valid()
    {
      var installedVersion := installedOf(package);
      packageVersions := OM.Put(packageVersions, package, installedVersion);
      if installedVersion.None? {
        var requirementMsg := if Truthy(requiredSpec) then " (need " + requiredSpec.value + ")" else "";
        AddCheck("Package: " + package, false, "Chưa cài đặt" + requirementMsg);
        return false;
      }
      status := true;
      var message := installedVersion.value + " ✓";
      if Truthy(requiredSpec) {
        var versionOk := CheckVersionCompatibility(installedVersion, requiredSpec.value, packaging);
        if !versionOk {
          status := false;
          message := installedVersion.value + " (LỖI: need " + requiredSpec.value + ")";
        }
      }
      AddCheck("Package: " + package, status, message);
    }

    /**
     * `check_required_packages`: one record per required package (one
     * failure when nothing is required), the installed versions stored,
     * and true iff every record passed.
     */
    method CheckRequiredPackages(file: Option<seq<string>>, installedOf: string -> Option<string>, packaging: Packaging) returns (allOk: bool)
      requires Valid()
      modifies this
      ensures checks == old(checks) + RequiredRecords(LoadRequirements(file), installedOf, packaging)
      ensures packageVersions == RecordVersions(old(packageVersions), LoadRequirements(file), installedOf)
      ensures allOk <==> AllPassed(RequiredRecords(LoadRequirements(file), installedOf, packaging))
      ensures Valid()
    {
      var requiredPackages := LoadRequirementsFromFile(file);
      if requiredPackages == [] {
        AddCheck("Requirements File", false, "No requirements found");
        return false;
      }
      allOk := CheckEach(requiredPackages, installedOf, packaging);
    }

    /** The loop of `check_required_packages` over the required packages. */
    method CheckEach(requiredPackages: OM.OMap<string, Option<string>>, installedOf: string -> Option<string>, packaging: Packaging) returns (allOk: bool)
      requires Valid()
      modifies this
      ensures checks == old(checks) + PackageRecords(requiredPackages, installedOf, packaging)
      ensures packageVersions == RecordVersions(old(packageVersions), requiredPackages, installedOf)
      ensures allOk <==> AllPassed(PackageRecords(requiredPackages, installedOf, packaging))
      ensures Valid()
    {
      allOk := true;
      var i := 0;
      while i < |requiredPackages|
        invariant 0 <= i <= |requiredPackages|
        invariant checks == old(checks) + PackageRecords(requiredPackages[..i], installedOf, packaging)
        invariant packageVersions == RecordVersions(old(packageVersions), requiredPackages[..i], installedOf)
        invariant allOk <==> AllPassed(PackageRecords(requiredPackages[..i], installedOf, packaging))
        invariant Valid()
      {
        ghost var prefix := requiredPackages[..i + 1];
        var status := CheckNext(requiredPackages, i, installedOf, packaging, old(checks), old(packageVersions));
        allOk := allOk && status;
        i := i + 1;
        assert requiredPackages[..i] == prefix;
      }
      assert requiredPackages[..i] == requiredPackages;
    }

    /** One pass of the loop of `check_required_packages`, stated against the records so far. */
    method CheckNext(requiredPackages: OM.OMap<string, Option<string>>, i: nat, installedOf: string -> Option<string>, packaging: Packaging,
                     ghost checks0: seq<CheckRecord>, ghost versions0: OM.OMap<string, Option<string>>) returns (status: bool)
      requires i < |requiredPackages| && Valid()
      requires checks == checks0 + PackageRecords(requiredPackages[..i], installedOf, packaging)
      requires packageVersions == RecordVersions(versions0, requiredPackages[..i], installedOf)
      modifies this
      ensures checks == checks0 + PackageRecords(requiredPackages[..i + 1], installedOf, packaging)
      ensures packageVersions == RecordVersions(versions0, requiredPackages[..i + 1], installedOf)
      ensures AllPassed(PackageRecords(requiredPackages[..i + 1], installedOf, packaging))
        <==> AllPassed(PackageRecords(requiredPackages[..i], installedOf, packaging)) && status
      ensures Valid()
    {
      ghost var done := PackageRecords(requiredPackages[..i], installedOf, packaging);
      ghost var record := PackageRecord(requiredPackages[i].0, installedOf(requiredPackages[i].0), requiredPackages[i].1, packaging);
      RecordsStep(requiredPackages, versions0, installedOf, packaging, i);
      AllPassedSnoc(done, record);
      Assoc(checks0, done, [record]);
      status := CheckPackage(requiredPackages[i].0, requiredPackages[i].1, installedOf, packaging);
    }

    /**
     * `run_full_check`: the seven checks in their order (the Python
     * environment and version, the packages, then resources, network,
     * browsers and webdrivers), true iff no check failed.
     */
    method RunFullCheck(environmentChecks: seq<CheckRecord>, file: Option<seq<string>>, installedOf: string -> Option<string>, packaging: Packaging, systemChecks: seq<CheckRecord>) returns (ok: bool)
      requires Valid()
      modifies this
      ensures checks == old(checks) + environmentChecks + RequiredRecords(LoadRequirements(file), installedOf, packaging) + systemChecks
      ensures packageVersions == RecordVersions(old(packageVersions), LoadRequirements(file), installedOf)
      ensures ok <==> AllPassed(checks)
      ensures Valid()
    {
      AddChecks(environmentChecks);
      var _ := CheckRequiredPackages(file, installedOf, packaging);
      AddChecks(systemChecks);
      NoFailedNames(checks);
      ok := |failedChecks| == 0;
    }

    /** `get_packages_to_install`, against the versions stored so far. */
    method GetPackagesToInstall(file: Option<seq<string>>, packaging: Packaging) returns (packagesToInstall: OM.OMap<string, Option<string>>)
      ensures packagesToInstall == ToInstall(LoadRequirements(file), packageVersions, packaging)
    {
      var requiredPackages := LoadRequirementsFromFile(file);
      if requiredPackages == [] {
        return [];
      }
      packagesToInstall := [];
      var i := 0;
      while i < |requiredPackages|
        invariant 0 <= i <= |requiredPackages|
        invariant packagesToInstall == ToInstall(requiredPackages[..i], packageVersions, packaging)
      {
        ToInstallStep(requiredPackages, packageVersions, packaging, i);
        packagesToInstall := ConsiderPackage(packagesToInstall, requiredPackages[i].0, requiredPackages[i].1, packageVersions, packaging);
        i := i + 1;
      }
      assert requiredPackages[..i] == requiredPackages;
    }
  }

  /** One pass of the loop of `get_packages_to_install`. */
  method ConsiderPackage(packagesToInstall: OM.OMap<string, Option<string>>, package: string, requiredSpec: Option<string>,
                         packageVersions: OM.OMap<string, Option<string>>, packaging: Packaging)
    returns (next: OM.OMap<string, Option<string>>)
    ensures next == if NeedsInstall(Lookup(packageVersions, package), requiredSpec, packaging)
      then OM.Put(packagesToInstall, package, requiredSpec) else packagesToInstall
  {
    next := packagesToInstall;
    var installedVersion := Lookup(packageVersions, package);
    if installedVersion.None? {
      next := OM.Put(packagesToInstall, package, requiredSpec);
    } else if Truthy(requiredSpec) && !CheckVersionCompatibility(installedVersion, requiredSpec.value, packaging) {
      next := OM.Put(packagesToInstall, package, requiredSpec);
    }
  }
}
