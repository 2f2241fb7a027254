/**
  Versions: parsing and printing, the total order derived from the fields, and the bumps.
  Grammar and precedence are those of Semantic Versioning 2.0.0, sections 2, 9, 10 and 11.
  Pre-release and build parts are kept as text (empty when absent), as the program keeps them.
*/
module Semver {
  import opened Strings

  const U64_LIMIT: nat := 0x1_0000_0000_0000_0000
  const U32_LIMIT: nat := 0x1_0000_0000

  datatype Version = Version(major: nat, minor: nat, patch: nat, pre: string, build: string)
  datatype Semver = Semver(version: Version, useV: bool)

  // ── Identifiers ───────────────────────────────────────────────────────────

  predicate IsIdentChar(c: char) {
    IsDigit(c) || 'a' <= c <= 'z' || 'A' <= c <= 'Z' || c == '-'
  }

  predicate IsPartChar(c: char) {
    IsIdentChar(c) || c == '.'
  }

  predicate IdentOk(id: string, strict: bool) {
    id != "" && (forall i :: 0 <= i < |id| ==> IsIdentChar(id[i]))
    && (strict && AllDigits(id) && |id| > 1 ==> id[0] != '0')
  }

  /** Dot-separated identifiers; in a pre-release, numeric ones have no leading zero. */
  predicate PartOk(part: string, strict: bool) {
    (forall i :: 0 <= i < |part| ==> IsPartChar(part[i]))
    && forall i :: 0 <= i < |Split(part, '.')| ==> IdentOk(Split(part, '.')[i], strict)
  }

  predicate Numbers(v: Version) {
    v.major < U64_LIMIT && v.minor < U64_LIMIT && v.patch < U64_LIMIT
  }

  predicate Valid(v: Version) {
    Numbers(v)
    && (v.pre == "" || PartOk(v.pre, true)) && (v.build == "" || PartOk(v.build, false))
  }

  // ── Parsing ───────────────────────────────────────────────────────────────

  function DigitSpan(s: string): (n: nat)
    ensures n <= |s| && AllDigits(s[..n]) && (n < |s| ==> !IsDigit(s[n]))
    ensures forall i :: 0 <= i < n ==> IsDigit(s[i])
  {
    if s == "" || !IsDigit(s[0]) then 0
    else
      var n := DigitSpan(s[1..]);
      assert s[..n + 1] == [s[0]] + s[1..][..n];
      n + 1
  }

  function PartSpan(s: string): (n: nat)
    ensures n <= |s| && (forall i :: 0 <= i < n ==> IsPartChar(s[i])) && (n < |s| ==> !IsPartChar(s[n]))
  {
    if s == "" || !IsPartChar(s[0]) then 0 else 1 + PartSpan(s[1..])
  }

  datatype Read<T> = Read(value: T, rest: string)

  function ReadNumber(s: string): Option<Read<nat>> {
    var n := DigitSpan(s);
    if n == 0 || (n > 1 && s[0] == '0') || Value(s[..n]) >= U64_LIMIT then None
    else Some(Read(Value(s[..n]), s[n..]))
  }

  function ReadDot(s: string): Option<string> {
    if s != "" && s[0] == '.' then Some(s[1..]) else None
  }

  function ReadPart(s: string, strict: bool): Option<Read<string>> {
    var n := PartSpan(s);
    if PartOk(s[..n], strict) then Some(Read(s[..n], s[n..])) else None
  }

  function ReadPre(s: string): Option<Read<string>> {
    if s != "" && s[0] == '-' then ReadPart(s[1..], true) else Some(Read("", s))
  }

  function ReadBuild(s: string): Option<Read<string>> {
    if s != "" && s[0] == '+' then ReadPart(s[1..], false) else Some(Read("", s))
  }

  /** The text after the patch number. */
  function ReadTail(s: string): Option<(string, string)> {
    var pre := ReadPre(s);
    if pre.None? then None
    else
      var build := ReadBuild(pre.value.rest);
      if build.None? || build.value.rest != "" then None else Some((pre.value.value, build.value.value))
  }

  function ReadNumberDot(s: string): Option<Read<nat>> {
    var n := ReadNumber(s);
    if n.None? then None
    else
      var rest := ReadDot(n.value.rest);
      if rest.None? then None else Some(Read(n.value.value, rest.value))
  }

  function ParseVersion(s: string): Option<Version> {
    var major := ReadNumberDot(s);
    if major.None? then None
    else
      var minor := ReadNumberDot(major.value.rest);
      if minor.None? then None
      else
        var patch := ReadNumber(minor.value.rest);
        if patch.None? then None
        else
          var tail := ReadTail(patch.value.rest);
          if tail.None? then None
          else
            Some(Version(major.value.value, minor.value.value, patch.value.value, tail.value.0, tail.value.1))
  }

  function Parse(s: string): Option<Semver> {
    var useV := "v" <= s;
    var version := ParseVersion(if useV then s[1..] else s);
    if version.None? then None else Some(Semver(version.value, useV))
  }

  // ── Printing ──────────────────────────────────────────────────────────────

  function Marked(mark: char, part: string): string {
    if part == "" then "" else [mark] + part
  }

  function Tail(pre: string, build: string): string {
    Marked('-', pre) + Marked('+', build)
  }

  function PrintVersion(v: Version): string {
    Dec(v.major) + ("." + (Dec(v.minor) + ("." + (Dec(v.patch) + Tail(v.pre, v.build)))))
  }

  function Print(s: Semver): string {
    if s.useV then "v" + PrintVersion(s.version) else PrintVersion(s.version)
  }

  lemma {:induction false} DigitSpanOf(digits: string, rest: string)
    requires AllDigits(digits) && (rest == "" || !IsDigit(rest[0]))
    ensures DigitSpan(digits + rest) == |digits|
  {
    var s := digits + rest;
    assert forall i :: 0 <= i < |digits| ==> s[i] == digits[i];
    assert rest != "" ==> s[|digits|] == rest[0];
  }

  lemma {:induction false} PartSpanOf(part: string, rest: string)
    requires forall i :: 0 <= i < |part| ==> IsPartChar(part[i])
    requires rest == "" || !IsPartChar(rest[0])
    ensures PartSpan(part + rest) == |part|
  {
    var s := part + rest;
    assert forall i :: 0 <= i < |part| ==> s[i] == part[i];
    assert rest != "" ==> s[|part|] == rest[0];
  }

  lemma {:induction false} NumberReadsBack(n: nat, rest: string)
    requires n < U64_LIMIT && (rest == "" || !IsDigit(rest[0]))
    ensures ReadNumber(Dec(n) + rest) == Some(Read(n, rest))
  {
    DigitSpanOf(Dec(n), rest);
    ValueOfDec(n);
    var s := Dec(n) + rest;
    assert s[..|Dec(n)|] == Dec(n) && s[|Dec(n)|..] == rest;
  }

  lemma {:induction false} NumberDotReadsBack(n: nat, rest: string)
    requires n < U64_LIMIT
    ensures ReadNumberDot(Dec(n) + ("." + rest)) == Some(Read(n, rest))
  {
    NumberReadsBack(n, "." + rest);
    assert ("." + rest)[1..] == rest;
  }

  lemma {:induction false} PartReadsBack(part: string, rest: string, strict: bool)
    requires PartOk(part, strict) && (rest == "" || !IsPartChar(rest[0]))
    ensures ReadPart(part + rest, strict) == Some(Read(part, rest))
  {
    PartSpanOf(part, rest);
    assert (part + rest)[..|part|] == part && (part + rest)[|part|..] == rest;
  }

  lemma {:induction false} PartsAreNotEmpty(part: string, strict: bool)
    requires PartOk(part, strict)
    ensures part != ""
  {
    assert Split("", '.')[0] == "";
    assert IdentOk(Split(part, '.')[0], strict);
  }

  lemma {:induction false} PreReadsBack(pre: string, build: string)
    requires pre == "" || PartOk(pre, true)
    ensures ReadPre(Tail(pre, build)) == Some(Read(pre, Marked('+', build)))
  {
    var end := Marked('+', build);
    if pre != "" {
      PartReadsBack(pre, end, true);
      assert Tail(pre, build)[1..] == pre + end;
    } else {
      assert Tail(pre, build) == end;
    }
  }

  lemma {:induction false} BuildReadsBack(build: string)
    requires build == "" || PartOk(build, false)
    ensures ReadBuild(Marked('+', build)) == Some(Read(build, ""))
  {
    if build != "" {
      PartReadsBack(build, "", false);
      assert Marked('+', build)[1..] == build && build + "" == build;
    }
  }

  lemma {:induction false} TailReadsBack(pre: string, build: string)
    requires (pre == "" || PartOk(pre, true)) && (build == "" || PartOk(build, false))
    ensures ReadTail(Tail(pre, build)) == Some((pre, build))
  {
    PreReadsBack(pre, build);
    BuildReadsBack(build);
  }

  lemma {:induction false} Assembled(s: string, a: string, b: string, c: string, v: Version)
    requires ReadNumberDot(s) == Some(Read(v.major, a))
    requires ReadNumberDot(a) == Some(Read(v.minor, b))
    requires ReadNumber(b) == Some(Read(v.patch, c))
    requires ReadTail(c) == Some((v.pre, v.build))
    ensures ParseVersion(s) == Some(v)
  {
  }

  lemma {:induction false} ParsePrintVersion(v: Version)
    requires Valid(v)
    ensures ParseVersion(PrintVersion(v)) == Some(v)
  {
    var c := Tail(v.pre, v.build);
    var b := Dec(v.patch) + c;
    var a := Dec(v.minor) + ("." + b);
    NumberDotReadsBack(v.major, a);
    NumberDotReadsBack(v.minor, b);
    assert c == "" || !IsDigit(c[0]) by {
      assert c == "" || c[0] == '-' || c[0] == '+';
    }
    NumberReadsBack(v.patch, c);
    TailReadsBack(v.pre, v.build);
    Assembled(Dec(v.major) + ("." + a), a, b, c, v);
  }

  /** Every printed version parses back, with its `v`. */
  lemma {:induction false} ParsePrint(s: Semver)
    requires Valid(s.version)
    ensures Parse(Print(s)) == Some(s)
  {
    ParsePrintVersion(s.version);
    PrefixIsRead(PrintVersion(s.version), s);
  }

  lemma {:induction false} PrefixIsRead(t: string, s: Semver)
    requires ParseVersion(t) == Some(s.version)
    ensures Parse(if s.useV then "v" + t else t) == Some(s)
  {
    if s.useV {
      assert ("v" + t)[1..] == t;
    } else {
      assert DigitSpan(t) > 0;
      assert IsDigit(t[0]);
    }
  }

  lemma {:induction false} NumberPrintsBack(s: string)
    requires ReadNumber(s).Some?
    ensures var r := ReadNumber(s).value; s == Dec(r.value) + r.rest && r.value < U64_LIMIT
  {
    var n := DigitSpan(s);
    DecOfValue(s[..n]);
    assert s == s[..n] + s[n..];
  }

  lemma {:induction false} NumberDotPrintsBack(s: string)
    requires ReadNumberDot(s).Some?
    ensures var r := ReadNumberDot(s).value; s == Dec(r.value) + ("." + r.rest) && r.value < U64_LIMIT
  {
    NumberPrintsBack(s);
    var rest := ReadNumber(s).value.rest;
    assert rest == "." + rest[1..];
  }

  lemma {:induction false} PrePrintsBack(s: string)
    requires ReadPre(s).Some?
    ensures var r := ReadPre(s).value; s == Marked('-', r.value) + r.rest && (r.value == "" || PartOk(r.value, true))
  {
    if s != "" && s[0] == '-' {
      PartsAreNotEmpty(ReadPre(s).value.value, true);
      assert s == ['-'] + s[1..];
    }
  }

  lemma {:induction false} BuildPrintsBack(s: string)
    requires ReadBuild(s).Some?
    ensures var r := ReadBuild(s).value; s == Marked('+', r.value) + r.rest && (r.value == "" || PartOk(r.value, false))
  {
    if s != "" && s[0] == '+' {
      PartsAreNotEmpty(ReadBuild(s).value.value, false);
      assert s == ['+'] + s[1..];
    }
  }

  lemma {:induction false} TailPrintsBack(s: string)
    requires ReadTail(s).Some?
    ensures var (pre, build) := ReadTail(s).value;
      s == Tail(pre, build) && (pre == "" || PartOk(pre, true)) && (build == "" || PartOk(build, false))
  {
    PrePrintsBack(s);
    BuildPrintsBack(ReadPre(s).value.rest);
  }

  /** Every text that parses is the print of what it parses to. */
  lemma {:induction false} PrintParse(s: string)
    requires Parse(s).Some?
    ensures Valid(Parse(s).value.version) && Print(Parse(s).value) == s
  {
    hide ReadNumberDot, ReadNumber, ReadTail, ReadPre, ReadBuild, PartOk, Dec, Tail;
    var useV := "v" <= s;
    var t := if useV then s[1..] else s;
    assert useV ==> s == "v" + t;
    NumberDotPrintsBack(t);
    var a := ReadNumberDot(t).value.rest;
    NumberDotPrintsBack(a);
    var b := ReadNumberDot(a).value.rest;
    NumberPrintsBack(b);
    TailPrintsBack(ReadNumber(b).value.rest);
  }

  // ── The order ─────────────────────────────────────────────────────────────

  function CmpNat(a: nat, b: nat): int {
    if a < b then -1 else if a > b then 1 else 0
  }

  function CmpText(a: string, b: string): int {
    if a == "" && b == "" then 0
    else if a == "" then -1
    else if b == "" then 1
    else if a[0] != b[0] then (if a[0] < b[0] then -1 else 1)
    else CmpText(a[1..], b[1..])
  }

  /** Two pre-release identifiers, compared without reading numbers: digits by length, then text. */
  function CmpIdent(a: string, b: string): int {
    if AllDigits(a) && AllDigits(b) then
      if CmpNat(|a|, |b|) != 0 then CmpNat(|a|, |b|) else CmpText(a, b)
    else if AllDigits(a) then -1
    else if AllDigits(b) then 1
    else CmpText(a, b)
  }

  /** Digits without their leading zeros. */
  function Significant(s: string): string {
    if s != "" && s[0] == '0' then Significant(s[1..]) else s
  }

  /** Two build identifiers: numbers by value, then by their leading zeros. */
  function CmpBuildIdent(a: string, b: string): int {
    if AllDigits(a) && AllDigits(b) then
      if CmpNat(|Significant(a)|, |Significant(b)|) != 0 then CmpNat(|Significant(a)|, |Significant(b)|)
      else if CmpText(Significant(a), Significant(b)) != 0 then CmpText(Significant(a), Significant(b))
      else CmpNat(|a|, |b|)
    else if AllDigits(a) then -1
    else if AllDigits(b) then 1
    else CmpText(a, b)
  }

  type Comparison = (string, string) -> int

  /** Identifier by identifier, the shorter list first. */
  function CmpIdents(cmp: Comparison, a: seq<string>, b: seq<string>): int
    decreases |a|
  {
    if a == [] && b == [] then 0
    else if a == [] then -1
    else if b == [] then 1
    else if cmp(a[0], b[0]) != 0 then cmp(a[0], b[0])
    else CmpIdents(cmp, a[1..], b[1..])
  }

  function CmpBuild(a: string, b: string): int {
    CmpIdents(CmpBuildIdent, Split(a, '.'), Split(b, '.'))
  }

  function CmpPre(a: string, b: string): int {
    if a == "" && b == "" then 0
    else if a == "" then 1
    else if b == "" then -1
    else CmpIdents(CmpIdent, Split(a, '.'), Split(b, '.'))
  }

  /** Precedence (section 11): build metadata does not count. */
  function CmpPrecedence(a: Version, b: Version): int {
    if CmpNat(a.major, b.major) != 0 then CmpNat(a.major, b.major)
    else if CmpNat(a.minor, b.minor) != 0 then CmpNat(a.minor, b.minor)
    else if CmpNat(a.patch, b.patch) != 0 then CmpNat(a.patch, b.patch)
    else CmpPre(a.pre, b.pre)
  }

  /** The derived order: precedence, then build metadata, then `use_v`. */
  function Cmp(a: Semver, b: Semver): int {
    if CmpPrecedence(a.version, b.version) != 0 then CmpPrecedence(a.version, b.version)
    else if CmpBuild(a.version.build, b.version.build) != 0 then CmpBuild(a.version.build, b.version.build)
    else if a.useV == b.useV then 0
    else if b.useV then -1 else 1
  }

  predicate Le(a: Semver, b: Semver) {
    Cmp(a, b) <= 0
  }

  predicate Lt(a: Semver, b: Semver) {
    Cmp(a, b) < 0
  }

  lemma {:induction false} CmpTextOrder(a: string, b: string, c: string)
    ensures CmpText(a, b) == -CmpText(b, a)
    ensures CmpText(a, b) == 0 <==> a == b
    ensures CmpText(a, b) <= 0 && CmpText(b, c) <= 0 ==> CmpText(a, c) <= 0
  {
    if a != "" && b != "" {
      CmpTextOrder(a[1..], b[1..], if c == "" then c else c[1..]);
      assert a == [a[0]] + a[1..] && b == [b[0]] + b[1..];
    }
  }

  lemma {:induction false} CmpIdentOrder(a: string, b: string, c: string)
    ensures CmpIdent(a, b) == -CmpIdent(b, a)
    ensures CmpIdent(a, b) == 0 <==> a == b
    ensures CmpIdent(a, b) <= 0 && CmpIdent(b, c) <= 0 ==> CmpIdent(a, c) <= 0
  {
    CmpTextOrder(a, b, c);
  }

  /** A total order that tells different texts apart. */
  ghost predicate IsOrder(cmp: Comparison) {
    && (forall a, b :: cmp(a, b) == -cmp(b, a))
    && (forall a, b :: cmp(a, b) == 0 <==> a == b)
    && (forall a, b, c :: cmp(a, b) <= 0 && cmp(b, c) <= 0 ==> cmp(a, c) <= 0)
  }

  lemma {:induction false} PreIdentsAreOrdered()
    ensures IsOrder(CmpIdent)
  {
    forall a, b, c
      ensures CmpIdent(a, b) == -CmpIdent(b, a)
      ensures CmpIdent(a, b) == 0 <==> a == b
      ensures CmpIdent(a, b) <= 0 && CmpIdent(b, c) <= 0 ==> CmpIdent(a, c) <= 0
    {
      CmpIdentOrder(a, b, c);
    }
  }

  lemma {:induction false} ZerosAreCounted(a: string, b: string)
    requires AllDigits(a) && AllDigits(b) && Significant(a) == Significant(b) && |a| == |b|
    ensures a == b
  {
    SignificantShortens(a);
    SignificantShortens(b);
    if a == "" || (a[0] != '0' && b[0] != '0') {
    } else {
      assert a[0] == '0' && b[0] == '0';
      ZerosAreCounted(a[1..], b[1..]);
      assert a == [a[0]] + a[1..] && b == [b[0]] + b[1..];
    }
  }

  lemma {:induction false} SignificantShortens(s: string)
    ensures |Significant(s)| <= |s|
    ensures s != "" && s[0] == '0' ==> |Significant(s)| < |s|
  {
    if s == "" || s[0] != '0' {
    } else {
      SignificantShortens(s[1..]);
    }
  }

  lemma {:induction false} CmpBuildIdentOrder(a: string, b: string, c: string)
    ensures CmpBuildIdent(a, b) == -CmpBuildIdent(b, a)
    ensures CmpBuildIdent(a, b) == 0 <==> a == b
    ensures CmpBuildIdent(a, b) <= 0 && CmpBuildIdent(b, c) <= 0 ==> CmpBuildIdent(a, c) <= 0
  {
    hide Significant;
    CmpTextOrder(a, b, c);
    CmpTextOrder(Significant(a), Significant(b), Significant(c));
    CmpTextOrder(Significant(b), Significant(c), Significant(a));
    CmpTextOrder(Significant(c), Significant(a), Significant(b));
    if AllDigits(a) && AllDigits(b) && CmpBuildIdent(a, b) == 0 {
      ZerosAreCounted(a, b);
    }
  }

  lemma {:induction false} BuildIdentsAreOrdered()
    ensures IsOrder(CmpBuildIdent)
  {
    forall a, b, c
      ensures CmpBuildIdent(a, b) == -CmpBuildIdent(b, a)
      ensures CmpBuildIdent(a, b) == 0 <==> a == b
      ensures CmpBuildIdent(a, b) <= 0 && CmpBuildIdent(b, c) <= 0 ==> CmpBuildIdent(a, c) <= 0
    {
      CmpBuildIdentOrder(a, b, c);
    }
  }

  lemma {:induction false} CmpIdentsOrder(cmp: Comparison, a: seq<string>, b: seq<string>, c: seq<string>)
    requires IsOrder(cmp)
    ensures CmpIdents(cmp, a, b) == -CmpIdents(cmp, b, a)
    ensures CmpIdents(cmp, a, b) == 0 <==> a == b
    ensures CmpIdents(cmp, a, b) <= 0 && CmpIdents(cmp, b, c) <= 0 ==> CmpIdents(cmp, a, c) <= 0
    decreases |a|
  {
    if a == [] || b == [] {
    } else {
      CmpIdentsOrder(cmp, a[1..], b[1..], if c == [] then c else c[1..]);
      assert a == [a[0]] + a[1..] && b == [b[0]] + b[1..];
      assert cmp(a[0], b[0]) == -cmp(b[0], a[0]);
    }
  }

  lemma {:induction false} CmpBuildOrder(a: string, b: string, c: string)
    ensures CmpBuild(a, b) == -CmpBuild(b, a)
    ensures CmpBuild(a, b) == 0 <==> a == b
    ensures CmpBuild(a, b) <= 0 && CmpBuild(b, c) <= 0 ==> CmpBuild(a, c) <= 0
  {
    BuildIdentsAreOrdered();
    hide IsOrder, CmpIdents;
    CmpIdentsOrder(CmpBuildIdent, Split(a, '.'), Split(b, '.'), Split(c, '.'));
    JoinSplit(a, '.');
    JoinSplit(b, '.');
  }

  lemma {:induction false} CmpPreOrder(a: string, b: string, c: string)
    ensures CmpPre(a, b) == -CmpPre(b, a)
    ensures CmpPre(a, b) == 0 <==> a == b
    ensures CmpPre(a, b) <= 0 && CmpPre(b, c) <= 0 ==> CmpPre(a, c) <= 0
  {
    PreIdentsAreOrdered();
    hide IsOrder, CmpIdents;
    CmpIdentsOrder(CmpIdent, Split(a, '.'), Split(b, '.'), Split(c, '.'));
    JoinSplit(a, '.');
    JoinSplit(b, '.');
  }

  lemma {:induction false} CmpPrecedenceOrder(a: Version, b: Version, c: Version)
    ensures CmpPrecedence(a, b) == -CmpPrecedence(b, a)
    ensures CmpPrecedence(a, b) == 0 <==> a.(build := "") == b.(build := "")
    ensures CmpPrecedence(a, b) <= 0 && CmpPrecedence(b, c) <= 0 ==> CmpPrecedence(a, c) <= 0
  {
    CmpPreOrder(a.pre, b.pre, c.pre);
  }

  /** The order the selection rests on is total, and equal only on equal values. */
  lemma {:induction false} TotalOrder(a: Semver, b: Semver, c: Semver)
    ensures Cmp(a, b) == -Cmp(b, a)
    ensures Le(a, b) || Le(b, a)
    ensures Le(a, b) && Le(b, a) <==> a == b
    ensures Le(a, b) && Le(b, c) ==> Le(a, c)
    ensures Lt(a, b) <==> !Le(b, a)
  {
    hide CmpPrecedence, CmpBuild;
    CmpPrecedenceOrder(a.version, b.version, c.version);
    CmpPrecedenceOrder(b.version, c.version, a.version);
    CmpPrecedenceOrder(c.version, a.version, b.version);
    CmpBuildOrder(a.version.build, b.version.build, c.version.build);
    CmpBuildOrder(b.version.build, c.version.build, a.version.build);
    CmpBuildOrder(c.version.build, a.version.build, b.version.build);
  }

  /** A leading `v` is not transparent to the order: `1.0.0` is below `v1.0.0`. */
  lemma {:induction false} PrefixBreaksTies(v: Version)
    ensures Lt(Semver(v, false), Semver(v, true))
  {
    CmpPrecedenceOrder(v, v, v);
    CmpBuildOrder(v.build, v.build, v.build);
  }

  // ── Numeric identifiers compare as numbers (section 11.4.1) ────────────────

  function Pow10(n: nat): nat {
    if n == 0 then 1 else 10 * Pow10(n - 1)
  }

  lemma {:induction false} ValueBounds(s: string)
    requires AllDigits(s)
    ensures Value(s) < Pow10(|s|)
    ensures s != "" && s[0] != '0' ==> Pow10(|s| - 1) <= Value(s)
  {
    if s == "" {
    } else {
      ValueBounds(s[..|s| - 1]);
    }
  }

  lemma {:induction false} TimesTen(d: nat, p: nat)
    ensures 10 * (d * p) == d * (10 * p)
  {
  }

  lemma {:induction false} NextMultiple(x: nat, y: nat, p: nat)
    requires x < y
    ensures x * p + p <= y * p
  {
    assert (x + 1) * p <= y * p;
  }

  lemma {:induction false} ValueFromFront(s: string)
    requires AllDigits(s) && s != ""
    ensures Value(s) == DigitValue(s[0]) * Pow10(|s| - 1) + Value(s[1..])
  {
    var front := s[..|s| - 1];
    if |s| == 1 {
      assert front == "" && s[1..] == "";
    } else {
      ValueFromFront(front);
      var tail, last := s[1..], DigitValue(s[|s| - 1]);
      assert tail[..|tail| - 1] == front[1..];
      assert Value(tail) == 10 * Value(front[1..]) + last;
      TimesTen(DigitValue(s[0]), Pow10(|s| - 2));
      assert Value(s) == 10 * Value(front) + last;
      assert Pow10(|s| - 1) == 10 * Pow10(|s| - 2);
    }
  }

  lemma {:induction false} SameLengthDigits(a: string, b: string)
    requires AllDigits(a) && AllDigits(b) && |a| == |b|
    ensures CmpText(a, b) == CmpNat(Value(a), Value(b))
  {
    if a == "" {
    } else {
      SameLengthDigits(a[1..], b[1..]);
      ValueFromFront(a);
      ValueFromFront(b);
      ValueBounds(a[1..]);
      ValueBounds(b[1..]);
      var x, y, p := DigitValue(a[0]), DigitValue(b[0]), Pow10(|a| - 1);
      if x < y {
        NextMultiple(x, y, p);
      } else if y < x {
        NextMultiple(y, x, p);
      }
    }
  }

  lemma {:induction false} Pow10Grows(m: nat, n: nat)
    requires m <= n
    ensures Pow10(m) <= Pow10(n)
    decreases n
  {
    if m < n {
      Pow10Grows(m, n - 1);
    }
  }

  lemma {:induction false} NumericIdentsCompareAsNumbers(a: string, b: string)
    requires IdentOk(a, true) && IdentOk(b, true) && AllDigits(a) && AllDigits(b)
    ensures CmpIdent(a, b) == CmpNat(Value(a), Value(b))
  {
    if |a| == |b| {
      SameLengthDigits(a, b);
    } else {
      ValueBounds(a);
      ValueBounds(b);
      if |a| < |b| {
        Pow10Grows(|a|, |b| - 1);
      } else {
        Pow10Grows(|b|, |a| - 1);
      }
    }
  }

  // ── Precedence, rule by rule (section 11) ──────────────────────────────────

  /** Major, minor and patch decide in this order, as numbers; then a release is above its pre-releases; build
      metadata does not count. */
  lemma {:induction false} NumbersDecide(a: Version, b: Version)
    ensures a.major < b.major ==> CmpPrecedence(a, b) == -1
    ensures a.major == b.major && a.minor < b.minor ==> CmpPrecedence(a, b) == -1
    ensures a.major == b.major && a.minor == b.minor && a.patch < b.patch ==> CmpPrecedence(a, b) == -1
    ensures a.major == b.major && a.minor == b.minor && a.patch == b.patch && a.pre != "" && b.pre == "" ==>
      CmpPrecedence(a, b) == -1
    ensures a.(build := "") == b.(build := "") ==> CmpPrecedence(a, b) == 0
  {
    CmpPrecedenceOrder(a, b, a);
  }

  /** Words compare character by character in code order. */
  lemma {:induction false} TextDecides(common: string, a: string, b: string)
    ensures a == "" && b != "" ==> CmpText(common + a, common + b) == -1
    ensures a != "" && b != "" && a[0] < b[0] ==> CmpText(common + a, common + b) == -1
  {
    if common == "" {
      assert common + a == a && common + b == b;
    } else {
      assert (common + a)[1..] == common[1..] + a && (common + b)[1..] == common[1..] + b;
      TextDecides(common[1..], a, b);
    }
  }

  /** A numeric identifier is below a word; words compare as texts. */
  lemma {:induction false} WordsAreAboveNumbers(a: string, b: string)
    ensures AllDigits(a) && !AllDigits(b) ==> CmpIdent(a, b) == -1
    ensures !AllDigits(a) && !AllDigits(b) ==> CmpIdent(a, b) == CmpText(a, b)
  {
  }

  lemma {:induction false} IdentsDecide(common: seq<string>, a: seq<string>, b: seq<string>)
    ensures a == [] && b != [] ==> CmpIdents(CmpIdent, common + a, common + b) == -1
    ensures a != [] && b != [] && CmpIdent(a[0], b[0]) != 0 ==>
      CmpIdents(CmpIdent, common + a, common + b) == CmpIdent(a[0], b[0])
    decreases |common|
  {
    if common == [] {
      assert common + a == a && common + b == b;
    } else {
      assert (common + a)[1..] == common[1..] + a && (common + b)[1..] == common[1..] + b;
      CmpIdentOrder(common[0], common[0], common[0]);
      IdentsDecide(common[1..], a, b);
    }
  }

  predicate DotFree(ids: seq<string>) {
    forall i :: 0 <= i < |ids| ==> '.' !in ids[i]
  }

  /** Of two pre-releases the first different identifier decides; if there is none, the longer list is above. */
  lemma {:induction false} PreReleasesDecide(a: Version, b: Version, common: seq<string>, x: seq<string>, y: seq<string>)
    requires a.major == b.major && a.minor == b.minor && a.patch == b.patch
    requires |common + x| > 0 && |common + y| > 0 && DotFree(common + x) && DotFree(common + y)
    requires a.pre == Join(common + x, '.') && b.pre == Join(common + y, '.') && a.pre != "" && b.pre != ""
    ensures x == [] && y != [] ==> CmpPrecedence(a, b) == -1
    ensures x != [] && y != [] && CmpIdent(x[0], y[0]) != 0 ==> CmpPrecedence(a, b) == CmpIdent(x[0], y[0])
  {
    hide CmpIdents, CmpIdent, Join, Split;
    SplitJoin(common + x, '.');
    SplitJoin(common + y, '.');
    IdentsDecide(common, x, y);
  }

  /** Build identifiers: numbers before words, by value, then by their leading zeros. */
  lemma {:induction false} BuildIdentsDecide(a: string, b: string)
    ensures AllDigits(a) && !AllDigits(b) ==> CmpBuildIdent(a, b) == -1
    ensures !AllDigits(a) && !AllDigits(b) ==> CmpBuildIdent(a, b) == CmpText(a, b)
    ensures AllDigits(a) && AllDigits(b) && Significant(a) == Significant(b) ==> CmpBuildIdent(a, b) == CmpNat(|a|, |b|)
    ensures AllDigits(a) && AllDigits(b) && |Significant(a)| < |Significant(b)| ==> CmpBuildIdent(a, b) == -1
  {
    CmpTextOrder(Significant(a), Significant(b), "");
  }

  /** The derived order: precedence first, then the build, then the prefix. */
  lemma {:induction false} OrderDecides(a: Semver, b: Semver)
    ensures CmpPrecedence(a.version, b.version) < 0 ==> Lt(a, b)
    ensures CmpPrecedence(a.version, b.version) == 0 && CmpBuild(a.version.build, b.version.build) < 0 ==> Lt(a, b)
    ensures a.version == b.version && !a.useV && b.useV ==> Lt(a, b)
  {
    CmpPrecedenceOrder(a.version, b.version, a.version);
    CmpBuildOrder(a.version.build, b.version.build, "");
  }

  // ── Bumps ─────────────────────────────────────────────────────────────────

  datatype Bump = Major | Minor | Patch | Beta | Alpha

  function ParseU32(s: string): Option<nat> {
    if s == "" || !AllDigits(s) || Value(s) >= U32_LIMIT then None else Some(Value(s))
  }

  function Stage(b: Bump): string {
    if b.Beta? then "beta." else "alpha."
  }

  /** The next number of a machine word; the release build, which has no overflow checks, wraps. */
  function Next(n: nat, limit: nat): nat {
    if n + 1 == limit then 0 else n + 1
  }

  /** The bump of a counted stage; `None` where the program panics on a counter it cannot read. */
  function BumpStage(v: Version, stage: string): Option<Version> {
    if v.pre == "" || !(stage <= v.pre) then Some(v.(patch := Next(v.patch, U64_LIMIT), pre := stage + "1"))
    else
      var n := ParseU32(v.pre[|stage|..]);
      if n.None? then None else Some(v.(pre := stage + Dec(Next(n.value, U32_LIMIT))))
  }

  function Bumped(v: Version, b: Bump): Option<Version> {
    match b
    case Major => Some(v.(major := Next(v.major, U64_LIMIT), minor := 0, patch := 0, pre := ""))
    case Minor => Some(v.(minor := Next(v.minor, U64_LIMIT), patch := 0, pre := ""))
    case Patch => Some(if v.pre == "" then v.(patch := Next(v.patch, U64_LIMIT)) else v.(pre := ""))
    case Beta => BumpStage(v, "beta.")
    case Alpha => BumpStage(v, "alpha.")
  }

  class SemverCell {
    var version: Version
    var useV: bool

    constructor (s: Semver)
      ensures version == s.version && useV == s.useV
    {
      version, useV := s.version, s.useV;
    }

    method IncMajor()
      modifies this`version
      ensures Some(version) == Bumped(old(version), Major)
      ensures version.minor == 0 && version.patch == 0 && version.pre == "" && version.build == old(version).build
      ensures old(version).major + 1 < U64_LIMIT ==> version.major == old(version).major + 1
      ensures old(version).major + 1 == U64_LIMIT ==> version.major == 0
    {
      version := version.(major := Next(version.major, U64_LIMIT));
      version := version.(minor := 0);
      version := version.(patch := 0);
      version := version.(pre := "");
    }

    method IncMinor()
      modifies this`version
      ensures Some(version) == Bumped(old(version), Minor)
      ensures version.major == old(version).major && version.patch == 0 && version.pre == ""
      ensures version.build == old(version).build
      ensures old(version).minor + 1 < U64_LIMIT ==> version.minor == old(version).minor + 1
      ensures old(version).minor + 1 == U64_LIMIT ==> version.minor == 0
    {
      version := version.(minor := Next(version.minor, U64_LIMIT));
      version := version.(patch := 0);
      version := version.(pre := "");
    }

    method IncPatch()
      modifies this`version
      ensures Some(version) == Bumped(old(version), Patch)
      ensures version.major == old(version).major && version.minor == old(version).minor && version.pre == ""
      ensures version.build == old(version).build
      ensures old(version).pre != "" ==> version.patch == old(version).patch
      ensures old(version).pre == "" && old(version).patch + 1 < U64_LIMIT ==> version.patch == old(version).patch + 1
      ensures old(version).pre == "" && old(version).patch + 1 == U64_LIMIT ==> version.patch == 0
    {
      if version.pre == "" {
        version := version.(patch := Next(version.patch, U64_LIMIT));
      } else {
        version := version.(pre := "");
      }
    }

    /** `inc_beta` and `inc_alpha`: `false` stands for the panic on the counter. */
    method IncStage(b: Bump) returns (ok: bool)
      requires b.Beta? || b.Alpha?
      modifies this`version
      ensures ok == Bumped(old(version), b).Some?
      ensures ok ==> Some(version) == Bumped(old(version), b)
      ensures !ok ==> version == old(version)
      ensures version.(patch := 0, pre := "") == old(version).(patch := 0, pre := "")
      ensures var stage, was := if b == Beta then "beta." else "alpha.", old(version);
        && (!(stage <= was.pre) ==>
              ok && version.pre == stage + "1" && version.patch == if was.patch + 1 == U64_LIMIT then 0 else was.patch + 1)
        && (stage <= was.pre ==> version.patch == was.patch)
    {
      var stage := Stage(b);
      if version.pre == "" || !(stage <= version.pre) {
        version := version.(patch := Next(version.patch, U64_LIMIT));
        version := version.(pre := stage + "1");
      } else {
        var n := ParseU32(version.pre[|stage|..]);
        if n.None? {
          return false;
        }
        version := version.(pre := stage + Dec(Next(n.value, U32_LIMIT)));
      }
      return true;
    }
  }

  /** The pre-releases that bumps make: none, or a counter behind `alpha.` or `beta.`. */
  datatype Channel = Release | Counted(stage: string, n: nat)

  function PreOf(c: Channel): string {
    if c.Release? then "" else c.stage + Dec(c.n)
  }

  predicate GoodChannel(c: Channel) {
    c.Counted? ==> (c.stage == "beta." || c.stage == "alpha.")
  }

  function NextChannel(c: Channel, b: Bump): Channel {
    if !b.Beta? && !b.Alpha? then Release
    else if c.Counted? && c.stage == Stage(b) then Counted(c.stage, c.n + 1)
    else Counted(Stage(b), 1)
  }

  lemma {:induction false} StagesDiffer(c: Channel, stage: string)
    requires GoodChannel(c) && (stage == "beta." || stage == "alpha.")
    ensures stage <= PreOf(c) <==> c.Counted? && c.stage == stage
    ensures c.Counted? ==> PreOf(c)[|c.stage|..] == Dec(c.n)
  {
    if c.Counted? {
      assert PreOf(c)[0] == c.stage[0];
      if stage <= PreOf(c) {
        assert PreOf(c)[0] == stage[0];
      }
    }
  }

  lemma {:induction false} SplitCounted(stage: string, n: nat)
    requires stage == "beta." || stage == "alpha."
    ensures Split(stage + Dec(n), '.') == [stage[..|stage| - 1], Dec(n)]
    ensures PartOk(stage + Dec(n), true)
  {
    hide Dec, Value, Split;
    var word, pre := stage[..|stage| - 1], stage + Dec(n);
    assert '.' !in Dec(n);
    assert '.' !in word;
    SplitFirst(word, '.', Dec(n));
    SplitSingle(Dec(n), '.');
    assert pre == word + ['.'] + Dec(n);
    assert forall i :: 0 <= i < |pre| ==> pre[i] == if i < |stage| then stage[i] else Dec(n)[i - |stage|];
    assert !AllDigits(word) by {
      assert !IsDigit(word[0]);
    }
  }

  lemma {:induction false} SecondIdentDecides(word: string, a: string, b: string)
    requires CmpIdent(word, word) == 0
    ensures CmpIdents(CmpIdent, [word, a], [word, b]) == CmpIdent(a, b)
  {
    hide CmpIdent;
    assert [word, a][1..] == [a] && [word, b][1..] == [b];
    assert CmpIdents(CmpIdent, [a][1..], [b][1..]) == 0;
    assert CmpIdents(CmpIdent, [a], [b]) == CmpIdent(a, b);
  }

  /** Counters of one stage compare as numbers. */
  lemma {:induction false} CountersCompare(stage: string, m: nat, n: nat)
    requires stage == "beta." || stage == "alpha."
    ensures CmpPre(stage + Dec(m), stage + Dec(n)) == CmpNat(m, n)
  {
    hide Dec, Value, CmpIdent, CmpIdents, Split, CmpNat;
    SplitCounted(stage, m);
    SplitCounted(stage, n);
    var word, a, b := stage[..|stage| - 1], Dec(m), Dec(n);
    CmpIdentOrder(word, word, word);
    NumericIdentsCompareAsNumbers(a, b);
    ValueOfDec(m);
    ValueOfDec(n);
    SecondIdentDecides(word, a, b);
  }

  lemma {:induction false} RaisedToRelease(pre: string)
    ensures pre != "" ==> CmpPre(pre, "") == -1
    ensures CmpPre("", "") == 0
  {
  }

  /** The machine arithmetic of this one bump stays in range. */
  predicate InRange(v: Version, c: Channel, b: Bump) {
    match b
    case Major => v.major + 1 < U64_LIMIT
    case Minor => v.minor + 1 < U64_LIMIT
    case Patch => c.Release? ==> v.patch + 1 < U64_LIMIT
    case _ =>
      if c.Counted? && c.stage == Stage(b) then c.n + 1 < U32_LIMIT else v.patch + 1 < U64_LIMIT
  }

  /** What one bump of a version on a channel does: no panic, the next channel, a strictly higher
      precedence, the same build, and numbers in range. */
  predicate StepsTo(v: Version, c: Channel, b: Bump, r: Option<Version>) {
    && r.Some?
    && r.value.pre == PreOf(NextChannel(c, b)) && GoodChannel(NextChannel(c, b))
    && CmpPrecedence(v, r.value) < 0
    && r.value.build == v.build
    && (Numbers(v) ==> Numbers(r.value))
  }

  lemma {:induction false} BumpStageOf(v: Version, c: Channel, stage: string)
    requires GoodChannel(c) && v.pre == PreOf(c)
    requires stage == "beta." || stage == "alpha."
    requires c.Counted? && c.stage == stage ==> c.n + 1 < U32_LIMIT
    ensures BumpStage(v, stage) == Some(
      if c.Counted? && c.stage == stage then v.(pre := stage + Dec(c.n + 1))
      else v.(patch := Next(v.patch, U64_LIMIT), pre := stage + "1"))
  {
    StagesDiffer(c, stage);
    if c.Counted? && c.stage == stage {
      ValueOfDec(c.n);
      hide Dec, Value, PreOf;
      assert ParseU32(v.pre[|stage|..]) == Some(c.n);
    }
  }

  lemma {:induction false} PreOfNext(c: Channel, b: Bump)
    requires b.Beta? || b.Alpha?
    ensures PreOf(NextChannel(c, b)) == Stage(b) +
      if c.Counted? && c.stage == Stage(b) then Dec(c.n + 1) else Dec(1)
    ensures c.Counted? ==> PreOf(c) == c.stage + Dec(c.n)
  {
    hide Dec;
  }

  lemma {:induction false} StageStep(v: Version, c: Channel, b: Bump)
    requires b.Beta? || b.Alpha?
    requires GoodChannel(c) && v.pre == PreOf(c) && InRange(v, c, b)
    ensures StepsTo(v, c, b, BumpStage(v, Stage(b)))
  {
    assert Dec(1) == "1";
    hide Dec, CmpPre, BumpStage, PreOf, Value;
    BumpStageOf(v, c, Stage(b));
    PreOfNext(c, b);
    if c.Counted? && c.stage == Stage(b) {
      CountersCompare(c.stage, c.n, c.n + 1);
    }
  }

  lemma {:induction false} BumpStep(v: Version, c: Channel, b: Bump)
    requires GoodChannel(c) && v.pre == PreOf(c) && InRange(v, c, b)
    ensures StepsTo(v, c, b, Bumped(v, b))
  {
    hide Dec, Value, CmpPre, BumpStage;
    RaisedToRelease(v.pre);
    if b.Beta? || b.Alpha? {
      hide StepsTo;
      StageStep(v, c, b);
    }
  }

  function BumpedAll(v: Version, bs: seq<Bump>): Option<Version> {
    if bs == [] then Some(v)
    else
      var before := BumpedAll(v, bs[..|bs| - 1]);
      if before.None? then None else Bumped(before.value, bs[|bs| - 1])
  }

  function ChannelAfter(c: Channel, bs: seq<Bump>): Channel {
    if bs == [] then c else NextChannel(ChannelAfter(c, bs[..|bs| - 1]), bs[|bs| - 1])
  }

  /** No bump of the run leaves the machine's ranges. */
  predicate RunInRange(v: Version, c: Channel, bs: seq<Bump>) {
    if bs == [] then true
    else
      var front, b := bs[..|bs| - 1], bs[|bs| - 1];
      && RunInRange(v, c, front)
      && (BumpedAll(v, front).Some? ==> InRange(BumpedAll(v, front).value, ChannelAfter(c, front), b))
  }

  lemma {:induction false} PrefixInRange(v: Version, c: Channel, bs: seq<Bump>, i: nat)
    requires RunInRange(v, c, bs) && i <= |bs|
    ensures RunInRange(v, c, bs[..i])
    decreases |bs|
  {
    if i == |bs| {
      assert bs[..i] == bs;
    } else {
      PrefixInRange(v, c, bs[..|bs| - 1], i);
      assert bs[..|bs| - 1][..i] == bs[..i];
    }
  }

  lemma {:induction false} BumpRunInvariant(v: Version, c: Channel, bs: seq<Bump>)
    requires Numbers(v) && GoodChannel(c) && v.pre == PreOf(c) && RunInRange(v, c, bs)
    ensures BumpedAll(v, bs).Some?
    ensures var w, d := BumpedAll(v, bs).value, ChannelAfter(c, bs);
      GoodChannel(d) && w.pre == PreOf(d) && w.build == v.build && Numbers(w)
  {
    if bs == [] {
    } else {
      hide Bumped, InRange, CmpPrecedence, PreOf;
      BumpRunInvariant(v, c, bs[..|bs| - 1]);
      BumpStep(BumpedAll(v, bs[..|bs| - 1]).value, ChannelAfter(c, bs[..|bs| - 1]), bs[|bs| - 1]);
    }
  }

  /** Step `i` of the run neither panics nor lowers or keeps the precedence. */
  ghost predicate StepsUp(v: Version, bs: seq<Bump>, i: nat)
    requires i < |bs|
  {
    BumpedAll(v, bs[..i]).Some? && BumpedAll(v, bs[..i + 1]).Some?
    && CmpPrecedence(BumpedAll(v, bs[..i]).value, BumpedAll(v, bs[..i + 1]).value) < 0
  }

  lemma {:induction false} StepUp(v: Version, c: Channel, bs: seq<Bump>, i: nat)
    requires Numbers(v) && GoodChannel(c) && v.pre == PreOf(c) && RunInRange(v, c, bs) && i < |bs|
    ensures StepsUp(v, bs, i)
  {
    hide Bumped, CmpPrecedence, Numbers, InRange, PreOf;
    PrefixInRange(v, c, bs, i);
    PrefixInRange(v, c, bs, i + 1);
    BumpRunInvariant(v, c, bs[..i]);
    assert bs[..i + 1][..i] == bs[..i];
    BumpStep(BumpedAll(v, bs[..i]).value, ChannelAfter(c, bs[..i]), bs[i]);
  }

  /** Every sequence of bumps without an overflow stays among these versions, never panics, and raises the
      precedence at every step; its result still prints and parses back. */
  lemma {:induction false} BumpRun(v: Version, c: Channel, bs: seq<Bump>, useV: bool)
    requires Valid(v) && GoodChannel(c) && v.pre == PreOf(c) && RunInRange(v, c, bs)
    ensures BumpedAll(v, bs).Some?
    ensures forall i :: 0 <= i < |bs| ==> StepsUp(v, bs, i)
    ensures var s := Semver(BumpedAll(v, bs).value, useV); Valid(s.version) && Parse(Print(s)) == Some(s)
  {
    hide StepsUp, BumpedAll, ChannelAfter, Parse, Print, PartOk, Dec, RunInRange;
    forall i | 0 <= i < |bs| ensures StepsUp(v, bs, i) {
      StepUp(v, c, bs, i);
    }
    BumpRunInvariant(v, c, bs);
    var d := ChannelAfter(c, bs);
    if d.Counted? {
      SplitCounted(d.stage, d.n);
    }
    ParsePrint(Semver(BumpedAll(v, bs).value, useV));
  }

  /** A stage bump panics exactly on a pre-release of that stage that is not the stage and a 32-bit counter. */
  lemma {:induction false} StagePanicsIff(v: Version, stage: string)
    requires stage == "beta." || stage == "alpha."
    requires v.pre == "" || PartOk(v.pre, true)
    ensures BumpStage(v, stage).None? <==>
      stage <= v.pre && forall n: nat | n < U32_LIMIT :: v.pre != stage + Dec(n)
  {
    if stage <= v.pre {
      var rest := v.pre[|stage|..];
      assert v.pre == stage + rest;
      forall n: nat | v.pre == stage + Dec(n) ensures ParseU32(rest) == if n < U32_LIMIT then Some(n) else None {
        assert rest == Dec(n);
        ValueOfDec(n);
      }
      if ParseU32(rest).Some? {
        CounterIsPrinted(stage, rest);
      }
    }
  }

  /** An overflowing stage counter: the bump panics, or wraps and goes down. */
  lemma {:induction false} CounterOverflows(v: Version, c: Channel)
    requires GoodChannel(c) && c.Counted? && v.pre == PreOf(c) && c.n + 1 >= U32_LIMIT
    ensures BumpStage(v, c.stage).Some? ==> CmpPrecedence(v, BumpStage(v, c.stage).value) > 0
  {
    hide Dec, Value, CmpPre;
    StagesDiffer(c, c.stage);
    ValueOfDec(c.n);
    CountersCompare(c.stage, c.n, 0);
  }

  lemma {:induction false} OverflowGoesDown(v: Version, c: Channel, b: Bump)
    requires Numbers(v) && GoodChannel(c) && v.pre == PreOf(c) && !InRange(v, c, b)
    ensures Bumped(v, b).Some? ==> CmpPrecedence(v, Bumped(v, b).value) > 0
  {
    hide Dec, Value, CmpPre;
    if b.Beta? || b.Alpha? {
      StagesDiffer(c, Stage(b));
      if c.Counted? && c.stage == Stage(b) {
        CounterOverflows(v, c);
      }
    }
  }

  /** In the release build a bump of these versions raises the precedence exactly when it does not overflow. */
  lemma {:induction false} BumpRaisesIff(v: Version, c: Channel, b: Bump)
    requires Numbers(v) && GoodChannel(c) && v.pre == PreOf(c)
    ensures Bumped(v, b).Some? && CmpPrecedence(v, Bumped(v, b).value) < 0 <==> InRange(v, c, b)
  {
    hide Bumped, CmpPrecedence, InRange, PreOf;
    if InRange(v, c, b) {
      BumpStep(v, c, b);
    } else {
      OverflowGoesDown(v, c, b);
    }
  }

  /** A counter of a valid pre-release is printed without leading zeros. */
  lemma {:induction false} CounterIsPrinted(stage: string, rest: string)
    requires stage == "beta." || stage == "alpha."
    requires rest != "" && AllDigits(rest) && PartOk(stage + rest, true)
    ensures rest == Dec(Value(rest))
  {
    var word := stage[..|stage| - 1];
    assert stage + rest == word + ['.'] + rest;
    assert '.' !in word && '.' !in rest;
    SplitFirst(word, '.', rest);
    SplitSingle(rest, '.');
    var parts := Split(stage + rest, '.');
    assert parts == [word, rest];
    assert IdentOk(parts[1], true);
    DecOfValue(rest);
  }
}
