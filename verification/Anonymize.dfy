/**
  The secret scrubber: every secret is replaced in turn inside one buffer.
  The main result says exactly which secrets can never be found in the final text,
  whatever the text, the other secrets and their order.
*/
module Anonymize {
  import opened Strings

  const ANONYMIZED_TEXT: string := "<anonymized>"
  const MIN_SECRET_LEN: nat := 8
  const COMMON_DENYLIST: seq<string> :=
    ["true", "false", "default", "vynil", "system", "kubernetes", "cluster", "enabled", "disabled",
     "password", "username"]

  ghost predicate OccursAt(s: string, text: string, k: int) {
    0 <= k && k + |s| <= |text| && text[k..k + |s|] == s
  }

  ghost predicate Occurs(s: string, text: string) {
    exists k :: OccursAt(s, text, k)
  }

  // ── `str::matches(pat).count()` and `str::replace(pat, marker)` ───────────

  /** Leftmost, non-overlapping matches; the scan goes on after each match. */
  function Matches(text: string, pat: string): nat
    requires pat != ""
  {
    if |text| < |pat| then 0
    else if pat <= text then 1 + Matches(text[|pat|..], pat)
    else Matches(text[1..], pat)
  }

  function Replace(text: string, pat: string): string
    requires pat != ""
  {
    if |text| < |pat| then text
    else if pat <= text then ANONYMIZED_TEXT + Replace(text[|pat|..], pat)
    else [text[0]] + Replace(text[1..], pat)
  }

  lemma {:induction false} NoMatchNoChange(text: string, pat: string)
    requires pat != "" && Matches(text, pat) == 0
    ensures Replace(text, pat) == text
  {
    if |text| >= |pat| {
      NoMatchNoChange(text[1..], pat);
    }
  }

  lemma {:induction false} MatchesIffOccurs(text: string, pat: string)
    requires pat != ""
    ensures Matches(text, pat) > 0 <==> Occurs(pat, text)
  {
    if |text| < |pat| {
    } else if pat <= text {
      assert OccursAt(pat, text, 0);
    } else {
      MatchesIffOccurs(text[1..], pat);
      if Occurs(pat, text[1..]) {
        var k :| OccursAt(pat, text[1..], k);
        assert OccursAt(pat, text, k + 1);
      }
      if Occurs(pat, text) {
        var k :| OccursAt(pat, text, k);
        assert k > 0;
        assert OccursAt(pat, text[1..], k - 1);
      }
    }
  }

  /** The pieces of a text, with `sep` between them. */
  function Joined(pieces: seq<string>, sep: string): string
    requires pieces != []
  {
    if |pieces| == 1 then pieces[0] else pieces[0] + sep + Joined(pieces[1..], sep)
  }

  /** No match begins before the end of its piece: every match is the leftmost of what is left. */
  ghost predicate Leftmost(pieces: seq<string>, pat: string)
    requires pieces != []
  {
    forall i :: 0 <= i < |pieces| ==>
      forall k :: 0 <= k < |pieces[i]| ==> !OccursAt(pat, Joined(pieces[i..], pat), k)
  }

  /** Replacing is cutting the text at its leftmost non-overlapping matches and putting the marker into every cut;
      the count is the number of cuts. */
  lemma {:induction false} ReplacedAtLeftmostMatches(text: string, pat: string) returns (pieces: seq<string>)
    requires pat != ""
    ensures |pieces| == Matches(text, pat) + 1
    ensures Joined(pieces, pat) == text && Joined(pieces, ANONYMIZED_TEXT) == Replace(text, pat)
    ensures Leftmost(pieces, pat)
  {
    hide Leftmost;
    if |text| < |pat| {
      pieces := [text];
      ShortIsLeftmost(text, pat);
    } else if pat <= text {
      var rest := ReplacedAtLeftmostMatches(text[|pat|..], pat);
      pieces := [""] + rest;
      assert pieces[1..] == rest;
      assert "" + pat + Joined(rest, pat) == text;
      assert "" + ANONYMIZED_TEXT + Joined(rest, ANONYMIZED_TEXT) == Replace(text, pat);
      LeftmostAfter("", rest, pat);
    } else {
      var rest := ReplacedAtLeftmostMatches(text[1..], pat);
      var first := [text[0]] + rest[0];
      pieces := [first] + rest[1..];
      assert pieces[1..] == rest[1..];
      JoinedFirst(text[0], rest, pat);
      JoinedFirst(text[0], rest, ANONYMIZED_TEXT);
      assert [text[0]] + text[1..] == text;
      LongerFirst(text[0], rest, pat);
    }
  }

  lemma {:induction false} ShortIsLeftmost(text: string, pat: string)
    requires |text| < |pat|
    ensures Leftmost([text], pat)
  {
    assert [text][0..] == [text];
  }

  lemma {:induction false} JoinedFirst(c: char, rest: seq<string>, sep: string)
    requires rest != []
    ensures Joined([[c] + rest[0]] + rest[1..], sep) == [c] + Joined(rest, sep)
  {
    var pieces := [[c] + rest[0]] + rest[1..];
    assert pieces[1..] == rest[1..];
    if |rest| > 1 {
      assert ([c] + rest[0]) + sep + Joined(rest[1..], sep) == [c] + (rest[0] + sep + Joined(rest[1..], sep));
    }
  }

  lemma {:induction false} LeftmostAfter(first: string, rest: seq<string>, pat: string)
    requires rest != [] && Leftmost(rest, pat)
    requires forall k :: 0 <= k < |first| ==> !OccursAt(pat, Joined([first] + rest, pat), k)
    ensures Leftmost([first] + rest, pat)
  {
    var pieces := [first] + rest;
    forall i | 0 <= i < |pieces|
      ensures forall k :: 0 <= k < |pieces[i]| ==> !OccursAt(pat, Joined(pieces[i..], pat), k)
    {
      if i == 0 {
        assert pieces[0..] == pieces;
      } else {
        assert pieces[i..] == rest[i - 1..] && pieces[i] == rest[i - 1];
      }
    }
  }

  lemma {:induction false} LongerFirst(c: char, rest: seq<string>, pat: string)
    requires rest != [] && Leftmost(rest, pat) && pat != ""
    requires !(pat <= [c] + Joined(rest, pat))
    ensures Leftmost([[c] + rest[0]] + rest[1..], pat)
  {
    var pieces := [[c] + rest[0]] + rest[1..];
    var text, tail := Joined(pieces, pat), Joined(rest, pat);
    JoinedFirst(c, rest, pat);
    assert rest[0..] == rest && pieces[0..] == pieces;
    forall i | 0 <= i < |pieces|
      ensures forall k :: 0 <= k < |pieces[i]| ==> !OccursAt(pat, Joined(pieces[i..], pat), k)
    {
      if i == 0 {
        forall k | 0 <= k < |pieces[0]| ensures !OccursAt(pat, text, k) {
          if k == 0 {
            assert |pat| <= |text| ==> text[0..|pat|] == text[..|pat|];
          } else {
            assert !OccursAt(pat, tail, k - 1);
            assert k + |pat| <= |text| ==> text[k..k + |pat|] == tail[k - 1..k - 1 + |pat|];
          }
        }
      } else {
        assert pieces[i..] == rest[i..] && pieces[i] == rest[i];
      }
    }
  }

  lemma {:induction false} OneMore(m: nat, d: int)
    ensures (1 + m) * d == d + m * d
  {
  }

  lemma {:induction false} ReplacedLength(text: string, pat: string)
    requires pat != ""
    ensures |Replace(text, pat)| == |text| + Matches(text, pat) * (|ANONYMIZED_TEXT| - |pat|)
  {
    if |text| < |pat| {
    } else if pat <= text {
      ReplacedLength(text[|pat|..], pat);
      OneMore(Matches(text[|pat|..], pat), |ANONYMIZED_TEXT| - |pat|);
    } else {
      ReplacedLength(text[1..], pat);
    }
  }

  // ── The scrubbing loop ────────────────────────────────────────────────────

  function ScrubOne(text: string, secret: string): string {
    if secret == "" then text else Replace(text, secret)
  }

  function CountOne(text: string, secret: string): nat {
    if secret == "" then 0 else Matches(text, secret)
  }

  function Scrubbed(text: string, secrets: seq<string>): string
    decreases |secrets|
  {
    if secrets == [] then text else Scrubbed(ScrubOne(text, secrets[0]), secrets[1..])
  }

  /** How often each secret was found, at its turn. */
  function Counts(text: string, secrets: seq<string>): (counts: seq<nat>)
    ensures |counts| == |secrets|
    decreases |secrets|
  {
    if secrets == [] then []
    else [CountOne(text, secrets[0])] + Counts(ScrubOne(text, secrets[0]), secrets[1..])
  }

  function Sum(counts: seq<nat>): nat {
    if counts == [] then 0 else counts[0] + Sum(counts[1..])
  }

  function Positives(counts: seq<nat>): nat {
    if counts == [] then 0 else (if counts[0] > 0 then 1 else 0) + Positives(counts[1..])
  }

  /** The count of a secret is the number of its matches in what the secrets before it left. */
  lemma {:induction false} CountAtItsTurn(text: string, secrets: seq<string>, i: nat)
    requires i < |secrets|
    ensures Counts(text, secrets)[i] == CountOne(Scrubbed(text, secrets[..i]), secrets[i])
    decreases |secrets|
  {
    hide CountOne, ScrubOne;
    if i == 0 {
      assert secrets[..0] == [];
    } else {
      CountAtItsTurn(ScrubOne(text, secrets[0]), secrets[1..], i - 1);
      assert secrets[..i][1..] == secrets[1..][..i - 1] && secrets[..i][0] == secrets[0];
    }
  }

  /** The distinct count is the number of secrets that were found. */
  lemma {:induction false} PositivesAreFound(counts: seq<nat>)
    ensures Positives(counts) == |set i | 0 <= i < |counts| && counts[i] > 0|
  {
    var found := set i | 0 <= i < |counts| && counts[i] > 0;
    if counts == [] {
      assert found == {};
    } else {
      var tail := counts[1..];
      var later := set i | 0 <= i < |tail| && tail[i] > 0;
      PositivesAreFound(tail);
      var shifted := set i | i in later :: i + 1;
      ShiftedSize(later);
      forall i ensures i in found <==> (i == 0 && counts[0] > 0) || i in shifted {
        if i in found && i > 0 {
          assert i - 1 in later;
        }
      }
      assert found == (if counts[0] > 0 then {0} else {}) + shifted;
    }
  }

  lemma {:induction false} ShiftedSize(xs: set<int>)
    ensures |set i | i in xs :: i + 1| == |xs|
  {
    var shifted := set i | i in xs :: i + 1;
    if x :| x in xs {
      var fewer := xs - {x};
      ShiftedSize(fewer);
      var less := set i | i in fewer :: i + 1;
      forall y ensures y in shifted <==> y in less || y == x + 1 {
        if y in shifted && y != x + 1 {
          assert y - 1 in fewer;
        }
        if y == x + 1 {
          assert y - 1 in xs;
        }
      }
      assert shifted == less + {x + 1} && x + 1 !in less;
    } else {
      assert forall y :: y !in xs && y !in shifted;
      assert |xs| == 0 && |shifted| == 0;
    }
  }

  /** The occurrences are the counts, one added to the other. */
  lemma {:induction false} SumOfParts(a: seq<nat>, b: seq<nat>, n: nat)
    ensures Sum(a + b) == Sum(a) + Sum(b) && Sum([n]) == n
  {
    assert [n][1..] == [];
    if a == [] {
      assert a + b == b;
    } else {
      assert (a + b)[1..] == a[1..] + b;
      SumOfParts(a[1..], b, n);
    }
  }

  datatype ScrubStats = ScrubStats(distinct: nat, occurrences: nat)

  method ScrubSecrets(text: string, secrets: seq<string>) returns (result: string, stats: ScrubStats)
    ensures result == Scrubbed(text, secrets)
    ensures stats.occurrences == Sum(Counts(text, secrets))
    ensures stats.distinct == Positives(Counts(text, secrets))
    ensures forall s | s in secrets && s != "" && !Clashes(s) :: !Occurs(s, result)
  {
    result := text;
    var distinct, occurrences := 0, 0;
    for i := 0 to |secrets|
      invariant Scrubbed(result, secrets[i..]) == Scrubbed(text, secrets)
      invariant occurrences + Sum(Counts(result, secrets[i..])) == Sum(Counts(text, secrets))
      invariant distinct + Positives(Counts(result, secrets[i..])) == Positives(Counts(text, secrets))
    {
      var secret := secrets[i];
      assert secrets[i..][1..] == secrets[i + 1..];
      if secret == "" {
        continue;
      }
      var count := Matches(result, secret);
      if count > 0 {
        result := Replace(result, secret);
        distinct := distinct + 1;
        occurrences := occurrences + count;
      } else {
        NoMatchNoChange(result, secret);
      }
    }
    stats := ScrubStats(distinct, occurrences);
    forall s | s in secrets && s != "" && !Clashes(s) ensures !Occurs(s, result) {
      NoSecretSurvives(text, secrets, s);
    }
  }

  // ── Which secrets can come back ───────────────────────────────────────────

  /** The marker, laid over `s` with its first character at offset `d`, agrees with `s` on all the
      positions they share, and they share one. */
  predicate ClashesAt(s: string, d: int) {
    -|ANONYMIZED_TEXT| < d < |s|
    && forall i :: 0 <= i < |s| && 0 <= i - d < |ANONYMIZED_TEXT| ==> s[i] == ANONYMIZED_TEXT[i - d]
  }

  predicate Clashes(s: string) {
    exists d | -|ANONYMIZED_TEXT| < d < |s| :: ClashesAt(s, d)
  }

  lemma {:induction false} PrefixOfReplaced(text: string, pat: string, u: string)
    requires pat != "" && u <= Replace(text, pat)
    ensures u <= text || exists d :: 0 <= d && ClashesAt(u, d)
  {
    if |text| < |pat| || u == "" {
    } else if pat <= text {
      assert ClashesAt(u, 0);
    } else {
      PrefixOfReplaced(text[1..], pat, u[1..]);
      if u[1..] <= text[1..] {
        assert u == [u[0]] + u[1..] && text == [text[0]] + text[1..];
      } else {
        var d :| 0 <= d && ClashesAt(u[1..], d);
        assert forall i :: 1 <= i < |u| ==> u[i] == u[1..][i - 1];
        assert ClashesAt(u, d + 1);
      }
    }
  }

  lemma {:induction false} MarkerCannotHide(rest: string, s: string, k: int)
    requires OccursAt(s, ANONYMIZED_TEXT + rest, k) && k < |ANONYMIZED_TEXT| && s != ""
    ensures Clashes(s)
  {
    var out := ANONYMIZED_TEXT + rest;
    assert forall i :: 0 <= i < |s| ==> s[i] == out[k..k + |s|][i] == out[k + i];
    assert ClashesAt(s, -k);
  }

  lemma {:induction false} OccursShift(s: string, front: string, rest: string, k: int)
    requires OccursAt(s, rest, k)
    ensures OccursAt(s, front + rest, k + |front|)
  {
    assert (front + rest)[k + |front|..k + |front| + |s|] == rest[k..k + |s|];
  }

  lemma {:induction false} OccursUnshift(s: string, front: string, rest: string, k: int)
    requires OccursAt(s, front + rest, k) && k >= |front|
    ensures OccursAt(s, rest, k - |front|)
  {
    assert (front + rest)[k..k + |s|] == rest[k - |front|..k - |front| + |s|];
  }

  /** Replacing `pat` leaves no trace of a clash-free `s` that was not there before, and none at all
      when `pat` is `s`. */
  lemma {:induction false} ReplaceCreatesNothing(text: string, pat: string, s: string, k: int)
    requires pat != "" && s != "" && !Clashes(s)
    requires OccursAt(s, Replace(text, pat), k)
    ensures Occurs(s, text) && s != pat
  {
    if |text| < |pat| {
    } else if pat <= text {
      var rest := text[|pat|..];
      if k < |ANONYMIZED_TEXT| {
        MarkerCannotHide(Replace(rest, pat), s, k);
      } else {
        OccursUnshift(s, ANONYMIZED_TEXT, Replace(rest, pat), k);
        ReplaceCreatesNothing(rest, pat, s, k - |ANONYMIZED_TEXT|);
        var j :| OccursAt(s, rest, j);
        OccursShift(s, pat, rest, j);
        assert text == pat + rest;
      }
    } else if k == 0 {
      PrefixOfReplaced(text, pat, s);
      assert OccursAt(s, text, 0);
    } else {
      var rest := text[1..];
      OccursUnshift(s, [text[0]], Replace(rest, pat), k);
      ReplaceCreatesNothing(rest, pat, s, k - 1);
      var j :| OccursAt(s, rest, j);
      OccursShift(s, [text[0]], rest, j);
      assert text == [text[0]] + rest;
    }
  }

  lemma {:induction false} AbsentStaysAbsent(text: string, secrets: seq<string>, s: string)
    requires s != "" && !Clashes(s) && !Occurs(s, text)
    ensures !Occurs(s, Scrubbed(text, secrets))
    decreases |secrets|
  {
    if secrets == [] {
    } else {
      var next := ScrubOne(text, secrets[0]);
      if Occurs(s, next) {
        var k :| OccursAt(s, next, k);
        ReplaceCreatesNothing(text, secrets[0], s, k);
      }
      AbsentStaysAbsent(next, secrets[1..], s);
    }
  }

  lemma {:induction false} NoSecretSurvives(text: string, secrets: seq<string>, s: string)
    requires s in secrets && s != "" && !Clashes(s)
    ensures !Occurs(s, Scrubbed(text, secrets))
    decreases |secrets|
  {
    var next := ScrubOne(text, secrets[0]);
    if secrets[0] == s {
      if Occurs(s, next) {
        var k :| OccursAt(s, next, k);
        ReplaceCreatesNothing(text, s, s, k);
      }
      AbsentStaysAbsent(next, secrets[1..], s);
    } else {
      NoSecretSurvives(next, secrets[1..], s);
    }
  }

  /** Nothing but copies of `c`. */
  predicate IsBlock(block: string, c: char) {
    block != "" && forall i :: 0 <= i < |block| ==> block[i] == c
  }

  lemma {:induction false} ReplaceBlock(p: string, block: string, c: char, q: string)
    requires IsBlock(block, c) && c !in p && c !in q
    ensures Replace(p + block + q, block) == p + ANONYMIZED_TEXT + q
  {
    var text := p + block + q;
    if p == "" {
      assert text == block + q && text[|block|..] == q;
      forall k ensures !OccursAt(block, q, k) {
        if 0 <= k && k + |block| <= |q| {
          assert q[k..k + |block|][0] == q[k] && block[0] == c;
        }
      }
      MatchesIffOccurs(q, block);
      NoMatchNoChange(q, block);
      assert "" + ANONYMIZED_TEXT + q == ANONYMIZED_TEXT + q;
    } else {
      assert text[0] == p[0] && text[1..] == p[1..] + block + q;
      assert block[0] == c;
      ReplaceBlock(p[1..], block, c, q);
      assert [p[0]] + (p[1..] + ANONYMIZED_TEXT + q) == p + ANONYMIZED_TEXT + q;
    }
  }

  lemma {:induction false} ScrubbedTwo(text: string, a: string, b: string)
    ensures Scrubbed(text, [a]) == ScrubOne(text, a)
    ensures Scrubbed(text, [a, b]) == ScrubOne(ScrubOne(text, a), b)
  {
    var next, one, two := ScrubOne(text, a), [b], [a, b];
    assert [a][1..] == [] && one[1..] == [] && two[1..] == one;
    assert Scrubbed(next, one) == Scrubbed(ScrubOne(next, b), []);
    assert Scrubbed(text, two) == Scrubbed(next, one);
  }

  lemma {:induction false} AroundBlock(p: string, block: string, c: char, q: string, s: string)
    requires IsBlock(block, c) && c !in s && s != "" && |s| > |p| && |s| > |q|
    ensures !Occurs(s, p + block + q)
  {
    var text := p + block + q;
    forall k ensures !OccursAt(s, text, k) {
      if 0 <= k && k + |s| <= |text| {
        var i := if k <= |p| then |p| else k;
        assert text[i] == block[i - |p|] == c;
        assert text[k..k + |s|][i - k] == c;
      }
    }
  }

  /** The program scrubs the members of a set, in whatever order, that pass the domain check. */
  ghost predicate Collected(secrets: seq<string>) {
    && (forall s | s in secrets :: IsScrubbable(s))
    && (forall i, j :: 0 <= i < j < |secrets| ==> secrets[i] != secrets[j])
  }

  /** A run that leaks a clashing secret: the part of `s` that the marker can stand for is hidden
      behind another secret, eight copies of a character `s` does not have, which is scrubbed after `s`. */
  lemma {:induction false} ClashLeaks(s: string, d: int, c: char) returns (text: string, secrets: seq<string>)
    requires IsScrubbable(s) && ClashesAt(s, d) && c !in s
    ensures Collected(secrets) && s in secrets && Occurs(s, Scrubbed(text, secrets))
  {
    hide IsScrubbable;
    ScrubbableIsNotEmpty(s);
    var n := |ANONYMIZED_TEXT|;
    var p := if d > 0 then s[..d] else "";
    var q := if d + n < |s| then s[d + n..] else "";
    if p == "" && q == "" {
      text, secrets := s, [s];
      PartLeaks(s, -d);
    } else {
      hide Replace, Matches, Occurs, Scrubbed;
      var block := [c, c, c, c, c, c, c, c];
      BlockIsScrubbable(block, c);
      text, secrets := p + block + q, [s, block];
      assert block[0] == c;
      ScrubbedTwo(text, s, block);
      AroundBlock(p, block, c, q, s);
      MatchesIffOccurs(text, s);
      NoMatchNoChange(text, s);
      ReplaceBlock(p, block, c, q);
      MarkerFills(s, d, p, q);
    }
  }

  /** A part of the marker is what it is replaced by. */
  lemma {:induction false} PartLeaks(s: string, at: nat)
    requires s != "" && at + |s| <= |ANONYMIZED_TEXT| && forall i :: 0 <= i < |s| ==> s[i] == ANONYMIZED_TEXT[at + i]
    ensures Occurs(s, Scrubbed(s, [s]))
  {
    hide Scrubbed;
    ScrubbedTwo(s, s, s);
    assert s[|s|..] == "" && Replace("", s) == "";
    assert Replace(s, s) == ANONYMIZED_TEXT;
    assert ANONYMIZED_TEXT[at..at + |s|] == s;
    assert OccursAt(s, ANONYMIZED_TEXT, at);
  }

  lemma {:induction false} ScrubbableIsNotEmpty(s: string)
    ensures IsScrubbable(s) ==> s != ""
  {
  }

  lemma {:induction false} BlockIsScrubbable(block: string, c: char)
    requires IsBlock(block, c) && |block| >= MIN_SECRET_LEN
    ensures IsScrubbable(block)
  {
    Utf8LenIsEnough(block);
    AsciiLowerAt(block, 0);
    AsciiLowerAt(block, 1);
    var low := AsciiLower(block);
    assert low[0] == low[1];
    assert forall i :: 0 <= i < |COMMON_DENYLIST| ==> COMMON_DENYLIST[i][0] != COMMON_DENYLIST[i][1];
  }

  lemma {:induction false} Utf8LenIsEnough(s: string)
    ensures Utf8Len(s) >= |s|
  {
    if s == "" {
    } else {
      Utf8LenIsEnough(s[1..]);
    }
  }

  lemma {:induction false} AsciiLowerAt(s: string, i: nat)
    requires i < |s|
    ensures AsciiLower(s)[i] == if 'A' <= s[i] <= 'Z' then (s[i] as int + 32) as char else s[i]
  {
    if i == 0 {
    } else {
      AsciiLowerAt(s[1..], i - 1);
    }
  }

  /** `v` with its upper-case ASCII letters in lower case is `w`. */
  predicate LowersTo(v: string, w: string) {
    |v| == |w|
    && forall i :: 0 <= i < |v| ==> w[i] as int == if 'A' <= v[i] <= 'Z' then v[i] as int + 32 else v[i] as int
  }

  lemma {:induction false} LowerIs(v: string, w: string)
    ensures AsciiLower(v) == w <==> LowersTo(v, w)
  {
    forall i | 0 <= i < |v|
      ensures AsciiLower(v)[i] as int == if 'A' <= v[i] <= 'Z' then v[i] as int + 32 else v[i] as int
    {
      AsciiLowerAt(v, i);
    }
    if LowersTo(v, w) {
      forall i | 0 <= i < |v| ensures AsciiLower(v)[i] == w[i] {
        assert AsciiLower(v)[i] as int == w[i] as int;
      }
    }
  }

  /** Bytes, by the range of the characters; concatenation adds them up. */
  lemma {:induction false} Utf8LenByRange(s: string, t: string)
    ensures Utf8Len(s + t) == Utf8Len(s) + Utf8Len(t)
    ensures (forall i :: 0 <= i < |s| ==> s[i] as int < 0x80) ==> Utf8Len(s) == |s|
    ensures (forall i :: 0 <= i < |s| ==> 0x80 <= s[i] as int < 0x800) ==> Utf8Len(s) == 2 * |s|
    ensures (forall i :: 0 <= i < |s| ==> 0x800 <= s[i] as int < 0x1_0000) ==> Utf8Len(s) == 3 * |s|
    ensures (forall i :: 0 <= i < |s| ==> 0x1_0000 <= s[i] as int) ==> Utf8Len(s) == 4 * |s|
  {
    if s == "" {
      assert s + t == t;
    } else {
      Utf8LenByRange(s[1..], t);
      assert (s + t)[1..] == s[1..] + t;
    }
  }

  /** A text of seven bytes or fewer is left alone, and so is a common word in any case; every other one is
      scrubbed. Two wide characters can be too short, four can be long enough. */
  lemma {:induction false} ScrubbableIff(v: string)
    ensures (forall i :: 0 <= i < |v| ==> v[i] as int < 0x80) ==>
      (IsScrubbable(v) <==> |v| >= 8 && forall w | w in COMMON_DENYLIST :: !LowersTo(v, w))
    ensures (forall i :: 0 <= i < |v| ==> 0x80 <= v[i] as int < 0x800) && |v| >= 4 ==>
      (IsScrubbable(v) <==> forall w | w in COMMON_DENYLIST :: !LowersTo(v, w))
    ensures (forall i :: 0 <= i < |v| ==> 0x800 <= v[i] as int < 0x1_0000) && |v| <= 2 ==> !IsScrubbable(v)
  {
    hide LowersTo, AsciiLower, Utf8Len;
    Utf8LenByRange(v, "");
    forall w | w in COMMON_DENYLIST ensures AsciiLower(v) == w <==> LowersTo(v, w) {
      LowerIs(v, w);
    }
    assert AsciiLower(v) in COMMON_DENYLIST <==> exists w | w in COMMON_DENYLIST :: LowersTo(v, w);
  }

  lemma {:induction false} ThreeParts(p: string, m: string, q: string, i: int)
    requires 0 <= i < |p| + |m| + |q|
    ensures (p + m + q)[i] ==
      if i < |p| then p[i] else if i < |p| + |m| then m[i - |p|] else q[i - |p| - |m|]
  {
  }

  lemma {:induction false} MarkerFills(s: string, d: int, p: string, q: string)
    requires ClashesAt(s, d)
    requires p == if d > 0 then s[..d] else ""
    requires q == if d + |ANONYMIZED_TEXT| < |s| then s[d + |ANONYMIZED_TEXT|..] else ""
    ensures Occurs(s, p + ANONYMIZED_TEXT + q)
  {
    var out, k := p + ANONYMIZED_TEXT + q, if d > 0 then 0 else -d;
    forall i | 0 <= i < |s| ensures out[k + i] == s[i] {
      ThreeParts(p, ANONYMIZED_TEXT, q, k + i);
    }
    assert out[k..k + |s|] == s;
    assert OccursAt(s, out, k);
  }

  /** Gone from every final text, for every text and every list the program can collect that names it. */
  ghost predicate AlwaysScrubbed(s: string) {
    forall text, secrets | Collected(secrets) && s in secrets :: !Occurs(s, Scrubbed(text, secrets))
  }

  /** The scrubber's promise, exactly: a scrubbable secret is always scrubbed if and only if the marker
      cannot be laid over it. */
  lemma {:induction false} ScrubbedIffNoClash(s: string)
    requires IsScrubbable(s) && exists c: char :: c !in s
    ensures AlwaysScrubbed(s) <==> !Clashes(s)
  {
    hide IsScrubbable;
    ScrubbableIsNotEmpty(s);
    if Clashes(s) {
      var d :| -|ANONYMIZED_TEXT| < d < |s| && ClashesAt(s, d);
      var c: char :| c !in s;
      var text, secrets := ClashLeaks(s, d, c);
    } else {
      forall text, secrets | Collected(secrets) && s in secrets ensures !Occurs(s, Scrubbed(text, secrets)) {
        NoSecretSurvives(text, secrets, s);
      }
    }
  }

  lemma {:induction false} PlainSecretNoClashAt(s: string, d: int)
    requires s != "" && '<' !in s && '>' !in s && !Occurs(s, "anonymized")
    ensures !ClashesAt(s, d)
  {
    var last := |ANONYMIZED_TEXT| - 1;
    assert ANONYMIZED_TEXT[0] == '<' && ANONYMIZED_TEXT[last] == '>';
    if -|ANONYMIZED_TEXT| < d < |s| {
      if d >= 0 {
        assert s[d] != ANONYMIZED_TEXT[d - d];
      } else if last + d < |s| {
        assert s[last + d] != ANONYMIZED_TEXT[last];
      } else {
        var word := ANONYMIZED_TEXT[1..last];
        assert word == "anonymized" && !OccursAt(s, word, -d - 1);
        var i :| 0 <= i < |s| && s[i] != word[-d - 1..-d - 1 + |s|][i];
        assert s[i] != ANONYMIZED_TEXT[i - d];
      }
    }
  }

  /** Secrets without angle brackets that are no part of the word inside the marker never clash. */
  lemma {:induction false} PlainSecretsNeverClash(s: string)
    requires s != "" && '<' !in s && '>' !in s && !Occurs(s, "anonymized")
    ensures !Clashes(s)
  {
    forall d ensures !ClashesAt(s, d) {
      PlainSecretNoClashAt(s, d);
    }
  }

  // ── The domain of the scrubber ────────────────────────────────────────────

  function Utf8Len(s: string): nat {
    if s == "" then 0
    else
      var n := s[0] as int;
      (if n < 0x80 then 1 else if n < 0x800 then 2 else if n < 0x1_0000 then 3 else 4) + Utf8Len(s[1..])
  }

  function AsciiLower(s: string): (r: string)
    ensures |r| == |s|
  {
    if s == "" then ""
    else [if 'A' <= s[0] <= 'Z' then (s[0] as int + 32) as char else s[0]] + AsciiLower(s[1..])
  }

  predicate IsScrubbable(value: string) {
    Utf8Len(value) >= MIN_SECRET_LEN && AsciiLower(value) !in COMMON_DENYLIST
  }

  lemma {:induction false} OccursThrough(s: string, mid: string, text: string)
    requires Occurs(s, mid) && Occurs(mid, text)
    ensures Occurs(s, text)
  {
    var k :| OccursAt(s, mid, k);
    var j :| OccursAt(mid, text, j);
    forall i | 0 <= i < |s| ensures text[j + k..j + k + |s|][i] == s[i] {
      assert text[j..j + |mid|][k + i] == mid[k + i] == mid[k..k + |s|][i];
    }
    assert OccursAt(s, text, j + k);
  }

  /** Every part of the marker survives its own scrubbing, in every text that holds it. */
  lemma {:induction false} PartsOfTheMarkerSurvive(text: string, s: string)
    requires s != "" && Occurs(s, ANONYMIZED_TEXT) && Occurs(s, text)
    ensures Occurs(s, Scrubbed(text, [s]))
  {
    MatchesIffOccurs(text, s);
    MarkerAppears(text, s);
    OccursThrough(s, ANONYMIZED_TEXT, Replace(text, s));
    ScrubbedTwo(text, s, s);
  }

  /** The domain check does not keep such values out. */
  lemma {:induction false} ScrubbableMarkerPart(s: string)
    requires s == "anonymized"
    ensures IsScrubbable(s) && Occurs(s, ANONYMIZED_TEXT)
  {
    Utf8LenAscii(s);
    AsciiLowerNoUpper(s);
    assert forall i :: 0 <= i < |COMMON_DENYLIST| ==> COMMON_DENYLIST[i][0] != s[0];
    assert ANONYMIZED_TEXT[1..1 + |s|] == s;
    assert OccursAt(s, ANONYMIZED_TEXT, 1);
  }

  lemma {:induction false} Utf8LenAscii(s: string)
    requires forall i :: 0 <= i < |s| ==> s[i] as int < 0x80
    ensures Utf8Len(s) == |s|
  {
    if s == "" {
    } else {
      Utf8LenAscii(s[1..]);
    }
  }

  lemma {:induction false} AsciiLowerNoUpper(s: string)
    requires forall i :: 0 <= i < |s| ==> !('A' <= s[i] <= 'Z')
    ensures AsciiLower(s) == s
  {
    if s == "" {
    } else {
      AsciiLowerNoUpper(s[1..]);
    }
  }

  lemma {:induction false} MarkerAppears(text: string, pat: string)
    requires pat != "" && Matches(text, pat) > 0
    ensures Occurs(ANONYMIZED_TEXT, Replace(text, pat))
  {
    var out := Replace(text, pat);
    if pat <= text {
      assert OccursAt(ANONYMIZED_TEXT, out, 0);
    } else {
      MarkerAppears(text[1..], pat);
      var j :| OccursAt(ANONYMIZED_TEXT, Replace(text[1..], pat), j);
      assert OccursAt(ANONYMIZED_TEXT, out, j + 1);
    }
  }

  // ── Accounting ────────────────────────────────────────────────────────────

  function LengthChange(counts: seq<nat>, secrets: seq<string>): int
    requires |counts| == |secrets|
  {
    if counts == [] then 0
    else counts[0] * (|ANONYMIZED_TEXT| - |secrets[0]|) + LengthChange(counts[1..], secrets[1..])
  }

  lemma {:induction false} OneScrubLength(text: string, secret: string)
    ensures |ScrubOne(text, secret)| == |text| + CountOne(text, secret) * (|ANONYMIZED_TEXT| - |secret|)
  {
    hide Replace, Matches;
    if secret != "" {
      ReplacedLength(text, secret);
    }
  }

  lemma {:induction false} LengthChangeStep(text: string, secrets: seq<string>)
    requires secrets != []
    ensures LengthChange(Counts(text, secrets), secrets) ==
      CountOne(text, secrets[0]) * (|ANONYMIZED_TEXT| - |secrets[0]|)
      + LengthChange(Counts(ScrubOne(text, secrets[0]), secrets[1..]), secrets[1..])
  {
    hide CountOne, ScrubOne;
    assert Counts(text, secrets)[1..] == Counts(ScrubOne(text, secrets[0]), secrets[1..]);
  }

  /** The reported counts explain the final length exactly. */
  lemma {:induction false} LengthAccounting(text: string, secrets: seq<string>)
    ensures |Scrubbed(text, secrets)| == |text| + LengthChange(Counts(text, secrets), secrets)
    decreases |secrets|
  {
    hide CountOne, ScrubOne;
    if secrets == [] {
    } else {
      LengthChangeStep(text, secrets);
      OneScrubLength(text, secrets[0]);
      LengthAccounting(ScrubOne(text, secrets[0]), secrets[1..]);
    }
  }

  /** The text is reported clean exactly when it is handed back unchanged for want of any match. */
  lemma {:induction false} NothingReportedIffNothingFound(text: string, secrets: seq<string>)
    ensures Sum(Counts(text, secrets)) == 0 <==> Positives(Counts(text, secrets)) == 0
    ensures Sum(Counts(text, secrets)) == 0 <==> forall s | s in secrets && s != "" :: !Occurs(s, text)
    ensures Sum(Counts(text, secrets)) == 0 ==> Scrubbed(text, secrets) == text
    decreases |secrets|
  {
    if secrets == [] {
    } else {
      var first := secrets[0];
      var next := ScrubOne(text, first);
      assert Counts(text, secrets)[1..] == Counts(next, secrets[1..]);
      NothingReportedIffNothingFound(next, secrets[1..]);
      if first != "" {
        MatchesIffOccurs(text, first);
        if Matches(text, first) == 0 {
          NoMatchNoChange(text, first);
        }
      }
    }
  }
}
