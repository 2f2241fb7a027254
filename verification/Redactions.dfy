/** The `distinct=N;occurrences=M` header: written by the server, parsed by the client. */
module Redactions {
  import opened Strings
  import Anonymize

  const USIZE_LIMIT: nat := 0x1_0000_0000_0000_0000
  const DISTINCT: string := "distinct="
  const OCCURRENCES: string := "occurrences="

  function HeaderValue(stats: Anonymize.ScrubStats): string {
    DISTINCT + Dec(stats.distinct) + ";" + OCCURRENCES + Dec(stats.occurrences)
  }

  /** `usize::from_str`: an optional `+`, then digits, below the 64-bit limit. */
  function ParseUsize(s: string): Option<nat> {
    var digits := if |s| > 1 && s[0] == '+' then s[1..] else s;
    if digits == "" || !AllDigits(digits) || Value(digits) >= USIZE_LIMIT then None
    else Some(Value(digits))
  }

  datatype Pending = Rejected | Found(distinct: Option<nat>, occurrences: Option<nat>)

  function ReadPart(raw: string, acc: Pending): Pending
    requires acc.Found?
  {
    var part := Trim(raw);
    if DISTINCT <= part then
      var n := ParseUsize(part[|DISTINCT|..]);
      if n.None? then Rejected else acc.(distinct := n)
    else if OCCURRENCES <= part then
      var n := ParseUsize(part[|OCCURRENCES|..]);
      if n.None? then Rejected else acc.(occurrences := n)
    else acc
  }

  function ReadParts(parts: seq<string>, acc: Pending): Pending {
    if parts == [] || acc.Rejected? then acc else ReadParts(parts[1..], ReadPart(parts[0], acc))
  }

  function Parsed(value: string): Option<Anonymize.ScrubStats> {
    var r := ReadParts(Split(value, ';'), Found(None, None));
    if r.Found? && r.distinct.Some? && r.occurrences.Some?
    then Some(Anonymize.ScrubStats(r.distinct.value, r.occurrences.value))
    else None
  }

  method ParseRedactions(value: string) returns (r: Option<Anonymize.ScrubStats>)
    ensures r == Parsed(value)
  {
    var distinct, occurrences := None, None;
    var parts := Split(value, ';');
    for i := 0 to |parts|
      invariant ReadParts(parts[i..], Found(distinct, occurrences)) == ReadParts(parts, Found(None, None))
    {
      var part := Trim(parts[i]);
      assert parts[i..][1..] == parts[i + 1..];
      if DISTINCT <= part {
        distinct := ParseUsize(part[|DISTINCT|..]);
        if distinct.None? {
          return None;
        }
      } else if OCCURRENCES <= part {
        occurrences := ParseUsize(part[|OCCURRENCES|..]);
        if occurrences.None? {
          return None;
        }
      }
    }
    if distinct.Some? && occurrences.Some? {
      r := Some(Anonymize.ScrubStats(distinct.value, occurrences.value));
    } else {
      r := None;
    }
  }

  lemma {:induction false} PartReadsBack(name: string, n: nat)
    requires name == DISTINCT || name == OCCURRENCES
    requires n < USIZE_LIMIT
    ensures Trim(name + Dec(n)) == name + Dec(n)
    ensures ParseUsize((name + Dec(n))[|name|..]) == Some(n)
    ensures ';' !in name + Dec(n)
  {
    hide Dec, Value;
    var part := name + Dec(n);
    assert IsDigit(part[|part| - 1]);
    assert part[|name|..] == Dec(n);
    assert !IsSpace(part[0]);
    ValueOfDec(n);
    assert ';' !in Dec(n);
  }

  /** Whatever the scrubber counted, the client reads the same two numbers. */
  lemma {:induction false} HeaderRoundTrip(stats: Anonymize.ScrubStats)
    requires stats.distinct < USIZE_LIMIT && stats.occurrences < USIZE_LIMIT
    ensures Parsed(HeaderValue(stats)) == Some(stats)
  {
    hide Trim, ParseUsize, Split, Dec;
    var a := DISTINCT + Dec(stats.distinct);
    var b := OCCURRENCES + Dec(stats.occurrences);
    PartReadsBack(DISTINCT, stats.distinct);
    PartReadsBack(OCCURRENCES, stats.occurrences);
    assert HeaderValue(stats) == a + [';'] + b;
    SplitFirst(a, ';', b);
    SplitSingle(b, ';');
    assert b[0] == 'o' && DISTINCT[0] == 'd';
    var none := Found(None, None);
    var one := Found(Some(stats.distinct), None);
    assert ReadPart(a, none) == one;
    assert ReadPart(b, one) == Found(Some(stats.distinct), Some(stats.occurrences));
    var parts := Split(HeaderValue(stats), ';');
    var tail := [b];
    assert parts == [a, b] && parts[1..] == tail && tail[1..] == [];
    assert ReadParts(tail, one) == ReadParts([], ReadPart(b, one));
    assert ReadParts(parts, none) == ReadParts(tail, one);
  }

  /** A stated number, with space around it and perhaps a sign. */
  function Stated(lead: string, name: string, plus: bool, n: nat, trail: string): string {
    lead + (name + (if plus then "+" else "") + Dec(n)) + trail
  }

  lemma {:induction false} StatedIsRead(
    lead: string, name: string, plus: bool, n: nat, trail: string, distinct: Option<nat>, occurrences: Option<nat>)
    requires AllSpace(lead) && AllSpace(trail) && (name == DISTINCT || name == OCCURRENCES)
    ensures ';' !in Stated(lead, name, plus, n, trail)
    ensures ReadPart(Stated(lead, name, plus, n, trail), Found(distinct, occurrences)) ==
      if n >= USIZE_LIMIT then Rejected
      else if name == DISTINCT then Found(Some(n), occurrences) else Found(distinct, Some(n))
  {
    hide Trim, Dec, IsSpace, AllSpace, ParseUsize;
    var number := (if plus then "+" else "") + Dec(n);
    StatedIsTrimmed(lead, name, plus, n, trail);
    assert (name + number)[|name|..] == number && name <= name + number && (name + number)[0] == name[0];
    SignedIsRead(plus, n);
  }

  lemma {:induction false} StatedIsTrimmed(lead: string, name: string, plus: bool, n: nat, trail: string)
    requires AllSpace(lead) && AllSpace(trail) && (name == DISTINCT || name == OCCURRENCES)
    ensures ';' !in Stated(lead, name, plus, n, trail)
    ensures Trim(Stated(lead, name, plus, n, trail)) == name + ((if plus then "+" else "") + Dec(n))
  {
    hide Trim, Dec, IsSpace, AllSpace;
    var number := (if plus then "+" else "") + Dec(n);
    var part := name + number;
    assert name + (if plus then "+" else "") + Dec(n) == part;
    assert part[|part| - 1] == Dec(n)[|Dec(n)| - 1] && IsDigit(Dec(n)[|Dec(n)| - 1]);
    NoSpaceInNumbers(part[0], part[|part| - 1]);
    TrimPadded(lead, part, trail);
    SpaceIsNoSemicolon(lead);
    SpaceIsNoSemicolon(trail);
  }

  lemma {:induction false} NoSpaceInNumbers(first: char, last: char)
    requires (first == 'd' || first == 'o') && IsDigit(last)
    ensures !IsSpace(first) && !IsSpace(last)
  {
  }

  lemma {:induction false} SpaceIsNoSemicolon(s: string)
    requires AllSpace(s)
    ensures ';' !in s
  {
    assert !IsSpace(';');
  }

  lemma {:induction false} SignedIsRead(plus: bool, n: nat)
    ensures ParseUsize((if plus then "+" else "") + Dec(n)) == if n >= USIZE_LIMIT then None else Some(n)
  {
    hide Dec, Value;
    ValueOfDec(n);
    var s := (if plus then "+" else "") + Dec(n);
    if plus {
      assert s[1..] == Dec(n);
    } else {
      assert s == Dec(n) && IsDigit(s[0]);
    }
  }

  /** The reader is lenient: space around the parts, a sign, an unknown part and an earlier value do not matter,
      in either order; a number past the 64-bit limit is refused. */
  lemma {:induction false} LenientRead(
    lead: string, trail: string, plus: bool, earlier: nat, distinct: nat, occurrences: nat, unknown: string)
    requires AllSpace(lead) && AllSpace(trail) && earlier < USIZE_LIMIT
    requires ';' !in unknown && !(DISTINCT <= Trim(unknown)) && !(OCCURRENCES <= Trim(unknown))
    ensures var a, b := Stated(lead, DISTINCT, plus, distinct, trail), Stated(lead, OCCURRENCES, plus, occurrences, trail);
      var e := Stated(lead, DISTINCT, plus, earlier, trail);
      var read := if distinct < USIZE_LIMIT && occurrences < USIZE_LIMIT
                  then Some(Anonymize.ScrubStats(distinct, occurrences)) else None;
      Parsed(Join([e, unknown, a, b], ';')) == read && Parsed(Join([e, b, unknown, a], ';')) == read
  {
    hide Trim, ParseUsize, Split, Join, Stated, ReadPart;
    var a, b := Stated(lead, DISTINCT, plus, distinct, trail), Stated(lead, OCCURRENCES, plus, occurrences, trail);
    var e := Stated(lead, DISTINCT, plus, earlier, trail);
    var none, one := Found(None, None), Found(Some(earlier), None);
    StatedIsRead(lead, DISTINCT, plus, earlier, trail, None, None);
    UnknownIsSkipped(unknown, one);
    StatedIsRead(lead, DISTINCT, plus, distinct, trail, Some(earlier), None);
    StatedIsRead(lead, OCCURRENCES, plus, occurrences, trail, Some(distinct), None);
    StatedIsRead(lead, OCCURRENCES, plus, occurrences, trail, Some(earlier), None);
    UnknownIsSkipped(unknown, Found(Some(earlier), Some(occurrences)));
    StatedIsRead(lead, DISTINCT, plus, distinct, trail, Some(earlier), Some(occurrences));
    SplitJoin([e, unknown, a, b], ';');
    SplitJoin([e, b, unknown, a], ';');
    FourParts(e, unknown, a, b);
    FourParts(e, b, unknown, a);
  }

  lemma {:induction false} UnknownIsSkipped(part: string, acc: Pending)
    requires acc.Found? && !(DISTINCT <= Trim(part)) && !(OCCURRENCES <= Trim(part))
    ensures ReadPart(part, acc) == acc
  {
  }

  function Then(part: string, acc: Pending): Pending {
    if acc.Rejected? then acc else ReadPart(part, acc)
  }

  lemma {:induction false} FourParts(p: string, q: string, r: string, s: string)
    ensures ReadParts([p, q, r, s], Found(None, None)) == Then(s, Then(r, Then(q, Then(p, Found(None, None)))))
  {
    hide ReadPart;
    assert [p, q, r, s][1..] == [q, r, s] && [q, r, s][1..] == [r, s] && [r, s][1..] == [s] && [s][1..] == [];
    var x := Then(p, Found(None, None));
    var y := Then(q, x);
    var z := Then(r, y);
    assert ReadParts([s], z) == Then(s, z);
    assert ReadParts([r, s], y) == if y.Rejected? then y else ReadParts([s], z);
    assert ReadParts([q, r, s], x) == if x.Rejected? then x else ReadParts([r, s], y);
  }
}
