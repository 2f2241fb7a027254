/**
  Package selection: the first eligible package of a jukebox, what repeated installs converge to, and
  why a partial scan looks like a full one to the selection. Everything here holds for any way of
  reading version texts into any total preorder; `BySemver` is the repository's.
*/
module Packages {
  import opened Strings
  import opened Semver

  datatype Usage = Tenant | System | Service

  datatype Requirement =
    | CustomResourceDefinition(crd: string)
    | SystemService(service: string)
    | TenantService(service: string)
    | SystemPackage(category: string, name: string)
    | TenantPackage(category: string, name: string)
    | Prefly(script: string, name: string)
    | ClusterVersion(major: nat, minor: nat)
    | StorageCapability(capability: string)
    | MinimumPreviousVersion(version: string)
    | VynilVersion(version: string)
    | Cpu(cores: real)
    | Memory(mb: nat)
    | Disk(mb: nat)

  datatype Package = Package(
    name: string,
    category: string,
    usage: Usage,
    tag: string,
    registry: string,
    image: string,
    requirements: seq<Requirement>)

  // ── Versions ──────────────────────────────────────────────────────────────

  datatype Versions = Versions(read: string -> Option<Semver>, le: (Semver, Semver) -> bool)

  predicate Below(v: Versions, a: Semver, b: Semver) {
    !v.le(b, a)
  }

  ghost predicate Lawful(v: Versions) {
    && (forall a, b :: v.le(a, b) || v.le(b, a))
    && (forall a, b, c :: v.le(a, b) && v.le(b, c) ==> v.le(a, c))
  }

  lemma {:induction false} Laws(v: Versions, a: Semver, b: Semver, c: Semver)
    requires Lawful(v)
    ensures v.le(a, a)
    ensures v.le(a, b) && v.le(b, c) ==> v.le(a, c)
  {
    assert v.le(a, a) || v.le(a, a);
  }

  /** How the repository reads and compares versions. */
  function BySemver(): Versions {
    Versions(Parse, Le)
  }

  lemma {:induction false} SemverIsLawful()
    ensures Lawful(BySemver())
    ensures forall s: Semver | Valid(s.version) :: BySemver().read(Print(s)) == Some(s)
    ensures forall a, b :: Below(BySemver(), a, b) <==> Lt(a, b)
  {
    hide Parse, Cmp, Print, Valid;
    var v := BySemver();
    forall a, b, c
      ensures v.le(a, b) || v.le(b, a)
      ensures v.le(a, b) && v.le(b, c) ==> v.le(a, c)
      ensures Below(v, a, b) <==> Lt(a, b)
    {
      TotalOrder(a, b, c);
    }
    forall s: Semver | Valid(s.version) ensures v.read(Print(s)) == Some(s) {
      ParsePrint(s);
    }
  }

  // ── Version requirements ──────────────────────────────────────────────────

  function MinVersion(rs: seq<Requirement>): Option<string> {
    if rs == [] then None
    else if rs[0].MinimumPreviousVersion? then Some(rs[0].version)
    else MinVersion(rs[1..])
  }

  function MinVynil(rs: seq<Requirement>): Option<string> {
    if rs == [] then None
    else if rs[0].VynilVersion? then Some(rs[0].version)
    else MinVynil(rs[1..])
  }

  /** `current >= target`, and true as soon as one side is missing or does not parse. */
  predicate AtLeast(v: Versions, current: string, target: Option<string>) {
    var c := v.read(current);
    var t := if target.Some? then v.read(target.value) else None;
    c.Some? && t.Some? ==> v.le(t.value, c.value)
  }

  predicate IsMinVersionOk(v: Versions, p: Package, current: string) {
    AtLeast(v, current, MinVersion(p.requirements))
  }

  predicate IsVynilVersionOk(v: Versions, p: Package, vynil: string) {
    AtLeast(v, vynil, MinVynil(p.requirements))
  }

  /** What an instance asks for, and the version of the operator that looks. */
  datatype Wanted = Wanted(name: string, category: string, usage: Usage, vynil: string)

  predicate Fits(p: Package, w: Wanted) {
    p.name == w.name && p.category == w.category && p.usage == w.usage
  }

  predicate Candidate(v: Versions, p: Package, w: Wanted) {
    Fits(p, w) && IsVynilVersionOk(v, p, w.vynil)
  }

  predicate Eligible(v: Versions, p: Package, w: Wanted, current: string) {
    Candidate(v, p, w) && IsMinVersionOk(v, p, current)
  }

  /** Position of the first eligible package, or the length of the list. */
  function First(v: Versions, ps: seq<Package>, w: Wanted, current: string): (i: nat)
    ensures i <= |ps|
    ensures i < |ps| ==> Eligible(v, ps[i], w, current)
    ensures forall j :: 0 <= j < i ==> !Eligible(v, ps[j], w, current)
  {
    if ps == [] || Eligible(v, ps[0], w, current) then 0 else 1 + First(v, ps[1..], w, current)
  }

  function Select(v: Versions, ps: seq<Package>, w: Wanted, current: string): Option<Package> {
    var i := First(v, ps, w, current);
    if i < |ps| then Some(ps[i]) else None
  }

  // ── What is selected, on the packages' own fields ──────────────────────────

  /** Two version texts that can be read are in order. */
  predicate InOrder(v: Versions, low: string, high: string) {
    v.read(low).Some? && v.read(high).Some? ==> v.le(v.read(low).value, v.read(high).value)
  }

  /** Requirement `i` is the first vynil version stated. */
  predicate FirstVynilAt(p: Package, i: nat) {
    i < |p.requirements| && p.requirements[i].VynilVersion?
    && forall j :: 0 <= j < i ==> !p.requirements[j].VynilVersion?
  }

  predicate FirstMinimumAt(p: Package, i: nat) {
    i < |p.requirements| && p.requirements[i].MinimumPreviousVersion?
    && forall j :: 0 <= j < i ==> !p.requirements[j].MinimumPreviousVersion?
  }

  /** The first vynil version the package states, if any, is unreadable or at most the operator's. */
  ghost predicate FirstVynilOk(v: Versions, p: Package, vynil: string) {
    forall i: nat | FirstVynilAt(p, i) :: InOrder(v, p.requirements[i].version, vynil)
  }

  /** The first minimum the package states, if any, is unreadable or at most the installed version. */
  ghost predicate FirstMinimumOk(v: Versions, p: Package, current: string) {
    forall i: nat | FirstMinimumAt(p, i) :: InOrder(v, p.requirements[i].version, current)
  }

  /** The five things a selected package satisfies. */
  ghost predicate Suits(v: Versions, p: Package, name: string, category: string, usage: Usage, vynil: string, current: string) {
    && p.name == name && p.category == category && p.usage == usage
    && FirstVynilOk(v, p, vynil) && FirstMinimumOk(v, p, current)
  }

  lemma {:induction false} MinVynilIsFirst(rs: seq<Requirement>) returns (i: nat)
    ensures i <= |rs| && forall j :: 0 <= j < i ==> !rs[j].VynilVersion?
    ensures i < |rs| ==> rs[i].VynilVersion? && MinVynil(rs) == Some(rs[i].version)
    ensures i == |rs| ==> MinVynil(rs) == None
  {
    if rs == [] || rs[0].VynilVersion? {
      i := 0;
    } else {
      var k := MinVynilIsFirst(rs[1..]);
      i := k + 1;
    }
  }

  lemma {:induction false} SuitsIffEligible(v: Versions, p: Package, w: Wanted, current: string)
    ensures Eligible(v, p, w, current) <==> Suits(v, p, w.name, w.category, w.usage, w.vynil, current)
  {
    var i := MinVynilIsFirst(p.requirements);
    var j := MinVersionIsFirst(p.requirements);
    assert i < |p.requirements| ==> FirstVynilAt(p, i);
    assert j < |p.requirements| ==> FirstMinimumAt(p, j);
    assert forall k: nat :: FirstVynilAt(p, k) ==> k == i;
    assert forall k: nat :: FirstMinimumAt(p, k) ==> k == j;
  }

  /** The selected package suits, and every earlier one does not; nothing is selected only if none suits. */
  lemma {:induction false} SelectedIsFirstThatSuits(v: Versions, ps: seq<Package>, w: Wanted, current: string)
    returns (i: nat)
    ensures i <= |ps| && Select(v, ps, w, current) == if i < |ps| then Some(ps[i]) else None
    ensures i < |ps| ==> Suits(v, ps[i], w.name, w.category, w.usage, w.vynil, current)
    ensures forall j :: 0 <= j < i ==> !Suits(v, ps[j], w.name, w.category, w.usage, w.vynil, current)
  {
    hide Eligible, Suits;
    i := First(v, ps, w, current);
    forall j | 0 <= j < |ps|
      ensures Eligible(v, ps[j], w, current) <==> Suits(v, ps[j], w.name, w.category, w.usage, w.vynil, current)
    {
      SuitsIffEligible(v, ps[j], w, current);
    }
  }

  // ── Minimum previous version: the gate that answers "true" ─────────────────

  predicate MeetsAllMinimums(v: Versions, p: Package, current: string) {
    forall i :: 0 <= i < |p.requirements| ==> p.requirements[i].MinimumPreviousVersion? ==>
      AtLeast(v, current, Some(p.requirements[i].version))
  }

  /** Every version that can be read is at least this one. */
  ghost predicate Lowest(v: Versions, m: Semver) {
    forall text: string :: v.read(text).Some? ==> v.le(m, v.read(text).value)
  }

  /** Requirement `i` is no stricter than the first minimum, the only one that is looked at. */
  ghost predicate CoveredByFirst(v: Versions, p: Package, i: nat)
    requires i < |p.requirements| && p.requirements[i].MinimumPreviousVersion?
  {
    var m, first := v.read(p.requirements[i].version), MinVersion(p.requirements);
    m.Some? ==>
      || (first.Some? && v.read(first.value).Some? && v.le(m.value, v.read(first.value).value))
      || Lowest(v, m.value)
  }

  /** No readable minimum is above the first one; what a package author can check. */
  ghost predicate SoundMinimums(v: Versions, p: Package) {
    forall i :: 0 <= i < |p.requirements| && p.requirements[i].MinimumPreviousVersion? ==> CoveredByFirst(v, p, i)
  }

  lemma {:induction false} MinVersionIsFirst(rs: seq<Requirement>) returns (i: nat)
    ensures i <= |rs| && forall j :: 0 <= j < i ==> !rs[j].MinimumPreviousVersion?
    ensures i < |rs| ==> rs[i].MinimumPreviousVersion? && MinVersion(rs) == Some(rs[i].version)
    ensures i == |rs| ==> MinVersion(rs) == None
  {
    if rs == [] || rs[0].MinimumPreviousVersion? {
      i := 0;
    } else {
      var k := MinVersionIsFirst(rs[1..]);
      i := k + 1;
    }
  }

  lemma {:induction false} SoundMinimumsAreMet(v: Versions, p: Package, current: string)
    requires Lawful(v) && SoundMinimums(v, p) && IsMinVersionOk(v, p, current)
    ensures MeetsAllMinimums(v, p, current)
  {
    forall i | 0 <= i < |p.requirements| && p.requirements[i].MinimumPreviousVersion?
      ensures AtLeast(v, current, Some(p.requirements[i].version))
    {
      assert CoveredByFirst(v, p, i);
    }
  }

  /** A version for which the check passes and the uncovered minimum is missed. */
  lemma {:induction false} UncoveredIsMissed(v: Versions, p: Package, i: nat) returns (current: string)
    requires Lawful(v) && i < |p.requirements| && p.requirements[i].MinimumPreviousVersion?
    requires !CoveredByFirst(v, p, i)
    ensures IsMinVersionOk(v, p, current) && !MeetsAllMinimums(v, p, current)
  {
    var m, first := v.read(p.requirements[i].version).value, MinVersion(p.requirements);
    if first.Some? && v.read(first.value).Some? {
      current := first.value;
      Laws(v, v.read(current).value, m, m);
    } else {
      current :| v.read(current).Some? && !v.le(m, v.read(current).value);
    }
    assert !AtLeast(v, current, Some(p.requirements[i].version));
  }

  /** The always-true requirement check is sound for a package, whatever is installed, exactly when no
      readable minimum is above the first. */
  lemma {:induction false} MinimumsMetIffSound(v: Versions, p: Package)
    requires Lawful(v)
    ensures (forall current: string | IsMinVersionOk(v, p, current) :: MeetsAllMinimums(v, p, current)) <==>
      SoundMinimums(v, p)
  {
    hide Lawful, CoveredByFirst, IsMinVersionOk, MeetsAllMinimums;
    if SoundMinimums(v, p) {
      forall current: string | IsMinVersionOk(v, p, current) ensures MeetsAllMinimums(v, p, current) {
        SoundMinimumsAreMet(v, p, current);
      }
    } else {
      var i :| 0 <= i < |p.requirements| && p.requirements[i].MinimumPreviousVersion? && !CoveredByFirst(v, p, i);
      var current := UncoveredIsMissed(v, p, i);
    }
  }

  /** One minimum is always sound. */
  lemma {:induction false} OneMinimumIsSound(v: Versions, p: Package)
    requires Lawful(v)
    requires forall i, j :: 0 <= i < j < |p.requirements| ==>
      !(p.requirements[i].MinimumPreviousVersion? && p.requirements[j].MinimumPreviousVersion?)
    ensures SoundMinimums(v, p)
  {
    var k := MinVersionIsFirst(p.requirements);
    forall i | 0 <= i < |p.requirements| && p.requirements[i].MinimumPreviousVersion?
      ensures CoveredByFirst(v, p, i)
    {
      assert i == k;
      if v.read(p.requirements[i].version).Some? {
        Laws(v, v.read(p.requirements[i].version).value, v.read(p.requirements[i].version).value,
             v.read(p.requirements[i].version).value);
      }
    }
  }

  /** And an unsound package is selected, from some version, with a minimum missed. */
  lemma {:induction false} UnsoundIsSelected(v: Versions, p: Package, w: Wanted) returns (current: string)
    requires Lawful(v) && !SoundMinimums(v, p) && Candidate(v, p, w)
    ensures Select(v, [p], w, current) == Some(p) && !MeetsAllMinimums(v, p, current)
  {
    hide Lawful, CoveredByFirst, IsMinVersionOk, MeetsAllMinimums;
    var i :| 0 <= i < |p.requirements| && p.requirements[i].MinimumPreviousVersion? && !CoveredByFirst(v, p, i);
    current := UncoveredIsMissed(v, p, i);
    assert First(v, [p], w, current) == 0;
  }

  // ── The upgrade chain ─────────────────────────────────────────────────────

  function Ver(v: Versions, tag: string): Semver
    requires v.read(tag).Some?
  {
    v.read(tag).value
  }

  /** The candidates have parseable tags, strictly descending, and no minimum above its own tag. */
  ghost predicate Catalogue(v: Versions, ps: seq<Package>, w: Wanted) {
    && Lawful(v)
    && (forall i :: 0 <= i < |ps| && Candidate(v, ps[i], w) ==>
          v.read(ps[i].tag).Some? && IsMinVersionOk(v, ps[i], ps[i].tag))
    && (forall i, j :: 0 <= i < j < |ps| && Candidate(v, ps[i], w) && Candidate(v, ps[j], w) ==>
          Below(v, Ver(v, ps[j].tag), Ver(v, ps[i].tag)))
  }

  /** The tag in the status after one install. */
  function Next(v: Versions, ps: seq<Package>, w: Wanted, current: string): string {
    var i := First(v, ps, w, current);
    if i < |ps| then ps[i].tag else current
  }

  function Installs(v: Versions, ps: seq<Package>, w: Wanted, current: string, n: nat): string
    decreases n
  {
    if n == 0 then current else Installs(v, ps, w, Next(v, ps, w, current), n - 1)
  }

  function Candidates(v: Versions, ps: seq<Package>, w: Wanted): nat {
    if ps == [] then 0
    else Candidates(v, ps[..|ps| - 1], w) + (if Candidate(v, ps[|ps| - 1], w) then 1 else 0)
  }

  lemma {:induction false} SmallerIndexHigherTag(v: Versions, ps: seq<Package>, w: Wanted, i: nat, j: nat)
    requires Catalogue(v, ps, w) && i <= j < |ps| && Candidate(v, ps[i], w) && Candidate(v, ps[j], w)
    ensures v.le(Ver(v, ps[j].tag), Ver(v, ps[i].tag))
  {
  }

  /** The selected package has the highest tag of all the eligible ones. */
  lemma {:induction false} SelectedIsHighest(v: Versions, ps: seq<Package>, w: Wanted, current: string, j: nat)
    requires Catalogue(v, ps, w) && j < |ps| && Eligible(v, ps[j], w, current)
    ensures First(v, ps, w, current) <= j
    ensures v.le(Ver(v, ps[j].tag), Ver(v, Next(v, ps, w, current)))
  {
    SmallerIndexHigherTag(v, ps, w, First(v, ps, w, current), j);
  }

  /** Once the installed tag is a candidate's, installing never goes down. */
  lemma {:induction false} NextNeverGoesDown(v: Versions, ps: seq<Package>, w: Wanted, k: nat)
    requires Catalogue(v, ps, w) && k < |ps| && Candidate(v, ps[k], w)
    ensures First(v, ps, w, ps[k].tag) <= k
    ensures v.le(Ver(v, ps[k].tag), Ver(v, Next(v, ps, w, ps[k].tag)))
  {
    SelectedIsHighest(v, ps, w, ps[k].tag, k);
  }

  lemma {:induction false} InstallsNeverGoDown(v: Versions, ps: seq<Package>, w: Wanted, k: nat, n: nat)
    requires Catalogue(v, ps, w) && k < |ps| && Candidate(v, ps[k], w)
    ensures v.read(Installs(v, ps, w, ps[k].tag, n)).Some?
    ensures v.le(Ver(v, ps[k].tag), Ver(v, Installs(v, ps, w, ps[k].tag, n)))
    decreases n
  {
    if n > 0 {
      NextNeverGoesDown(v, ps, w, k);
      var j := First(v, ps, w, ps[k].tag);
      InstallsNeverGoDown(v, ps, w, j, n - 1);
    }
  }

  predicate Settled(v: Versions, ps: seq<Package>, w: Wanted, current: string) {
    Next(v, ps, w, current) == current
  }

  lemma {:induction false} SettledStays(v: Versions, ps: seq<Package>, w: Wanted, current: string, n: nat)
    requires Settled(v, ps, w, current)
    ensures Installs(v, ps, w, current, n) == current
    decreases n
  {
    if n > 0 {
      SettledStays(v, ps, w, current, n - 1);
    }
  }

  lemma {:induction false} RankGrows(v: Versions, ps: seq<Package>, w: Wanted, j: nat, k: nat)
    requires j < k <= |ps| && Candidate(v, ps[j], w)
    ensures Candidates(v, ps[..j], w) < Candidates(v, ps[..k], w)
    decreases k
  {
    assert ps[..k][..k - 1] == ps[..k - 1];
    if j < k - 1 {
      RankGrows(v, ps, w, j, k - 1);
    }
  }

  lemma {:induction false} SettlesByRank(v: Versions, ps: seq<Package>, w: Wanted, k: nat, n: nat)
    requires Catalogue(v, ps, w) && k < |ps| && Candidate(v, ps[k], w) && n >= Candidates(v, ps[..k], w)
    ensures Settled(v, ps, w, Installs(v, ps, w, ps[k].tag, n))
    decreases k
  {
    NextNeverGoesDown(v, ps, w, k);
    var j := First(v, ps, w, ps[k].tag);
    if j == k {
      SettledStays(v, ps, w, ps[k].tag, n);
    } else {
      RankGrows(v, ps, w, j, k);
      SettlesByRank(v, ps, w, j, n - 1);
    }
  }

  /** From any starting tag, a fixed point is reached within as many installs as there are candidates. */
  lemma {:induction false} SettlesWithinCandidates(v: Versions, ps: seq<Package>, w: Wanted, current: string)
    requires Catalogue(v, ps, w)
    ensures Settled(v, ps, w, Installs(v, ps, w, current, Candidates(v, ps, w)))
  {
    var n, i := Candidates(v, ps, w), First(v, ps, w, current);
    if i < |ps| {
      RankGrows(v, ps, w, i, |ps|);
      assert ps[..|ps|] == ps;
      SettlesByRank(v, ps, w, i, n - 1);
    } else {
      SettledStays(v, ps, w, current, n);
    }
  }

  /** A sequence of installs that picks any eligible package each time, by position. */
  ghost predicate Hops(v: Versions, ps: seq<Package>, w: Wanted, current: string, hops: seq<nat>)
    decreases |hops|
  {
    hops == [] || (hops[0] < |ps| && Eligible(v, ps[hops[0]], w, current) && Hops(v, ps, w, ps[hops[0]].tag, hops[1..]))
  }

  ghost predicate NotBehind(v: Versions, tag: string, greedy: string) {
    tag == greedy || (v.read(tag).Some? && v.read(greedy).Some? && v.le(Ver(v, tag), Ver(v, greedy)))
  }

  lemma {:induction false} EligibleFromHigher(v: Versions, p: Package, w: Wanted, tag: string, greedy: string)
    requires Lawful(v) && Eligible(v, p, w, tag) && NotBehind(v, tag, greedy)
    ensures Eligible(v, p, w, greedy)
  {
    var t := MinVersion(p.requirements);
    if tag != greedy && t.Some? && v.read(t.value).Some? {
      Laws(v, v.read(t.value).value, Ver(v, tag), Ver(v, greedy));
    }
  }

  lemma {:induction false} GreedyKeepsUp(v: Versions, ps: seq<Package>, w: Wanted, tag: string, greedy: string, hops: seq<nat>)
    requires Catalogue(v, ps, w) && Hops(v, ps, w, tag, hops) && hops != [] && NotBehind(v, tag, greedy)
    ensures var last := hops[|hops| - 1];
      last < |ps| && Candidate(v, ps[last], w) && NotBehind(v, ps[last].tag, Installs(v, ps, w, greedy, |hops|))
    decreases |hops|
  {
    var h, rest := hops[0], hops[1..];
    EligibleFromHigher(v, ps[h], w, tag, greedy);
    SelectedIsHighest(v, ps, w, greedy, h);
    if rest != [] {
      GreedyKeepsUp(v, ps, w, ps[h].tag, Next(v, ps, w, greedy), rest);
    } else {
      assert Installs(v, ps, w, greedy, 1) == Installs(v, ps, w, Next(v, ps, w, greedy), 0);
    }
  }

  lemma {:induction false} InstallsAdd(v: Versions, ps: seq<Package>, w: Wanted, current: string, a: nat, b: nat)
    ensures Installs(v, ps, w, current, a + b) == Installs(v, ps, w, Installs(v, ps, w, current, a), b)
    decreases a
  {
    hide Next;
    if a > 0 {
      InstallsAdd(v, ps, w, Next(v, ps, w, current), a - 1, b);
    }
  }

  lemma {:induction false} AfterInstallIsCandidate(v: Versions, ps: seq<Package>, w: Wanted, current: string, n: nat) returns (k: nat)
    requires n > 0 && First(v, ps, w, current) < |ps| && Catalogue(v, ps, w)
    ensures k < |ps| && Candidate(v, ps[k], w) && Installs(v, ps, w, current, n) == ps[k].tag
    decreases n
  {
    var i := First(v, ps, w, current);
    if n == 1 {
      k := i;
      assert Installs(v, ps, w, current, 1) == Installs(v, ps, w, ps[i].tag, 0);
    } else {
      NextNeverGoesDown(v, ps, w, i);
      k := AfterInstallIsCandidate(v, ps, w, ps[i].tag, n - 1);
    }
  }

  /** Greedy is best: no other sequence of eligible installs from the same tag ends above the tag the
      selection settles on. */
  lemma {:induction false} GreedyIsOptimal(v: Versions, ps: seq<Package>, w: Wanted, current: string, hops: seq<nat>)
    requires Catalogue(v, ps, w) && Hops(v, ps, w, current, hops) && hops != []
    ensures var last, final := hops[|hops| - 1], Installs(v, ps, w, current, Candidates(v, ps, w));
      && last < |ps| && Candidate(v, ps[last], w) && v.read(final).Some?
      && v.le(Ver(v, ps[last].tag), Ver(v, final))
  {
    hide Candidates, Installs, Eligible, Candidate, Lawful;
    var m, n, last := |hops|, Candidates(v, ps, w), hops[|hops| - 1];
    GreedyKeepsUp(v, ps, w, current, current, hops);
    assert First(v, ps, w, current) <= hops[0];
    var k := AfterInstallIsCandidate(v, ps, w, current, m);
    Laws(v, Ver(v, ps[last].tag), Ver(v, ps[last].tag), Ver(v, ps[last].tag));
    SettlesWithinCandidates(v, ps, w, current);
    var final := Installs(v, ps, w, current, n);
    if m <= n {
      InstallsAdd(v, ps, w, current, m, n - m);
      InstallsNeverGoDown(v, ps, w, k, n - m);
      Laws(v, Ver(v, ps[last].tag), Ver(v, ps[k].tag), Ver(v, final));
    } else {
      InstallsAdd(v, ps, w, current, n, m - n);
      SettledStays(v, ps, w, final, m - n);
    }
  }

  /** The catalogue without a word on minimums: readable candidate tags, strictly descending. */
  ghost predicate Descending(v: Versions, ps: seq<Package>, w: Wanted) {
    && Lawful(v)
    && (forall i :: 0 <= i < |ps| && Candidate(v, ps[i], w) ==> v.read(ps[i].tag).Some?)
    && (forall i, j :: 0 <= i < j < |ps| && Candidate(v, ps[i], w) && Candidate(v, ps[j], w) ==>
          Below(v, Ver(v, ps[j].tag), Ver(v, ps[i].tag)))
  }

  /** From the tag of package `k`: itself and everything above it state a minimum above that tag, and
      something below it does not. */
  predicate LeftBehind(v: Versions, ps: seq<Package>, w: Wanted, k: nat)
    requires k < |ps|
  {
    && (forall j :: 0 <= j <= k ==> !Eligible(v, ps[j], w, ps[k].tag))
    && (exists j | k < j < |ps| :: Eligible(v, ps[j], w, ps[k].tag))
  }

  /** The next install goes down exactly from the packages that are left behind. */
  lemma {:induction false} GoesDownIffLeftBehind(v: Versions, ps: seq<Package>, w: Wanted, k: nat)
    requires Descending(v, ps, w) && k < |ps| && Candidate(v, ps[k], w)
    ensures v.read(Next(v, ps, w, ps[k].tag)).Some?
    ensures Below(v, Ver(v, Next(v, ps, w, ps[k].tag)), Ver(v, ps[k].tag)) <==> LeftBehind(v, ps, w, k)
  {
    hide IsMinVersionOk, Candidate;
    var i := First(v, ps, w, ps[k].tag);
    Laws(v, Ver(v, ps[k].tag), Ver(v, ps[k].tag), Ver(v, ps[k].tag));
    if i <= k {
      assert Eligible(v, ps[i], w, ps[k].tag);
      assert i < k ==> Below(v, Ver(v, ps[k].tag), Ver(v, ps[i].tag));
      assert v.le(Ver(v, ps[k].tag), Ver(v, ps[i].tag));
    }
  }

  /** Minimums at most their own tag, as a catalogue has them, leave nothing behind. */
  lemma {:induction false} CatalogueLeavesNothingBehind(v: Versions, ps: seq<Package>, w: Wanted, k: nat)
    requires Catalogue(v, ps, w) && k < |ps| && Candidate(v, ps[k], w)
    ensures Descending(v, ps, w) && !LeftBehind(v, ps, w, k)
  {
    assert Eligible(v, ps[k], w, ps[k].tag);
  }

  // ── Partial scans ─────────────────────────────────────────────────────────

  function IndexOf(s: string, c: char): (i: nat)
    ensures i <= |s| && (i < |s| ==> s[i] == c)
  {
    if s == "" || s[0] == c then 0 else 1 + IndexOf(s[1..], c)
  }

  datatype Filter = Filter(category: string, name: Option<string>)

  /** `<category>` or `<category>/<name>`, split at the first slash. */
  function SplitFilter(filter: string): Filter {
    var i := IndexOf(filter, '/');
    if i < |filter| then Filter(filter[..i], Some(filter[i + 1..])) else Filter(filter, None)
  }

  predicate Covers(f: Filter, category: string, name: string) {
    category == f.category && (f.name.Some? ==> name == f.name.value)
  }

  /** What the text of a filter stands for: a category, or a category and a name. */
  predicate TextCovers(filter: string, category: string, name: string) {
    '/' !in category && (filter == category || filter == category + "/" + name)
  }

  lemma {:induction false} IndexIsFirst(s: string, c: char)
    ensures forall j :: 0 <= j < IndexOf(s, c) ==> s[j] != c
    ensures IndexOf(s, c) == |s| <==> c !in s
  {
    if s == "" || s[0] == c {
    } else {
      IndexIsFirst(s[1..], c);
      assert s == [s[0]] + s[1..];
    }
  }

  /** The split at the first slash means what the text says. */
  lemma {:induction false} SplitFilterMeaning(filter: string, category: string, name: string)
    ensures Covers(SplitFilter(filter), category, name) <==> TextCovers(filter, category, name)
  {
    IndexIsFirst(filter, '/');
    var i := IndexOf(filter, '/');
    if i < |filter| {
      assert filter == filter[..i] + "/" + filter[i + 1..];
    }
    if filter == category + "/" + name && '/' !in category {
      assert filter[|category|] == '/';
      assert forall j :: 0 <= j < |category| ==> filter[j] == category[j];
      assert i == |category|;
      assert filter[i + 1..] == name;
    }
  }

  function Retained(ps: seq<Package>, f: Filter): seq<Package> {
    if ps == [] then []
    else
      Retained(ps[..|ps| - 1], f)
      + (if Covers(f, ps[|ps| - 1].category, ps[|ps| - 1].name) then [] else [ps[|ps| - 1]])
  }

  method FilterPackages(existing: seq<Package>, f: Filter, newPackages: seq<Package>) returns (r: seq<Package>)
    ensures r == Retained(existing, f) + newPackages
    ensures (forall i :: 0 <= i < |newPackages| ==> Covers(f, newPackages[i].category, newPackages[i].name)) ==>
      forall w: Wanted, current: string :: Select(BySemver(), r, w, current) ==
        Select(BySemver(), if Covers(f, w.category, w.name) then newPackages else existing, w, current)
  {
    r := [];
    for i := 0 to |existing|
      invariant r == Retained(existing[..i], f)
    {
      assert existing[..i + 1][..i] == existing[..i];
      if !Covers(f, existing[i].category, existing[i].name) {
        r := r + [existing[i]];
      }
    }
    assert existing[..|existing|] == existing;
    r := r + newPackages;
    if forall i :: 0 <= i < |newPackages| ==> Covers(f, newPackages[i].category, newPackages[i].name) {
      forall w: Wanted, current: string ensures Select(BySemver(), r, w, current) ==
        Select(BySemver(), if Covers(f, w.category, w.name) then newPackages else existing, w, current)
      {
        MergedSelects(BySemver(), existing, f, newPackages, w, current);
      }
    }
  }

  /** Every new package is one the filter stands for. */
  predicate AllCovered(filter: string, newPackages: seq<Package>) {
    forall i :: 0 <= i < |newPackages| ==> TextCovers(filter, newPackages[i].category, newPackages[i].name)
  }

  /** The package list of `set_status_packages_merge`. */
  method MergePackages(existing: seq<Package>, filter: string, newPackages: seq<Package>) returns (r: seq<Package>)
    ensures r == Retained(existing, SplitFilter(filter)) + newPackages
    ensures AllCovered(filter, newPackages) ==>
      forall w: Wanted, current: string :: Select(BySemver(), r, w, current) ==
        Select(BySemver(), if TextCovers(filter, w.category, w.name) then newPackages else existing, w, current)
  {
    var f := SplitFilter(filter);
    r := FilterPackages(existing, f, newPackages);
    if AllCovered(filter, newPackages) {
      forall w: Wanted, current: string ensures Select(BySemver(), r, w, current) ==
        Select(BySemver(), if TextCovers(filter, w.category, w.name) then newPackages else existing, w, current)
      {
        PartialScanLooksLikeRescan(BySemver(), existing, filter, newPackages, w, current);
      }
    }
  }

  lemma {:induction false} SelectAppend(v: Versions, a: seq<Package>, b: seq<Package>, w: Wanted, current: string)
    ensures Select(v, a + b, w, current) ==
      if Select(v, a, w, current).Some? then Select(v, a, w, current) else Select(v, b, w, current)
  {
    if a == [] {
      assert a + b == b;
    } else if !Eligible(v, a[0], w, current) {
      SelectAppend(v, a[1..], b, w, current);
      assert (a + b)[1..] == a[1..] + b;
      assert Select(v, a + b, w, current) == Select(v, a[1..] + b, w, current);
      assert Select(v, a, w, current) == Select(v, a[1..], w, current);
    }
  }

  lemma {:induction false} SelectRetained(v: Versions, ps: seq<Package>, f: Filter, w: Wanted, current: string)
    ensures Select(v, Retained(ps, f), w, current) ==
      if Covers(f, w.category, w.name) then None else Select(v, ps, w, current)
  {
    if ps == [] {
    } else {
      var front, last := ps[..|ps| - 1], ps[|ps| - 1];
      SelectRetained(v, front, f, w, current);
      assert ps == front + [last];
      SelectAppend(v, front, [last], w, current);
      SelectAppend(v, Retained(front, f), [last], w, current);
      assert [last][1..] == [];
      assert Retained(front, f) + [] == Retained(front, f);
    }
  }

  lemma {:induction false} MergedSelects(
    v: Versions, old_: seq<Package>, f: Filter, new_: seq<Package>, w: Wanted, current: string)
    requires forall i :: 0 <= i < |new_| ==> Covers(f, new_[i].category, new_[i].name)
    ensures Select(v, Retained(old_, f) + new_, w, current) ==
      Select(v, if Covers(f, w.category, w.name) then new_ else old_, w, current)
  {
    SelectRetained(v, old_, f, w, current);
    SelectAppend(v, Retained(old_, f), new_, w, current);
    if !Covers(f, w.category, w.name) {
      assert Select(v, new_, w, current) == None;
    }
  }

  /** If the filter stands for every new package, then for every key, usage and installed tag the merged
      list selects what a rescan would: from the new list for the keys the filter's text stands for, from
      the old one for all others. */
  lemma {:induction false} PartialScanLooksLikeRescan(
    v: Versions, old_: seq<Package>, filter: string, new_: seq<Package>, w: Wanted, current: string)
    requires AllCovered(filter, new_)
    ensures Select(v, Retained(old_, SplitFilter(filter)) + new_, w, current) ==
      Select(v, if TextCovers(filter, w.category, w.name) then new_ else old_, w, current)
  {
    hide SplitFilter, Covers, TextCovers;
    SplitFilterMeaning(filter, w.category, w.name);
    forall i | 0 <= i < |new_| ensures Covers(SplitFilter(filter), new_[i].category, new_[i].name) {
      SplitFilterMeaning(filter, new_[i].category, new_[i].name);
    }
    MergedSelects(v, old_, SplitFilter(filter), new_, w, current);
  }
}
