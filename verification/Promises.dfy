/**
  What a reconcile and a cleanup promise, in terms of the answers of the environment, the fields of the cached
  packages, and the status that results; none of the operator's own functions is needed to read it.
*/
module Promises {
  import opened Strings
  import opened Packages
  import opened Reconcile
  import Semver
  import S = InstanceStatus

  // ── Requirements ──────────────────────────────────────────────────────────

  const U64: nat := 0x1_0000_0000_0000_0000

  /** Both members of the cluster's version are 64-bit numbers. */
  predicate Readable(cluster: Option<(Field, Field)>) {
    && cluster.Some? && cluster.value.0.Number? && cluster.value.1.Number?
    && cluster.value.0.number < U64 && cluster.value.1.number < U64
  }

  /** The cluster is at least `major.minor`. */
  predicate Reaches(cluster: Option<(Field, Field)>, major: nat, minor: nat)
    requires Readable(cluster)
  {
    cluster.value.0.number > major || (cluster.value.0.number == major && cluster.value.1.number >= minor)
  }

  /** Requirements that are asked of the cluster, a script or the other instances. */
  predicate Probed(kind: S.Kind, r: Requirement) {
    || r.CustomResourceDefinition? || r.Prefly? || r.SystemPackage? || r.SystemService?
    || (kind == S.TenantKind && (r.TenantPackage? || r.TenantService?))
  }

  /** Requirements that never block. */
  predicate Ignored(kind: S.Kind, r: Requirement) {
    || r.StorageCapability? || r.MinimumPreviousVersion? || r.Cpu? || r.Memory? || r.Disk?
    || (kind != S.TenantKind && (r.TenantPackage? || r.TenantService?))
  }

  predicate Satisfied(kind: S.Kind, r: Requirement, a: Answers) {
    && (Probed(kind, r) ==> a.probe(r) == Some(true))
    && (r.VynilVersion? ==>
          && Semver.Parse(r.version).Some? && Semver.Parse(a.vynil).Some?
          && Semver.Le(Semver.Parse(r.version).value, Semver.Parse(a.vynil).value))
    && (r.ClusterVersion? ==> Readable(a.cluster) && Reaches(a.cluster, r.major, r.minor))
  }

  predicate Refuted(kind: S.Kind, r: Requirement, a: Answers) {
    || (Probed(kind, r) && a.probe(r) == Some(false))
    || (r.VynilVersion?
        && Semver.Parse(r.version).Some? && Semver.Parse(a.vynil).Some?
        && !Semver.Le(Semver.Parse(r.version).value, Semver.Parse(a.vynil).value))
    || (r.ClusterVersion? && Readable(a.cluster) && !Reaches(a.cluster, r.major, r.minor))
  }

  /** The check passes exactly on a satisfied requirement and fails exactly on a refuted one; a probe that was not
      answered, or a version that cannot be read, is an error. */
  lemma {:induction false} CheckMeaning(kind: S.Kind, r: Requirement, a: Answers)
    ensures CheckRequirement(kind, r, a) == Pass <==> Satisfied(kind, r, a)
    ensures CheckRequirement(kind, r, a) == Fail <==> Refuted(kind, r, a)
    ensures Ignored(kind, r) ==> Satisfied(kind, r, a)
    ensures Probed(kind, r) && a.probe(r) == None ==> CheckRequirement(kind, r, a) == Broken
  {
    hide Semver.Parse, Semver.Le, ParseU64, Rendered, CheckCluster;
    if r.ClusterVersion? {
      ClusterMeaning(r.major, r.minor, a.cluster);
    }
  }

  lemma {:induction false} ClusterMeaning(major: nat, minor: nat, cluster: Option<(Field, Field)>)
    ensures CheckCluster(major, minor, cluster) ==
      if !Readable(cluster) then Broken else if Reaches(cluster, major, minor) then Pass else Fail
  {
    hide ParseU64, Rendered;
    if cluster.Some? {
      ClusterCheckMeaning(major, minor, cluster.value.0, cluster.value.1);
    } else {
      NoCluster(major, minor);
    }
  }

  lemma {:induction false} NoCluster(major: nat, minor: nat)
    ensures CheckCluster(major, minor, None) == Broken
  {
  }

  predicate SatisfiedUpTo(kind: S.Kind, rs: seq<Requirement>, n: nat, a: Answers)
    requires n <= |rs|
  {
    forall i :: 0 <= i < n ==> Satisfied(kind, rs[i], a)
  }

  predicate AllSatisfied(kind: S.Kind, rs: seq<Requirement>, a: Answers) {
    SatisfiedUpTo(kind, rs, |rs|, a)
  }

  lemma {:induction false} FirstUnsatisfied(kind: S.Kind, rs: seq<Requirement>, a: Answers)
    ensures var i := FirstBlocked(kind, rs, a);
      && (i == |rs| <==> AllSatisfied(kind, rs, a))
      && SatisfiedUpTo(kind, rs, i, a)
      && (i < |rs| ==>
            && !Satisfied(kind, rs[i], a)
            && (CheckRequirement(kind, rs[i], a).Fail? <==> Refuted(kind, rs[i], a)))
  {
    hide CheckRequirement, Satisfied, Refuted;
    var i := FirstBlocked(kind, rs, a);
    forall j | 0 <= j < |rs|
      ensures CheckRequirement(kind, rs[j], a) == Pass <==> Satisfied(kind, rs[j], a)
      ensures CheckRequirement(kind, rs[j], a) == Fail <==> Refuted(kind, rs[j], a)
    {
      CheckMeaning(kind, rs[j], a);
    }
    assert i < |rs| ==> !Satisfied(kind, rs[i], a);
  }

  // ── Packages ──────────────────────────────────────────────────────────────

  /** The package carries the name, category and usage the instance asks for. */
  predicate OfInstance(inst: Obj, p: Package) {
    && p.name == inst.spec.package && p.category == inst.spec.category
    && (inst.spec.kind == S.SystemKind <==> p.usage == System)
    && (inst.spec.kind == S.ServiceKind <==> p.usage == Service)
  }

  /** The installed version, or the empty text. */
  function InstalledTag(inst: Obj): string {
    match inst.status
    case Some(status) => if status.tag == None then "" else status.tag.value
    case None => ""
  }

  /** And its first stated vynil version and first stated minimum, where they can be read, are not above the
      operator's version and the installed one. */
  ghost predicate ForInstance(inst: Obj, a: Answers, p: Package) {
    && OfInstance(inst, p)
    && FirstVynilOk(BySemver(), p, a.vynil)
    && FirstMinimumOk(BySemver(), p, InstalledTag(inst))
  }

  function Box(inst: Obj, a: Answers): seq<Package>
    requires inst.spec.jukebox in a.cache
  {
    a.cache[inst.spec.jukebox].packages
  }

  /** Package `k` of the cached list is the first for the instance. */
  ghost predicate FirstFor(inst: Obj, a: Answers, k: nat) {
    && inst.spec.jukebox in a.cache && k < |Box(inst, a)| && ForInstance(inst, a, Box(inst, a)[k])
    && forall j :: 0 <= j < k ==> !ForInstance(inst, a, Box(inst, a)[j])
  }

  ghost predicate NoneFor(inst: Obj, a: Answers) {
    inst.spec.jukebox in a.cache && forall j :: 0 <= j < |Box(inst, a)| ==> !ForInstance(inst, a, Box(inst, a)[j])
  }

  lemma {:induction false} EligibleIffForInstance(inst: Obj, a: Answers, p: Package)
    ensures Eligible(BySemver(), p, WantedBy(inst.spec, a), CurrentTag(inst.status)) <==> ForInstance(inst, a, p)
    ensures Fits(p, WantedBy(inst.spec, a)) <==> OfInstance(inst, p)
    ensures CurrentTag(inst.status) == InstalledTag(inst)
  {
    hide Eligible, FirstVynilOk, FirstMinimumOk;
    SuitsIffEligible(BySemver(), p, WantedBy(inst.spec, a), CurrentTag(inst.status));
  }

  /** What is selected is the first package for the instance. */
  lemma {:induction false} SelectedIsFirstFor(inst: Obj, a: Answers) returns (k: nat)
    requires inst.spec.jukebox in a.cache
    ensures BoxCached(inst, a) && Cached(inst, a) == Box(inst, a)
    ensures k < |Box(inst, a)| ==> FirstFor(inst, a, k) && Selected(inst, a) == Some(Box(inst, a)[k])
    ensures k >= |Box(inst, a)| ==> NoneFor(inst, a) && Selected(inst, a) == None
  {
    hide Eligible, ForInstance, WantedBy, CurrentTag;
    var ps := Box(inst, a);
    k := First(BySemver(), ps, WantedBy(inst.spec, a), CurrentTag(inst.status));
    forall j | 0 <= j < |ps|
      ensures Eligible(BySemver(), ps[j], WantedBy(inst.spec, a), CurrentTag(inst.status)) <==>
        ForInstance(inst, a, ps[j])
    {
      EligibleIffForInstance(inst, a, ps[j]);
    }
  }

  // ── The first restoration ─────────────────────────────────────────────────

  /** No version is installed yet, and the instance asks for one to start from. */
  predicate Restores(inst: Obj) {
    inst.spec.kind != S.SystemKind && inst.spec.initFrom != None && InstalledTag(inst) == ""
  }

  /** Some cached package of the instance has that version. */
  predicate InBox(inst: Obj, a: Answers)
    requires inst.spec.jukebox in a.cache && Restores(inst)
  {
    exists i | 0 <= i < |Box(inst, a)| :: OfInstance(inst, Box(inst, a)[i]) && Box(inst, a)[i].tag == inst.spec.initFrom.value
  }

  lemma {:induction false} ResolutionMeaning(inst: Obj, a: Answers)
    requires inst.spec.jukebox in a.cache
    ensures BoxCached(inst, a)
    ensures ResolveInitVersion(inst, a) ==
      if !Restores(inst) then NoOverride
      else if InBox(inst, a) || a.registry == Some(true) then Use(inst.spec.initFrom.value)
      else if a.registry == Some(false) then Missing(inst.spec.initFrom.value)
      else Unanswered
  {
    hide OfInstance, Fits;
    var w, ps := WantedBy(inst.spec, a), Box(inst, a);
    forall p ensures Fits(p, w) <==> OfInstance(inst, p) {
      EligibleIffForInstance(inst, a, p);
    }
    if Restores(inst) {
      var t := inst.spec.initFrom.value;
      forall i | 0 <= i < |ps| ensures Fits(ps[i], w) && ps[i].tag == t <==> OfInstance(inst, ps[i]) && ps[i].tag == t {
      }
      assert InCache(ps, w, t) <==> InBox(inst, a);
    }
  }

  // ── When a job is made, and what it is ─────────────────────────────────────

  /** The version to restore, where there is one, is to be had. */
  predicate Restorable(inst: Obj, a: Answers)
    requires inst.spec.jukebox in a.cache
  {
    Restores(inst) ==> InBox(inst, a) || a.registry == Some(true)
  }

  /** The reconcile may go on to the job, with package `k`. */
  ghost predicate Warranted(inst: Obj, a: Answers, k: nat) {
    && !inst.suspended
    && FirstFor(inst, a, k)
    && Restorable(inst, a)
    && AllSatisfied(inst.spec.kind, Box(inst, a)[k].requirements, a)
    && a.recommendations != None && a.values != None
  }

  function FinalTag(inst: Obj, p: Package): string {
    if Restores(inst) then inst.spec.initFrom.value else p.tag
  }

  /** The template of an install job, field by field. */
  ghost predicate InstallJob(t: Template, inst: Obj, a: Answers, k: nat)
    requires Warranted(inst, a, k)
  {
    var p := Box(inst, a)[k];
    && t.action == "install" && t.tag == FinalTag(inst, p) && t.registry == p.registry && t.image == p.image
    && t.digest == inst.digest && t.pullSecret == a.cache[inst.spec.jukebox].pullSecret
    && Some(t.recommended) == a.recommendations && Some(t.values) == a.values
  }

  lemma {:induction false} OpenIffWarranted(inst: Obj, a: Answers) returns (k: nat)
    ensures GatesOpen(inst, a) <==> Warranted(inst, a, k)
    ensures !GatesOpen(inst, a) ==> forall j: nat :: !Warranted(inst, a, j)
    ensures GatesOpen(inst, a) ==>
      && Selected(inst, a) == Some(Box(inst, a)[k]) && EffectiveTag(inst, a) == FinalTag(inst, Box(inst, a)[k])
      && InstallJob(TemplateOf(inst, a), inst, a, k)
  {
    hide Selected, ResolveInitVersion, FirstBlocked, ForInstance, Satisfied, InBox;
    k := 0;
    if inst.spec.jukebox in a.cache {
      k := SelectedIsFirstFor(inst, a);
      ResolutionMeaning(inst, a);
      if k < |Box(inst, a)| {
        FirstUnsatisfied(inst.spec.kind, Box(inst, a)[k].requirements, a);
      }
    }
  }

  lemma {:induction false} WarrantedIsFirst(inst: Obj, a: Answers, j: nat, k: nat)
    requires FirstFor(inst, a, j) && FirstFor(inst, a, k)
    ensures j == k
  {
    hide ForInstance;
  }

  /** A reconcile that reports an upsert had a warrant, and the job there carries exactly its template. */
  lemma {:induction false} UpsertIsWarranted(o: Obj, inst: Obj, a: Answers) returns (k: nat)
    requires Reconciled(o, inst, a).1.Upserted?
    ensures Warranted(inst, a, k)
    ensures var (after, r) := Reconciled(o, inst, a);
      && r.tag == FinalTag(inst, Box(inst, a)[k])
      && after.job != None && InstallJob(after.job.value.template, inst, a, k)
      && after.status == o.status
  {
    hide GatesOpen, Reconciled, TemplateOf, InstallJob, Warranted, Selected, CheckRequirement, EffectiveTag;
    UpsertedPassedEveryGate(o, inst, a);
    k := OpenIffWarranted(inst, a);
    UpsertKeepsStatus(o, inst, a);
  }

  lemma {:induction false} UpsertKeepsStatus(o: Obj, inst: Obj, a: Answers)
    requires GatesOpen(inst, a)
    ensures Reconciled(o, inst, a).0.status == o.status
  {
    hide GatesOpen, TemplateOf, EffectiveTag, UpsertedJob, DeletedJob;
  }

  /** And with a warrant and every call answered, the upsert is made, over any job there is. */
  lemma {:induction false} WarrantIsServed(o: Obj, inst: Obj, a: Answers, k: nat)
    requires Warranted(inst, a, k) && (inst.force ==> o.force) && Answered(a)
    ensures var (after, r) := Reconciled(o, inst, a);
      && r == Upserted(FinalTag(inst, Box(inst, a)[k]))
      && after.job != None && InstallJob(after.job.value.template, inst, a, k)
      && (inst.force ==> !after.force && after.job.value.uid == o.nextUid)
  {
    hide GatesOpen, Reconciled, TemplateOf, InstallJob, Selected, EffectiveTag, AllSatisfied, ForInstance, InBox;
    var j := OpenIffWarranted(inst, a);
    WarrantedIsFirst(inst, a, j, k);
    ReconcileConverges(o, inst, a);
  }

  /** With a warrant and a forced reinstall: the annotation goes first, which fails if it is gone already; then the
      old job, where it is seen and the delete is taken; and after that the job is new. Unforced, the annotation
      stays as it is. */
  lemma {:induction false} ForceGoesFirst(o: Obj, inst: Obj, a: Answers, k: nat)
    requires Warranted(inst, a, k)
    ensures var (after, r) := Reconciled(o, inst, a);
      && (inst.force && !(a.annotationPatch && o.force) ==> after == o && r == Stopped)
      && (inst.force && a.annotationPatch && o.force ==> !after.force)
      && (!inst.force ==> after.force == o.force)
      && (inst.force && a.annotationPatch && o.force && a.calls.read && a.calls.forcedDelete && o.job != None ==>
            if a.calls.forcedGone then after.job == None || after.job.value.uid == o.nextUid
            else after.job == o.job && r == Stopped)
  {
    hide GatesOpen, TemplateOf, EffectiveTag, InstallJob, Warranted, Selected;
    var j := OpenIffWarranted(inst, a);
  }

  // ── What a closed gate leaves ──────────────────────────────────────────────

  /** A condition is noted and the outcome reached. Nothing is patched where the object handed over lists the
      condition already; otherwise the list becomes that of the object handed over with this condition alone of
      its type. A patch that is refused, or not announced, stops the reconcile. */
  ghost predicate Noticed(o: Obj, inst: Obj, a: Answers, c: S.Cond, outcome: Outcome, after: Obj, r: Outcome) {
    && after == o.(status := after.status)
    && (if c in S.Conditions(inst.status) then after == o && r == outcome
        else if !a.statusPatch then after == o && r == Stopped
        else
          && S.Becomes(inst.status, after.status, c.ctype, c.ok, c.generation)
          && S.Says(after.status, c.ctype, c.message)
          && (o.status != None ==> S.SameFields(o.status, after.status))
          && r == if a.event then outcome else Stopped)
  }

  lemma {:induction false} NoteIsNoticed(o: Obj, inst: Obj, a: Answers, s: S.Setter, c: S.Cond, outcome: Outcome)
    requires S.Guarded(s, inst.generation) == Some(c) && S.Clears(o.spec.kind, s) == [c.ctype]
    ensures Noticed(o, inst, a, c, outcome, Noted(o, s, inst, a.statusPatch), if NoteOk(inst, s, a) then outcome else Stopped)
  {
    hide *;
    GuardedFacts(inst.status, s, inst.generation, c);
    NoteCases(o, inst, a, s);
    if S.Skips(inst.status, s, inst.generation) {
      NoteIsSkipped(o, inst, s);
    } else {
      PatchedNote(o.spec.kind, inst.status, o.status, s, inst.generation, inst.digest, c);
    }
    NoticedByCases(o, inst, a, c, outcome, Noted(o, s, inst, a.statusPatch), if NoteOk(inst, s, a) then outcome else Stopped);
  }

  lemma {:induction false} NoticedByCases(
    o: Obj, inst: Obj, a: Answers, c: S.Cond, outcome: Outcome, after: Obj, r: Outcome)
    requires after == o.(status := after.status)
    requires c in S.Conditions(inst.status) ==> after == o && r == outcome
    requires c !in S.Conditions(inst.status) && !a.statusPatch ==> after == o && r == Stopped
    requires c !in S.Conditions(inst.status) && a.statusPatch ==>
      && S.Becomes(inst.status, after.status, c.ctype, c.ok, c.generation) && S.Says(after.status, c.ctype, c.message)
      && (o.status != None ==> S.SameFields(o.status, after.status)) && r == if a.event then outcome else Stopped
    ensures Noticed(o, inst, a, c, outcome, after, r)
  {
    hide S.Becomes, S.Says, S.Conditions, S.SameFields;
  }

  lemma {:induction false} NoteCases(o: Obj, inst: Obj, a: Answers, s: S.Setter)
    ensures var t := S.SetFrom(o.spec.kind, inst.status, o.status, s, inst.generation, inst.digest);
      && Noted(o, s, inst, true) == o.(status := t) && Noted(o, s, inst, false) == o
      && (NoteOk(inst, s, a) <==> S.Skips(inst.status, s, inst.generation) || (a.statusPatch && a.event))
      && (Skipped(inst, s) <==> S.Skips(inst.status, s, inst.generation))
  {
    hide S.SetFrom, S.Skips;
  }

  lemma {:induction false} PatchedNote(
    kind: S.Kind, seen: Option<S.Status>, status: Option<S.Status>, s: S.Setter, g: int, digest: string, c: S.Cond)
    requires S.Guarded(s, g) == Some(c) && S.Clears(kind, s) == [c.ctype] && !S.Skips(seen, s, g)
    ensures var t := S.SetFrom(kind, seen, status, s, g, digest);
      && S.Becomes(seen, t, c.ctype, c.ok, c.generation) && S.Says(t, c.ctype, c.message)
      && (status != None ==> S.SameFields(status, t))
  {
    hide *;
    var made, t := S.Set(kind, seen, s, g, digest), S.SetFrom(kind, seen, status, s, g, digest);
    GuardedFacts(seen, s, g, c);
    S.OneWriteBecomes(kind, seen, s, g, digest, c);
    S.SetFromConditions(kind, seen, status, s, g, digest);
    SameListSameEffect(seen, made, t, c);
    GuardedKeepsAllFields(kind, seen, status, s, g, digest);
  }

  lemma {:induction false} GuardedFacts(seen: Option<S.Status>, s: S.Setter, g: int, c: S.Cond)
    requires S.Guarded(s, g) == Some(c)
    ensures S.Skips(seen, s, g) <==> c in S.Conditions(seen)
    ensures c.generation == g && !S.Refused(seen, s)
    ensures forall left :: S.Writes(s, left, g) == [c]
  {
    hide S.Conditions;
  }

  lemma {:induction false} SameListSameEffect(before: Option<S.Status>, x: Option<S.Status>, y: Option<S.Status>, c: S.Cond)
    requires S.Conditions(x) == S.Conditions(y)
    ensures S.Becomes(before, x, c.ctype, c.ok, c.generation) <==> S.Becomes(before, y, c.ctype, c.ok, c.generation)
    ensures S.Says(x, c.ctype, c.message) <==> S.Says(y, c.ctype, c.message)
  {
    hide S.Conditions;
  }

  lemma {:induction false} GuardedKeepsAllFields(
    kind: S.Kind, seen: Option<S.Status>, status: Option<S.Status>, s: S.Setter, g: int, digest: string)
    requires S.Guarded(s, g).Some?
    ensures status.Some? ==> S.SameFields(status, S.SetFrom(kind, seen, status, s, g, digest))
  {
    hide S.Clears, S.Writes, S.Excluding;
  }

  /** The gates before the package is known. */
  lemma {:induction false} EarlyGates(o: Obj, inst: Obj, a: Answers)
    ensures var (after, r) := Reconciled(o, inst, a);
      && (inst.suspended ==> after == o && r == Suspended)
      && (!inst.suspended && inst.spec.jukebox !in a.cache ==>
            Noticed(o, inst, a, S.Cond(S.AgentStarted, false, "JukeBox " + inst.spec.jukebox + " is missing", inst.generation),
                    NoBox, after, r))
      && (!inst.suspended && NoneFor(inst, a) ==>
            Noticed(o, inst, a, S.Cond(S.AgentStarted, false,
                                       "Package " + inst.spec.category + "/" + inst.spec.package + " is missing",
                                       inst.generation),
                    NoPackage, after, r))
  {
    hide Noticed, Noted, NoteOk, S.Clears, Selected, ForInstance, ResolveInitVersion, FirstBlocked, Installed;
    var box, package := S.MissingBox(inst.spec.jukebox), S.MissingPackage(inst.spec.category, inst.spec.package);
    ClearsOwn(o.spec.kind, box, inst.generation);
    ClearsOwn(o.spec.kind, package, inst.generation);
    NoteIsNoticed(o, inst, a, box, S.Guarded(box, inst.generation).value, NoBox);
    NoteIsNoticed(o, inst, a, package, S.Guarded(package, inst.generation).value, NoPackage);
    if inst.spec.jukebox in a.cache {
      var k := SelectedIsFirstFor(inst, a);
    }
  }

  lemma {:induction false} ClearsOwn(kind: S.Kind, s: S.Setter, g: int)
    requires S.Guarded(s, g).Some?
    ensures S.Clears(kind, s) == [S.Guarded(s, g).value.ctype]
  {
  }

  /** The package is known, and the version to restore is not to be had. */
  lemma {:induction false} RestorationGate(o: Obj, inst: Obj, a: Answers, k: nat)
    requires !inst.suspended && FirstFor(inst, a, k) && !Restorable(inst, a)
    ensures var (after, r) := Reconciled(o, inst, a);
      && (a.registry == None ==> after == o && r == Stopped)
      && (a.registry == Some(false) ==>
            Noticed(o, inst, a, S.Cond(S.InitFrom, false,
                                       "[E_INIT_VERSION_NOT_FOUND] Version " + inst.spec.initFrom.value
                                       + " introuvable dans le registre OCI", inst.generation),
                    NoInitVersion, after, r))
  {
    hide Noticed, Noted, NoteOk, S.Clears, Selected, ForInstance, ResolveInitVersion, FirstBlocked, Installed, InBox;
    var s := S.MissingInitVersion(inst.spec.initFrom.value);
    ClearsOwn(o.spec.kind, s, inst.generation);
    NoteIsNoticed(o, inst, a, s, S.Guarded(s, inst.generation).value, NoInitVersion);
    ResolutionMeaning(inst, a);
    var j := SelectedIsFirstFor(inst, a);
    WarrantedIsFirst(inst, a, j, k);
  }

  lemma {:induction false} ThreeAnswers(answer: Option<bool>)
    ensures answer == None || answer == Some(true) || answer == Some(false)
  {
    match answer
    case None =>
    case Some(yes) => assert yes == true || yes == false;
  }

  /** The first requirement that is not satisfied decides: a refuted one is noted, any other stops; and with all
      satisfied, missing recommendations or values stop. */
  lemma {:induction false} RequirementGate(o: Obj, inst: Obj, a: Answers, k: nat, i: nat)
    requires !inst.suspended && FirstFor(inst, a, k) && Restorable(inst, a)
    requires i <= |Box(inst, a)[k].requirements| && SatisfiedUpTo(inst.spec.kind, Box(inst, a)[k].requirements, i, a)
    ensures var (after, r) := Reconciled(o, inst, a);
      var rs, kind := Box(inst, a)[k].requirements, inst.spec.kind;
      && (i < |rs| && Refuted(kind, rs[i], a) ==>
            Noticed(o, inst, a, S.Cond(S.AgentStarted, false, Reason(rs[i], a), inst.generation), Blocked(i), after, r))
      && (i < |rs| && !Satisfied(kind, rs[i], a) && !Refuted(kind, rs[i], a) ==> after == o && r == Stopped)
      && (i == |rs| && (a.recommendations == None || a.values == None) ==> after == o && r == Stopped)
  {
    hide Noticed, Noted, NoteOk, S.Clears, Selected, ForInstance, ResolveInitVersion, Installed, InBox, Satisfied, Refuted,
      Reason, CheckRequirement;
    var rs, kind := Box(inst, a)[k].requirements, inst.spec.kind;
    ResolutionMeaning(inst, a);
    var j := SelectedIsFirstFor(inst, a);
    WarrantedIsFirst(inst, a, j, k);
    FirstUnsatisfied(kind, rs, a);
    if i < |rs| {
      var s := S.MissingRequirement(Reason(rs[i], a));
      ClearsOwn(o.spec.kind, s, inst.generation);
      NoteIsNoticed(o, inst, a, s, S.Guarded(s, inst.generation).value, Blocked(i));
      RefutedIsUnsatisfied(kind, rs[i], a);
      if !Satisfied(kind, rs[i], a) {
        UnsatisfiedIsFirst(kind, rs, a, i, FirstBlocked(kind, rs, a));
      }
    }
  }

  lemma {:induction false} RefutedIsUnsatisfied(kind: S.Kind, r: Requirement, a: Answers)
    ensures Refuted(kind, r, a) ==> !Satisfied(kind, r, a)
  {
  }

  lemma {:induction false} UnsatisfiedIsFirst(kind: S.Kind, rs: seq<Requirement>, a: Answers, i: nat, j: nat)
    requires i < |rs| && SatisfiedUpTo(kind, rs, i, a) && !Satisfied(kind, rs[i], a)
    requires j <= |rs| && SatisfiedUpTo(kind, rs, j, a) && (j < |rs| ==> !Satisfied(kind, rs[j], a))
    ensures i == j
  {
    hide Satisfied;
  }

  /** What each outcome says. Only a refuted requirement ever blocks, and none of those that are ignored. */
  lemma {:induction false} OutcomeNamesTheGate(o: Obj, inst: Obj, a: Answers) returns (k: nat)
    ensures var r := Reconciled(o, inst, a).1;
      && (r.Suspended? <==> inst.suspended)
      && (r.NoBox? ==> inst.spec.jukebox !in a.cache)
      && (r.NoPackage? ==> NoneFor(inst, a))
      && (r.NoInitVersion? ==>
            FirstFor(inst, a, k) && Restores(inst) && !InBox(inst, a) && a.registry == Some(false))
      && (r.Blocked? ==>
            && FirstFor(inst, a, k)
            && var rs := Box(inst, a)[k].requirements;
               && r.requirement < |rs|
               && SatisfiedUpTo(inst.spec.kind, rs, r.requirement, a)
               && Refuted(inst.spec.kind, rs[r.requirement], a)
               && !Ignored(inst.spec.kind, rs[r.requirement])
               && (Probed(inst.spec.kind, rs[r.requirement]) ==> a.probe(rs[r.requirement]) == Some(false)))
      && (r.Upserted? ==> Warranted(inst, a, k))
  {
    hide Reconciled, ForInstance, Satisfied, Refuted, InBox, Reason, Probed, Ignored, S.Becomes, S.Says, S.Conditions,
      S.SameFields;
    k := 0;
    EarlyGates(o, inst, a);
    if !inst.suspended && inst.spec.jukebox in a.cache {
      k := SelectedIsFirstFor(inst, a);
      if k < |Box(inst, a)| {
        var rs, kind := Box(inst, a)[k].requirements, inst.spec.kind;
        if !Restorable(inst, a) {
          RestorationGate(o, inst, a, k);
          ThreeAnswers(a.registry);
        } else {
          FirstUnsatisfied(kind, rs, a);
          var i := FirstBlocked(kind, rs, a);
          RequirementGate(o, inst, a, k, i);
          if i < |rs| {
            if Refuted(kind, rs[i], a) {
              OnlyProbesAreRefuted(kind, rs[i], a);
            }
          } else if a.recommendations != None && a.values != None {
            WarrantEndsOtherwise(o, inst, a, k);
          }
        }
      }
    }
  }

  lemma {:induction false} OnlyProbesAreRefuted(kind: S.Kind, r: Requirement, a: Answers)
    requires Refuted(kind, r, a)
    ensures !Ignored(kind, r) && (Probed(kind, r) ==> a.probe(r) == Some(false))
  {
  }

  lemma {:induction false} WarrantEndsOtherwise(o: Obj, inst: Obj, a: Answers, k: nat)
    requires Warranted(inst, a, k)
    ensures Reconciled(o, inst, a).1.Upserted? || Reconciled(o, inst, a).1.Stopped?
  {
    hide GatesOpen, Warranted, TemplateOf, UpsertedJob, DeletedJob, EffectiveTag, InstallJob, Selected;
    var j := OpenIffWarranted(inst, a);
  }

  /** In every run that starts without a job, a job that is there was upserted by a reconcile that had a warrant
      for it: the first package of the cached list for the instance, with every requirement satisfied. It carries
      exactly the template of that reconcile. */
  lemma {:induction false} JobPassedEveryGate(s: World, events: seq<Event>) returns (i: nat, k: nat)
    requires s.obj.job.None? && After(s, events).obj.job.Some?
    ensures i < |events| && events[i].Finish? && After(s, events[..i]).held.Some?
    ensures var inst, a := After(s, events[..i]).held.value, events[i].answers;
      Warranted(inst, a, k) && InstallJob(After(s, events).obj.job.value.template, inst, a, k)
  {
    hide *;
    i := JobFromReconcile(s, events);
    k := OpenIffWarranted(After(s, events[..i]).held.value, events[i].answers);
  }

  // ── Cleanup ───────────────────────────────────────────────────────────────

  /** The template of a delete job, field by field: always the selected package's own tag. */
  ghost predicate DeleteJob(t: Template, inst: Obj, a: Answers, p: Package)
    requires inst.spec.jukebox in a.cache
  {
    && t.action == "delete" && t.tag == p.tag && t.registry == p.registry && t.image == p.image
    && t.digest == inst.digest && t.pullSecret == a.cache[inst.spec.jukebox].pullSecret
    && t.recommended.crds == [] && t.recommended.systemServices == [] && t.recommended.tenantServices == []
    && Some(t.values) == a.values
  }

  /** Without a package for the instance. */
  lemma {:induction false} CleanupWithoutPackage(o: Obj, inst: Obj, a: Answers)
    requires inst.spec.jukebox !in a.cache || NoneFor(inst, a)
    ensures CleanedUp(o, inst, a) ==
      (o, if inst.spec.jukebox in a.cache && S.HaveChild(inst.spec.kind, inst.status) then ChildrenLeft
          else Outcome.Finished(None))
  {
    hide Selected, ForInstance, S.HaveChild;
    if inst.spec.jukebox in a.cache {
      var k := SelectedIsFirstFor(inst, a);
    }
  }

  /** With one: it finishes only after its delete job was made anew and completed, and takes that job away unless
      the delete is refused; what it makes is the delete job of that package, and nothing but the job changes. */
  lemma {:induction false} CleanupWithPackage(o: Obj, inst: Obj, a: Answers, k: nat)
    requires FirstFor(inst, a, k) && (o.job != None ==> o.job.value.uid < o.nextUid)
    ensures var (after, r) := CleanedUp(o, inst, a);
      var p, made := Box(inst, a)[k], after.job != o.job && after.job != None;
      && (r == Outcome.Finished(Some(p.tag)) || r == Stopped)
      && (made ==> after.job.value.uid == o.nextUid && DeleteJob(after.job.value.template, inst, a, p))
      && (r.Finished? ==> a.calls.create && a.calls.completes && a.values != None)
      && (r.Finished? ==> after.nextUid > o.nextUid && if a.calls.delete then after.job == None else made)
      && (a.values != None && Answered(a) && a.calls.completes ==> r.Finished?)
      && after == o.(job := after.job, nextUid := after.nextUid)
  {
    hide Selected, ForInstance;
    var j := SelectedIsFirstFor(inst, a);
    WarrantedIsFirst(inst, a, j, k);
  }

  // ── Job calls ─────────────────────────────────────────────────────────────

  /** Whatever the calls answer: success means the wanted template is there, kept or under a new uid; a failure
      keeps the old job, or loses it when the create after its delete fails. A job is kept if its template is the
      wanted one and the patch goes through; it is replaced only after it was deleted and gone. */
  lemma {:induction false} UpsertMeaning(job: Option<Job>, wanted: Template, uid: nat, c: Calls)
    requires job != None ==> job.value.uid < uid
    ensures var (made, ok) := UpsertedJob(job, wanted, uid, c);
      && (ok ==> made != None && made.value.template == wanted && (made == job || made.value.uid == uid))
      && (!ok ==> made == job || (made == None && !c.create))
      && (job != None && made != job ==> c.delete && c.gone)
      && (job != None && job.value.template == wanted && c.patch ==> ok && made == job)
      && (job == None ==> (ok <==> c.patch))
      && (job != None ==> (made == None <==>
            !(job.value.template == wanted && c.patch) && c.delete && c.gone && !c.create))
      && (job != None && !(job.value.template == wanted && c.patch) ==> (ok <==> c.delete && c.gone && c.create))
  {
  }

  /** A forced delete leaves a job exactly when the delete is refused or the job does not go; only the second is
      an error. */
  lemma {:induction false} DeleteMeaning(job: Option<Job>, c: Calls)
    ensures var (left, ok) := DeletedJob(job, c);
      && (left == None || left == job)
      && (job != None ==> (left == None <==> c.forcedDelete && c.forcedGone))
      && (ok <==> job == None || !c.forcedDelete || c.forcedGone)
  {
  }

  // ── What the agent reported ───────────────────────────────────────────────

  lemma {:induction false} NotesSetNothing(s: World, events: seq<Event>)
    requires s.held.Some? ==> s.held.value.spec.kind == s.obj.spec.kind
    ensures var calls, reports := SetterCalls(s, events), Reports(events);
      && S.LastTofu(calls) == S.LastTofu(reports) && S.LastRhai(calls) == S.LastRhai(reports)
      && S.LastSuccess(calls) == S.LastSuccess(reports)
  {
    hide NoteOf, After, S.LastTofu, S.LastRhai, S.LastSuccess;
    if events == [] {
    } else {
      var front, e := events[..|events| - 1], events[|events| - 1];
      NotesSetNothing(s, front);
      KindStays(s, front);
      var w, calls := After(s, front), SetterCalls(s, front);
      assert Reports(front) + [] == Reports(front) && calls + [] == calls;
      if e.Agent? {
        OneMoreReport(calls, e.call);
        OneMoreReport(Reports(front), e.call);
      } else if NoteOf(w, e).Some? {
        NoteIsHeld(w, e);
        NoteFacts(w, e);
        OneMoreReport(calls, NoteOf(w, e).value);
      }
    }
  }

  lemma {:induction false} OneMoreReport(calls: seq<S.Call>, c: S.Call)
    ensures var all := calls + [c];
      && S.LastTofu(all) == (if c.answered && (c.s.Tfstate? || c.s.TofuFailed?) then Some(c.s.text) else S.LastTofu(calls))
      && S.LastRhai(all) == (if c.answered && (c.s.Rhaistate? || c.s.RhaiFailed?) then Some(c.s.text) else S.LastRhai(calls))
      && S.LastSuccess(all) == (if c.answered && c.s.SetReady? then Some((c.s.tag, c.digest)) else S.LastSuccess(calls))
  {
    assert (calls + [c])[..|calls|] == calls;
  }

  /** After every run of the whole system: the tofu and rhai states, the tag and the digest are those the agent
      last reported, whatever the operator noted and whichever objects it held. */
  lemma {:induction false} FieldsAreReports(s: World, events: seq<Event>)
    requires Starts(s, events)
    ensures var status, reports := After(s, events).obj.status, Reports(events);
      if status == None then
        S.LastTofu(reports) == None && S.LastRhai(reports) == None && S.LastSuccess(reports) == None
      else
        && status.value.tfstate == S.LastTofu(reports)
        && status.value.rhaistate == S.LastRhai(reports)
        && match S.LastSuccess(reports)
           case None => status.value.tag == None && status.value.digest == None
           case Some((tag, digest)) => status.value.tag == Some(tag) && status.value.digest == Some(digest)
  {
    hide *;
    var kind, calls := s.obj.spec.kind, SetterCalls(s, events);
    StartsOutside(s, events);
    FieldsOfARun(s, events);
    NotesSetNothing(s, events);
    S.FieldsAreLastCalls(kind, calls);
    SameFieldsSame(After(s, events).obj.status, S.After(kind, calls));
  }

  lemma {:induction false} SameFieldsSame(x: Option<S.Status>, y: Option<S.Status>)
    requires S.SameFields(x, y)
    ensures x.Some? <==> y.Some?
    ensures x.Some? ==>
      && x.value.tfstate == y.value.tfstate && x.value.rhaistate == y.value.rhaistate
      && x.value.tag == y.value.tag && x.value.digest == y.value.digest
  {
    if x.Some? {
      var f, g := x.value.(conditions := []), y.value.(conditions := []);
      assert f.tfstate == g.tfstate && f.rhaistate == g.rhaistate && f.tag == g.tag && f.digest == g.digest;
    }
  }
}
