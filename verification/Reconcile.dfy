/**
  Reconcile and cleanup of an instance: the order of the gates before the install job, the version used
  for a first restoration, and what is left when the object goes. A reconcile decides on the object it
  was handed and acts on the object as it is then. Everything outside the operator is an answer of the
  environment.
*/
module Reconcile {
  import opened Strings
  import opened Packages
  import Semver
  import PackageCache
  import S = InstanceStatus

  datatype Spec = Spec(
    kind: S.Kind, jukebox: string, category: string, package: string, initFrom: Option<string>)

  /** The recommended resources that are there, by kind. */
  datatype Recommended = Recommended(crds: seq<string>, systemServices: seq<string>, tenantServices: seq<string>)

  /** What a job's pod template is rendered from; it cannot change. */
  datatype Template = Template(
    action: string, tag: string, registry: string, image: string, digest: string,
    pullSecret: Option<string>, recommended: Recommended, values: Option<string>)

  datatype Job = Job(uid: nat, template: Template)

  datatype Obj = Obj(
    spec: Spec,
    suspended: bool,
    force: bool,
    status: Option<S.Status>,
    job: Option<Job>,
    nextUid: nat,
    generation: int,
    digest: string)

  // ── The environment's answers ─────────────────────────────────────────────

  /** A member of the API server's version object. */
  datatype Field = Text(text: string) | Number(number: nat)

  /** Whether each call on the job succeeds: the read and delete of a forced reinstall (and its wait),
      then the patch, delete, wait and create of the upsert, and the completion of a delete job. */
  datatype Calls = Calls(
    read: bool, forcedDelete: bool, forcedGone: bool,
    patch: bool, delete: bool, gone: bool, create: bool, completes: bool)

  /** Among others: what the recommendations resolve to, what the package's value script makes (of a package
      without one: nothing), and whether a status patch goes through and its event is sent. */
  datatype Answers = Answers(
    cache: PackageCache.Cache,
    vynil: string,
    registry: Option<bool>,
    cluster: Option<(Field, Field)>,
    probe: Requirement -> Option<bool>,
    recommendations: Option<Recommended>,
    values: Option<Option<string>>,
    statusPatch: bool,
    event: bool,
    annotationPatch: bool,
    calls: Calls)

  datatype Outcome =
    | Suspended
    | NoBox
    | NoPackage
    | NoInitVersion
    | Blocked(requirement: nat)
    | Upserted(tag: string)
    | Stopped
    | Finished(deleteJob: Option<string>)
    | ChildrenLeft

  // ── Requirement checks ────────────────────────────────────────────────────

  datatype Check = Pass | Fail | Broken

  /** The JSON text of a member; escapes inside a text do not matter here. */
  function Rendered(f: Field): string {
    match f
    case Text(text) => "\"" + text + "\""
    case Number(n) => Dec(n)
  }

  function ParseU64(s: string): Option<nat> {
    if s != "" && AllDigits(s) && Value(s) < 0x1_0000_0000_0000_0000 then Some(Value(s)) else None
  }

  function CheckOf(answer: Option<bool>): Check {
    if answer.None? then Broken else if answer.value then Pass else Fail
  }

  function CheckVynil(version: string, vynil: string): Check {
    var requested, current := Semver.Parse(version), Semver.Parse(vynil);
    if requested.None? || current.None? then Broken
    else if Semver.Le(requested.value, current.value) then Pass
    else Fail
  }

  function CheckCluster(major: nat, minor: nat, cluster: Option<(Field, Field)>): Check {
    if cluster.None? then Broken
    else
      var maj, min := ParseU64(Rendered(cluster.value.0)), ParseU64(Rendered(cluster.value.1));
      if maj.None? || min.None? then Broken
      else if maj.value > major || (maj.value == major && min.value >= minor) then Pass
      else Fail
  }

  function CheckRequirement(kind: S.Kind, r: Requirement, a: Answers): Check {
    match r
    case VynilVersion(version) => CheckVynil(version, a.vynil)
    case ClusterVersion(major, minor) => CheckCluster(major, minor, a.cluster)
    case CustomResourceDefinition(_) | Prefly(_, _) | SystemPackage(_, _) | SystemService(_) => CheckOf(a.probe(r))
    case TenantPackage(_, _) | TenantService(_) => if kind.TenantKind? then CheckOf(a.probe(r)) else Pass
    case _ => Pass
  }

  /** Position of the first requirement that does not pass, or the length of the list. */
  function FirstBlocked(kind: S.Kind, rs: seq<Requirement>, a: Answers): (i: nat)
    ensures i <= |rs|
    ensures i < |rs| ==> CheckRequirement(kind, rs[i], a) != Pass
    ensures forall j :: 0 <= j < i ==> CheckRequirement(kind, rs[j], a) == Pass
  {
    if rs == [] || CheckRequirement(kind, rs[0], a) != Pass then 0 else 1 + FirstBlocked(kind, rs[1..], a)
  }

  function U64Of(f: Field): Option<nat> {
    if f.Number? && f.number < 0x1_0000_0000_0000_0000 then Some(f.number) else None
  }

  /** Rendered as JSON, a text keeps its quotes and is never read as a number. */
  lemma {:induction false} OnlyNumbersAreRead(f: Field)
    ensures ParseU64(Rendered(f)) == U64Of(f)
  {
    match f
    case Text(_) => assert Rendered(f)[0] == '\"' && !IsDigit('\"');
    case Number(n) => ValueOfDec(n);
  }

  /** The cluster-version check errs exactly when a member is no 64-bit number, as with the texts that an API
      server sends; otherwise it compares major and minor lexicographically. */
  lemma {:induction false} ClusterCheckMeaning(major: nat, minor: nat, a: Field, b: Field)
    ensures var x, y := U64Of(a), U64Of(b);
      CheckCluster(major, minor, Some((a, b))) ==
        if x.None? || y.None? then Broken
        else if x.value > major || (x.value == major && y.value >= minor) then Pass
        else Fail
  {
    hide ParseU64, U64Of;
    OnlyNumbersAreRead(a);
    OnlyNumbersAreRead(b);
  }

  // ── Lookup and first restoration ──────────────────────────────────────────

  function UsageOf(kind: S.Kind): Usage {
    match kind
    case SystemKind => System
    case ServiceKind => Service
    case TenantKind => Tenant
  }

  function CurrentTag(status: Option<S.Status>): string {
    if status.Some? && status.value.tag.Some? then status.value.tag.value else ""
  }

  function WantedBy(spec: Spec, a: Answers): Wanted {
    Wanted(spec.package, spec.category, UsageOf(spec.kind), a.vynil)
  }

  function InitFromVersion(spec: Spec): Option<string> {
    if spec.kind.SystemKind? then None else spec.initFrom
  }

  predicate BoxCached(o: Obj, a: Answers) {
    o.spec.jukebox in a.cache
  }

  function Cached(o: Obj, a: Answers): seq<Package>
    requires BoxCached(o, a)
  {
    a.cache[o.spec.jukebox].packages
  }

  function Selected(o: Obj, a: Answers): Option<Package>
    requires BoxCached(o, a)
  {
    Select(BySemver(), Cached(o, a), WantedBy(o.spec, a), CurrentTag(o.status))
  }

  predicate InCache(ps: seq<Package>, w: Wanted, tag: string) {
    exists i | 0 <= i < |ps| :: Fits(ps[i], w) && ps[i].tag == tag
  }

  datatype Resolution = NoOverride | Use(tag: string) | Missing(tag: string) | Unanswered

  function ResolveInitVersion(o: Obj, a: Answers): Resolution
    requires BoxCached(o, a)
  {
    var requested := InitFromVersion(o.spec);
    if requested.None? then NoOverride
    else if CurrentTag(o.status) != "" then NoOverride
    else if InCache(Cached(o, a), WantedBy(o.spec, a), requested.value) then Use(requested.value)
    else if a.registry.None? then Unanswered
    else if a.registry.value then Use(requested.value)
    else Missing(requested.value)
  }

  function EffectiveTag(o: Obj, a: Answers): string
    requires BoxCached(o, a) && Selected(o, a).Some?
  {
    var r := ResolveInitVersion(o, a);
    if r.Use? then r.tag else Selected(o, a).value.tag
  }

  // ── Job calls ─────────────────────────────────────────────────────────────

  /** `delete_job_and_wait`: a refused delete is only logged, a wait that times out is an error. */
  function DeletedJob(job: Option<Job>, c: Calls): (Option<Job>, bool) {
    if !c.forcedDelete || job.None? then (job, true)
    else if c.forcedGone then (None, true)
    else (job, false)
  }

  /** `upsert_job`: patching a job with its own template changes nothing, with another one is refused. */
  function UpsertedJob(job: Option<Job>, wanted: Template, uid: nat, c: Calls): (Option<Job>, bool) {
    if c.patch && job.None? then (Some(Job(uid, wanted)), true)
    else if c.patch && job.value.template == wanted then (job, true)
    else if !c.delete || job.None? then (job, false)
    else if !c.gone then (job, false)
    else if !c.create then (None, false)
    else (Some(Job(uid, wanted)), true)
  }

  function WithJob(o: Obj, job: Option<Job>): Obj {
    o.(job := job, nextUid := if job.Some? && job.value.uid == o.nextUid then o.nextUid + 1 else o.nextUid)
  }

  // ── Reconcile ─────────────────────────────────────────────────────────────

  /** Every gate before the first call on the annotation or the job, for the object that was handed over. */
  predicate GatesOpen(inst: Obj, a: Answers) {
    && !inst.suspended
    && BoxCached(inst, a)
    && Selected(inst, a).Some?
    && !ResolveInitVersion(inst, a).Missing? && !ResolveInitVersion(inst, a).Unanswered?
    && FirstBlocked(inst.spec.kind, Selected(inst, a).value.requirements, a) == |Selected(inst, a).value.requirements|
    && a.recommendations.Some?
    && a.values.Some?
  }

  /** Why a closed gate stops the reconcile: the condition it leaves, and the outcome. */
  function ClosedGate(inst: Obj, a: Answers): (Option<S.Setter>, Outcome)
    requires !GatesOpen(inst, a)
  {
    if inst.suspended then (None, Suspended)
    else if !BoxCached(inst, a) then (Some(S.MissingBox(inst.spec.jukebox)), NoBox)
    else if Selected(inst, a).None? then (Some(S.MissingPackage(inst.spec.category, inst.spec.package)), NoPackage)
    else
      var r := ResolveInitVersion(inst, a);
      if r.Missing? then (Some(S.MissingInitVersion(r.tag)), NoInitVersion)
      else if r.Unanswered? then (None, Stopped)
      else
        var rs := Selected(inst, a).value.requirements;
        var i := FirstBlocked(inst.spec.kind, rs, a);
        if i < |rs| && CheckRequirement(inst.spec.kind, rs[i], a).Fail?
        then (Some(S.MissingRequirement(Reason(rs[i], a))), Blocked(i))
        else (None, Stopped)
  }

  function Reason(r: Requirement, a: Answers): string {
    match r
    case VynilVersion(version) =>
      "Requested vynil version " + version + " is over current version " + a.vynil + ". Please upgrade vynil first"
    case ClusterVersion(major, minor) =>
      "Requested api-server version " + Dec(major) + "." + Dec(minor) + " is over current version " +
      (if a.cluster.Some? then Rendered(a.cluster.value.0) + "." + Rendered(a.cluster.value.1) else "")
      + ". Please upgrade your cluster first"
    case CustomResourceDefinition(crd) => "CRD " + crd + " is not installed"
    case Prefly(_, name) => "Requirement " + name + " failed"
    case SystemPackage(category, name) => "System package " + category + "/" + name + " is not installed"
    case TenantPackage(category, name) => "Tenant package " + category + "/" + name + " is not installed"
    case SystemService(service) => "System Service " + service + " is not available"
    case TenantService(service) => "Tenant service " + service + " is not installed"
    case _ => ""
  }

  function PullSecret(inst: Obj, a: Answers): Option<string>
    requires BoxCached(inst, a)
  {
    a.cache[inst.spec.jukebox].pullSecret
  }

  function TemplateOf(inst: Obj, a: Answers): Template
    requires GatesOpen(inst, a)
  {
    var p := Selected(inst, a).value;
    Template("install", EffectiveTag(inst, a), p.registry, p.image, inst.digest, PullSecret(inst, a),
             a.recommendations.value, a.values.value)
  }

  /** No patch is sent when the object handed over shows the condition already. */
  predicate Skipped(inst: Obj, s: S.Setter) {
    S.Skips(inst.status, s, inst.generation)
  }

  /** A setter of the object handed over, patched onto the object as it is. */
  function Noted(o: Obj, s: S.Setter, inst: Obj, ok: bool): Obj {
    if ok then
      o.(status := S.SetFrom(o.spec.kind, inst.status, o.status, s, inst.generation, inst.digest))
    else o
  }

  /** The setter returns without an error: nothing to do, or patched and announced. */
  predicate NoteOk(inst: Obj, s: S.Setter, a: Answers) {
    Skipped(inst, s) || (a.statusPatch && a.event)
  }

  /** Past the gates: the annotation goes first, then the old job, then the new job comes. */
  function Installed(o: Obj, inst: Obj, a: Answers): (Obj, Outcome)
    requires GatesOpen(inst, a)
  {
    if inst.force && !(a.annotationPatch && o.force) then (o, Stopped)
    else
      var p := if inst.force then o.(force := false) else o;
      var (job, gone) := if inst.force && a.calls.read then DeletedJob(o.job, a.calls) else (o.job, true);
      if !gone then (p.(job := job), Stopped)
      else
        var (made, ok) := UpsertedJob(job, TemplateOf(inst, a), o.nextUid, a.calls);
        (WithJob(p, made), if ok then Upserted(EffectiveTag(inst, a)) else Stopped)
  }

  /** `inst` is the object the reconcile was handed, `o` the object as it is when it acts. It either leaves
      at most one condition behind, or goes on to the job. */
  function Reconciled(o: Obj, inst: Obj, a: Answers): (Obj, Outcome) {
    if GatesOpen(inst, a) then Installed(o, inst, a)
    else
      var (note, outcome) := ClosedGate(inst, a);
      if note.None? then (o, outcome)
      else
        (Noted(o, note.value, inst, a.statusPatch), if NoteOk(inst, note.value, a) then outcome else Stopped)
  }

  // ── Cleanup ───────────────────────────────────────────────────────────────

  function DeleteTemplate(inst: Obj, a: Answers): Template
    requires BoxCached(inst, a) && Selected(inst, a).Some? && a.values.Some?
  {
    var p := Selected(inst, a).value;
    Template("delete", p.tag, p.registry, p.image, inst.digest, PullSecret(inst, a), Recommended([], [], []),
             a.values.value)
  }

  function CleanedUp(o: Obj, inst: Obj, a: Answers): (Obj, Outcome) {
    if !BoxCached(inst, a) then (o, Finished(None))
    else if Selected(inst, a).None? then
      (o, if S.HaveChild(inst.spec.kind, inst.status) then ChildrenLeft else Finished(None))
    else if a.values.None? then (o, Stopped)
    else
      var p := Selected(inst, a).value;
      var (job, gone) := if a.calls.read then DeletedJob(o.job, a.calls) else (o.job, true);
      if !gone || !a.calls.create || job.Some? then (o.(job := job), Stopped)
      else
        var t := WithJob(o, Some(Job(o.nextUid, DeleteTemplate(inst, a))));
        if !a.calls.completes then (t, Stopped)
        else (if a.calls.delete then t.(job := None) else t, Finished(Some(p.tag)))
  }

  // ── The controller ────────────────────────────────────────────────────────

  /** The object in the cluster; a reconcile is handed `inst`. */
  class Instance {
    var obj: Obj

    constructor (obj: Obj)
      ensures this.obj == obj
    {
      this.obj := obj;
    }

    /** A status setter of the object handed over. */
    method Note(s: S.Setter, inst: Obj, a: Answers) returns (ok: bool)
      requires S.Guarded(s, inst.generation).Some?
      modifies this
      ensures obj == Noted(old(obj), s, inst, a.statusPatch)
      ensures ok == NoteOk(inst, s, a)
    {
      hide S.SetFrom;
      NoteIsSkipped(obj, inst, s);
      if S.HaveCondition(inst.status, S.Guarded(s, inst.generation).value) {
        return true;
      }
      if a.statusPatch {
        obj := obj.(status := S.SetFrom(obj.spec.kind, inst.status, obj.status, s, inst.generation, inst.digest));
      }
      return a.statusPatch && a.event;
    }

    method DeleteJobAndWait(a: Answers) returns (ok: bool)
      modifies this
      ensures var (job, gone) := DeletedJob(old(obj).job, a.calls);
        obj == old(obj).(job := job) && ok == gone
    {
      ok := true;
      if a.calls.forcedDelete && obj.job.Some? {
        if !a.calls.forcedGone {
          return false;
        }
        obj := obj.(job := None);
      }
    }

    method UpsertJob(wanted: Template, a: Answers) returns (ok: bool)
      requires obj.job.Some? ==> obj.job.value.uid < obj.nextUid
      modifies this
      ensures var (job, made) := UpsertedJob(old(obj).job, wanted, old(obj).nextUid, a.calls);
        obj == WithJob(old(obj), job) && ok == made
    {
      if a.calls.patch && obj.job.None? {
        obj := obj.(job := Some(Job(obj.nextUid, wanted)), nextUid := obj.nextUid + 1);
        return true;
      }
      if a.calls.patch && obj.job.value.template == wanted {
        return true;
      }
      if !a.calls.delete || obj.job.None? {
        return false;
      }
      if !a.calls.gone {
        return false;
      }
      obj := obj.(job := None);
      if !a.calls.create {
        return false;
      }
      obj := obj.(job := Some(Job(obj.nextUid, wanted)), nextUid := obj.nextUid + 1);
      return true;
    }

    /** `check_requirements`: the first failing check is noted; none left is `None`. */
    method CheckRequirements(rs: seq<Requirement>, inst: Obj, a: Answers) returns (stop: Option<Outcome>)
      modifies this
      ensures var i := FirstBlocked(inst.spec.kind, rs, a);
        if i == |rs| then stop == None && obj == old(obj)
        else if CheckRequirement(inst.spec.kind, rs[i], a).Broken? then stop == Some(Stopped) && obj == old(obj)
        else
          var s := S.MissingRequirement(Reason(rs[i], a));
          && obj == Noted(old(obj), s, inst, a.statusPatch)
          && stop == Some(if NoteOk(inst, s, a) then Blocked(i) else Stopped)
    {
      hide CheckRequirement, Reason, S.SetFrom, NoteOk, FirstBlocked;
      ghost var first := FirstBlocked(inst.spec.kind, rs, a);
      for i := 0 to |rs|
        invariant obj == old(obj) && i <= first
      {
        var check := CheckRequirement(inst.spec.kind, rs[i], a);
        if check.Broken? {
          return Some(Stopped);
        }
        if check.Fail? {
          var ok := Note(S.MissingRequirement(Reason(rs[i], a)), inst, a);
          return Some(if ok then Blocked(i) else Stopped);
        }
      }
      return None;
    }

    /** Past the gates. */
    method Install(inst: Obj, a: Answers) returns (r: Outcome)
      requires GatesOpen(inst, a)
      requires obj.job.Some? ==> obj.job.value.uid < obj.nextUid
      modifies this
      ensures (obj, r) == Installed(old(obj), inst, a)
    {
      hide GatesOpen, TemplateOf, UpsertedJob, EffectiveTag;
      SelectedIsSome(inst, a);
      if inst.force {
        if !(a.annotationPatch && obj.force) {
          return Stopped;
        }
        obj := obj.(force := false);
        if a.calls.read {
          var gone := DeleteJobAndWait(a);
          if !gone {
            return Stopped;
          }
        }
      }
      var ok := UpsertJob(TemplateOf(inst, a), a);
      return if ok then Upserted(EffectiveTag(inst, a)) else Stopped;
    }

    method DoReconcile(inst: Obj, a: Answers) returns (r: Outcome)
      requires obj.job.Some? ==> obj.job.value.uid < obj.nextUid
      modifies this
      ensures (obj, r) == Reconciled(old(obj), inst, a)
    {
      hide CheckRequirement, Reason, S.SetFrom, NoteOk, FirstBlocked, Select, ResolveInitVersion, Installed, Noted;
      if inst.suspended {
        return Suspended;
      }
      if !BoxCached(inst, a) {
        var ok := Note(S.MissingBox(inst.spec.jukebox), inst, a);
        return if ok then NoBox else Stopped;
      }
      var p := Selected(inst, a);
      if p.None? {
        var ok := Note(S.MissingPackage(inst.spec.category, inst.spec.package), inst, a);
        return if ok then NoPackage else Stopped;
      }
      var resolution := ResolveInitVersion(inst, a);
      if resolution.Missing? {
        var ok := Note(S.MissingInitVersion(resolution.tag), inst, a);
        return if ok then NoInitVersion else Stopped;
      }
      if resolution.Unanswered? {
        return Stopped;
      }
      var stop := CheckRequirements(p.value.requirements, inst, a);
      if stop.Some? {
        return stop.value;
      }
      if a.recommendations.None? || a.values.None? {
        return Stopped;
      }
      r := Install(inst, a);
    }

    method DoCleanup(inst: Obj, a: Answers) returns (r: Outcome)
      modifies this
      ensures (obj, r) == CleanedUp(old(obj), inst, a)
    {
      hide Select, S.HaveChild;
      if !BoxCached(inst, a) {
        return Finished(None);
      }
      var p := Selected(inst, a);
      if p.None? {
        if S.HaveChild(inst.spec.kind, inst.status) {
          return ChildrenLeft;
        }
        return Finished(None);
      }
      if a.values.None? {
        return Stopped;
      }
      if a.calls.read && obj.job.Some? {
        var gone := DeleteJobAndWait(a);
        if !gone {
          return Stopped;
        }
      }
      if !a.calls.create || obj.job.Some? {
        return Stopped;
      }
      obj := obj.(job := Some(Job(obj.nextUid, DeleteTemplate(inst, a))), nextUid := obj.nextUid + 1);
      if !a.calls.completes {
        return Stopped;
      }
      if a.calls.delete {
        obj := obj.(job := None);
      }
      return Finished(Some(p.value.tag));
    }
  }

  lemma {:induction false} NoteIsSkipped(o: Obj, inst: Obj, s: S.Setter)
    ensures Skipped(inst, s) ==>
      S.SetFrom(o.spec.kind, inst.status, o.status, s, inst.generation, inst.digest) == o.status
  {
  }

  // ── What one reconcile promises ───────────────────────────────────────────

  lemma {:induction false} UpsertedPassedEveryGate(o: Obj, inst: Obj, a: Answers)
    requires Reconciled(o, inst, a).1.Upserted?
    ensures GatesOpen(inst, a) && Reconciled(o, inst, a).1.tag == EffectiveTag(inst, a)
    ensures Reconciled(o, inst, a).0.job.Some?
    ensures Reconciled(o, inst, a).0.job.value.template == TemplateOf(inst, a)
    ensures forall i :: 0 <= i < |Selected(inst, a).value.requirements| ==>
      CheckRequirement(inst.spec.kind, Selected(inst, a).value.requirements[i], a) == Pass
  {
    hide CheckRequirement, Reason, Eligible, S.SetFrom, Select;
  }

  /** Every stated vynil version is met; and with sound minimums the installed version meets every one of
      them, although the check itself always says yes. */
  lemma {:induction false} UpsertedMeetsVersions(o: Obj, inst: Obj, a: Answers)
    requires Reconciled(o, inst, a).1.Upserted?
    ensures GatesOpen(inst, a)
    ensures var p := Selected(inst, a).value;
      && (forall i :: 0 <= i < |p.requirements| && p.requirements[i].VynilVersion? ==>
            Semver.Parse(p.requirements[i].version).Some? && AtLeast(BySemver(), a.vynil, Some(p.requirements[i].version)))
      && (SoundMinimums(BySemver(), p) ==> MeetsAllMinimums(BySemver(), p, CurrentTag(inst.status)))
  {
    hide Reconciled, Reason, Semver.Parse, Semver.Le, GatesOpen, CheckCluster, MeetsAllMinimums, SoundMinimums, Lawful, IsMinVersionOk;
    UpsertedPassedEveryGate(o, inst, a);
    SelectedIsSome(inst, a);
    var p := Selected(inst, a).value;
    forall i | 0 <= i < |p.requirements| && p.requirements[i].VynilVersion?
      ensures Semver.Parse(p.requirements[i].version).Some?
      ensures AtLeast(BySemver(), a.vynil, Some(p.requirements[i].version))
    {
      assert CheckRequirement(inst.spec.kind, p.requirements[i], a) == Pass;
    }
    if SoundMinimums(BySemver(), p) {
      SemverIsLawful();
      SoundMinimumsAreMet(BySemver(), p, CurrentTag(inst.status));
    }
  }

  lemma {:induction false} SelectedIsSome(inst: Obj, a: Answers)
    requires GatesOpen(inst, a)
    ensures BoxCached(inst, a) && Selected(inst, a).Some?
    ensures Eligible(BySemver(), Selected(inst, a).value, WantedBy(inst.spec, a), CurrentTag(inst.status))
  {
    hide Eligible;
  }

  lemma {:induction false} OtherTagOnlyForInitFrom(inst: Obj, a: Answers)
    requires GatesOpen(inst, a) && EffectiveTag(inst, a) != Selected(inst, a).value.tag
    ensures CurrentTag(inst.status) == "" && InitFromVersion(inst.spec) == Some(EffectiveTag(inst, a))
  {
    hide Select, CheckRequirement, InCache;
  }

  /** Every call answered. */
  predicate Answered(a: Answers) {
    a.annotationPatch && a.calls.read && a.calls.forcedDelete && a.calls.forcedGone
    && a.calls.patch && a.calls.delete && a.calls.gone && a.calls.create
  }

  /** With open gates and answered calls a reconcile installs over any job there is, and then changes nothing
      more: the next one over the same answers keeps that very job. */
  lemma {:induction false} ReconcileConverges(o: Obj, inst: Obj, a: Answers)
    requires GatesOpen(inst, a) && (inst.force ==> o.force)
    requires Answered(a) || (Answered(a.(calls := a.calls.(patch := false))) && !inst.force && o.job.Some?)
    ensures var (p, r) := Reconciled(o, inst, a);
      && r == Upserted(EffectiveTag(inst, a))
      && p.job.Some? && p.job.value.template == TemplateOf(inst, a)
      && (inst.force ==> !p.force && p.job.value.uid == o.nextUid)
      && p.status == o.status
      && (a.calls.patch ==> Reconciled(p, inst.(force := false), a) == (p, r))
  {
    hide Selected, ResolveInitVersion, CheckRequirement, FirstBlocked;
    GatesIgnoreForce(inst, a);
  }

  lemma {:induction false} GatesIgnoreForce(inst: Obj, a: Answers)
    requires GatesOpen(inst, a)
    ensures GatesOpen(inst.(force := false), a) && TemplateOf(inst.(force := false), a) == TemplateOf(inst, a)
    ensures EffectiveTag(inst.(force := false), a) == EffectiveTag(inst, a)
  {
    hide Select, CheckRequirement;
  }

  /** A forced reinstall that reports success without a new job. */
  ghost predicate Unserved(o: Obj, inst: Obj, a: Answers) {
    var (p, r) := Reconciled(o, inst, a);
    r.Upserted? && (p.job.Some? ==> p.job.value.uid < o.nextUid)
  }

  /** Exactly when the old job already had the wanted template and was neither seen nor deleted. */
  lemma {:induction false} UnservedIff(o: Obj, inst: Obj, a: Answers)
    requires GatesOpen(inst, a) && inst.force && o.force && a.annotationPatch
    requires o.job.Some? ==> o.job.value.uid < o.nextUid
    ensures Unserved(o, inst, a) <==>
      && o.job.Some? && o.job.value.template == TemplateOf(inst, a)
      && a.calls.patch && !(a.calls.read && a.calls.forcedDelete)
  {
    hide GatesOpen, EffectiveTag, Selected;
  }

  /** What a user can check before asking: some answers of the job calls leave the request unserved exactly
      when the job there has the wanted template. */
  lemma {:induction false} ReinstallLossIffSameTemplate(o: Obj, inst: Obj, a: Answers)
    requires GatesOpen(inst, a) && inst.force && o.force && a.annotationPatch
    requires o.job.Some? ==> o.job.value.uid < o.nextUid
    ensures (exists c: Calls :: Unserved(o, inst, a.(calls := c))) <==>
      o.job.Some? && o.job.value.template == TemplateOf(inst, a)
  {
    hide Unserved, GatesOpen, EffectiveTag, Selected, TemplateOf;
    forall c: Calls
      ensures GatesOpen(inst, a.(calls := c)) && TemplateOf(inst, a.(calls := c)) == TemplateOf(inst, a)
      ensures Unserved(o, inst, a.(calls := c)) <==>
        && o.job.Some? && o.job.value.template == TemplateOf(inst, a)
        && c.patch && !(c.read && c.forcedDelete)
    {
      GatesIgnoreCalls(inst, a, c);
      UnservedIff(o, inst, a.(calls := c));
    }
    var c := a.calls.(read := false, patch := true);
    assert Unserved(o, inst, a.(calls := c)) <==> o.job.Some? && o.job.value.template == TemplateOf(inst, a);
  }

  lemma {:induction false} FirstBlockedIgnoresCalls(kind: S.Kind, rs: seq<Requirement>, a: Answers, c: Calls)
    ensures FirstBlocked(kind, rs, a.(calls := c)) == FirstBlocked(kind, rs, a)
  {
    if rs == [] {
    } else {
      FirstBlockedIgnoresCalls(kind, rs[1..], a, c);
      assert CheckRequirement(kind, rs[0], a.(calls := c)) == CheckRequirement(kind, rs[0], a);
    }
  }

  lemma {:induction false} GatesIgnoreCalls(inst: Obj, a: Answers, c: Calls)
    requires GatesOpen(inst, a)
    ensures GatesOpen(inst, a.(calls := c)) && TemplateOf(inst, a.(calls := c)) == TemplateOf(inst, a)
  {
    hide Select, CheckRequirement, FirstBlocked;
    assert Selected(inst, a.(calls := c)) == Selected(inst, a);
    FirstBlockedIgnoresCalls(inst.spec.kind, Selected(inst, a).value.requirements, a, c);
  }

  // ── Runs ──────────────────────────────────────────────────────────────────

  /** The object, and the object the reconcile in flight was handed, if there is one. */
  datatype World = World(obj: Obj, held: Option<Obj>)

  /** A reconcile begins with the object as it is and finishes later; in between and otherwise the agent sets
      the status, the job expires, and the user edits the object. */
  datatype Event =
    | Begin
    | Finish(answers: Answers)
    | Drop
    | Agent(call: S.Call)
    | Annotate(suspended: bool, force: bool)
    | JobGone
    | Edit(jukebox: string, category: string, package: string, initFrom: Option<string>, generation: int, digest: string)

  function Step(s: World, e: Event): World {
    match e
    case Begin => if s.held.Some? then s else s.(held := Some(s.obj))
    case Finish(a) => if s.held.None? then s else World(Reconciled(s.obj, s.held.value, a).0, None)
    case Drop => s.(held := None)
    case Agent(c) => s.(obj := s.obj.(status := S.Exec(s.obj.spec.kind, s.obj.status, c)))
    case JobGone => s.(obj := s.obj.(job := None))
    case Annotate(suspended, force) => s.(obj := s.obj.(suspended := suspended, force := force))
    case Edit(jukebox, category, package, initFrom, generation, digest) =>
      s.(obj := s.obj.(spec := Spec(s.obj.spec.kind, jukebox, category, package, initFrom),
                       generation := generation, digest := digest))
  }

  function After(s: World, events: seq<Event>): World {
    if events == [] then s else Step(After(s, events[..|events| - 1]), events[|events| - 1])
  }

  // ── The restoration version ───────────────────────────────────────────────

  /** The agent never reports an empty tag. */
  predicate TagsNamed(events: seq<Event>) {
    forall i :: 0 <= i < |events| && events[i].Agent? && events[i].call.s.SetReady? ==> events[i].call.s.tag != ""
  }

  lemma {:induction false} SetKeepsTag(
    kind: S.Kind, seen: Option<S.Status>, status: Option<S.Status>, s: S.Setter, g: int, digest: string)
    requires s.SetReady? ==> s.tag != ""
    requires CurrentTag(status) != ""
    ensures CurrentTag(S.SetFrom(kind, seen, status, s, g, digest)) != ""
  {
    hide S.Clears, S.Writes, S.Excluding, S.Skips;
  }

  lemma {:induction false} StepKeepsTag(s: World, e: Event)
    requires e.Agent? && e.call.s.SetReady? ==> e.call.s.tag != ""
    requires CurrentTag(s.obj.status) != ""
    ensures CurrentTag(Step(s, e).obj.status) != ""
  {
    hide GatesOpen, S.SetFrom, CheckRequirement, Reason, Select, CurrentTag;
    match e
    case Finish(a) =>
      if s.held.Some? && !GatesOpen(s.held.value, a) && ClosedGate(s.held.value, a).0.Some? {
        SetKeepsTag(s.obj.spec.kind, s.held.value.status, s.obj.status, ClosedGate(s.held.value, a).0.value,
                    s.held.value.generation, s.held.value.digest);
      }
    case Agent(c) => SetKeepsTag(s.obj.spec.kind, s.obj.status, s.obj.status, c.s, c.generation, c.digest);
    case _ =>
  }

  /** The event upserts a job whose tag is not the selected package's. */
  predicate Overrides(s: World, e: Event) {
    && e.Finish? && s.held.Some?
    && Reconciled(s.obj, s.held.value, e.answers).1.Upserted?
    && GatesOpen(s.held.value, e.answers)
    && EffectiveTag(s.held.value, e.answers) != Selected(s.held.value, e.answers).value.tag
  }

  function OverrideCount(s: World, events: seq<Event>): nat {
    if events == [] then 0
    else
      var front := events[..|events| - 1];
      OverrideCount(s, front) + (if Overrides(After(s, front), events[|events| - 1]) then 1 else 0)
  }

  /** A reconcile is in flight that was handed an object without a version. */
  predicate Stale(s: World) {
    s.held.Some? && CurrentTag(s.held.value.status) == ""
  }

  lemma {:induction false} StepOverrides(s: World, e: Event)
    requires CurrentTag(s.obj.status) != ""
    ensures (if Overrides(s, e) then 1 else 0) + (if Stale(Step(s, e)) then 1 else 0) <= if Stale(s) then 1 else 0
  {
    hide GatesOpen, Reconciled, EffectiveTag, Selected;
    if Overrides(s, e) {
      OtherTagOnlyForInitFrom(s.held.value, e.answers);
    }
  }

  lemma {:induction false} OverridesAreFew(s: World, events: seq<Event>)
    requires TagsNamed(events) && CurrentTag(s.obj.status) != ""
    ensures CurrentTag(After(s, events).obj.status) != ""
    ensures OverrideCount(s, events) + (if Stale(After(s, events)) then 1 else 0) <= if Stale(s) then 1 else 0
  {
    hide Step, Overrides, Stale, CurrentTag;
    if events == [] {
    } else {
      var front, e := events[..|events| - 1], events[|events| - 1];
      OverridesAreFew(s, front);
      StepKeepsTag(After(s, front), e);
      StepOverrides(After(s, front), e);
    }
  }

  /** Once a version has been reported installed, `initFrom.version` is used at most once more, by a reconcile
      that was already in flight without a version; with none in flight it is never used again. */
  lemma {:induction false} InitFromOnlyBeforeFirstSuccess(s: World, events: seq<Event>)
    requires TagsNamed(events) && CurrentTag(s.obj.status) != ""
    ensures OverrideCount(s, events) <= 1
    ensures !Stale(s) ==> OverrideCount(s, events) == 0
  {
    OverridesAreFew(s, events);
  }

  /** That once does happen: the agent reports between the hand-over and the upsert. */
  lemma {:induction false} InFlightOverride(o: Obj, a: Answers, tag: string, g: int, digest: string) returns (events: seq<Event>)
    requires GatesOpen(o, a) && EffectiveTag(o, a) != Selected(o, a).value.tag
    requires !o.force && o.job.None? && a.calls.patch && tag != ""
    ensures |events| == 3 && TagsNamed(events) && OverrideCount(World(o, None), events) == 1
    ensures CurrentTag(After(World(o, None), events[..2]).obj.status) == tag
    ensures Overrides(After(World(o, None), events[..2]), events[2])
  {
    hide GatesOpen, EffectiveTag, Selected, S.SetFrom;
    var ready := Agent(S.Call(S.SetReady(tag), true, g, digest));
    events := [Begin, ready, Finish(a)];
    var s := World(o, None);
    var s1 := World(o, Some(o));
    var s2 := s1.(obj := o.(status := S.Set(o.spec.kind, o.status, S.SetReady(tag), g, digest)));
    ReadySetsTag(o.spec.kind, o.status, tag, g, digest);
    var one, two := events[..1], events[..2];
    assert one[..0] == [] && two[..1] == one && events[..2] == two;
    assert After(s, events[..0]) == s;
    assert After(s, one) == Step(After(s, []), Begin) == s1;
    assert After(s, two) == Step(After(s, one), ready) == s2;
    assert OverrideCount(s, one) == OverrideCount(s, []) + 0;
    assert OverrideCount(s, two) == OverrideCount(s, one) + 0;
    assert Overrides(s2, Finish(a));
  }

  lemma {:induction false} ReadySetsTag(kind: S.Kind, status: Option<S.Status>, tag: string, g: int, digest: string)
    ensures CurrentTag(S.Set(kind, status, S.SetReady(tag), g, digest)) == tag
  {
    hide S.Clears, S.Writes, S.Excluding;
  }

  // ── Jobs ──────────────────────────────────────────────────────────────────

  lemma {:induction false} KindStays(s: World, events: seq<Event>)
    requires s.held.Some? ==> s.held.value.spec.kind == s.obj.spec.kind
    ensures var t := After(s, events);
      t.obj.spec.kind == s.obj.spec.kind && (t.held.Some? ==> t.held.value.spec.kind == s.obj.spec.kind)
  {
    hide GatesOpen, S.SetFrom, CheckRequirement, Reason, Select;
    if events == [] {
    } else {
      KindStays(s, events[..|events| - 1]);
    }
  }

  /** A job that is there after a step was there before, or is what the finishing reconcile upserted. */
  lemma {:induction false} OnlyReconcileMakesJobs(s: World, e: Event)
    requires Step(s, e).obj.job.Some? && Step(s, e).obj.job != s.obj.job
    ensures e.Finish? && s.held.Some? && Reconciled(s.obj, s.held.value, e.answers).1.Upserted?
    ensures Step(s, e) == World(Reconciled(s.obj, s.held.value, e.answers).0, None)
  {
    hide GatesOpen, S.SetFrom, CheckRequirement, Reason, Select;
  }

  /** In every run that starts without a job, a job that is there was upserted by a reconcile for whose object
      every gate was open and every check passed. */
  lemma {:induction false} JobFromReconcile(s: World, events: seq<Event>) returns (i: nat)
    requires s.obj.job.None? && After(s, events).obj.job.Some?
    ensures i < |events| && events[i].Finish? && After(s, events[..i]).held.Some?
    ensures var inst, a := After(s, events[..i]).held.value, events[i].answers;
      && GatesOpen(inst, a)
      && After(s, events).obj.job.value.template == TemplateOf(inst, a)
  {
    hide Reconciled, GatesOpen, Selected, CheckRequirement, EffectiveTag, Step, TemplateOf;
    var n := |events| - 1;
    var last, e := After(s, events[..n]), events[n];
    if Step(last, e).obj.job == last.obj.job {
      i := JobFromReconcile(s, events[..n]);
      assert events[..n][..i] == events[..i];
    } else {
      i := n;
      OnlyReconcileMakesJobs(last, e);
      UpsertedPassedEveryGate(last.obj, last.held.value, e.answers);
      assert After(s, events) == Step(last, e);
    }
  }

  /** The operator and the agent alone. */
  predicate NoUser(events: seq<Event>) {
    forall i :: 0 <= i < |events| ==> !events[i].Annotate? && !events[i].JobGone? && !events[i].Edit?
  }

  lemma {:induction false} StepKeepsForced(s: World, e: Event)
    requires !e.Annotate? && !e.JobGone? && !e.Edit?
    requires s.held.Some? && s.obj.force ==> s.held.value.force
    ensures var t := Step(s, e);
      && (t.obj.force ==> s.obj.force && t.obj.job == s.obj.job && t.obj.nextUid == s.obj.nextUid)
      && (t.held.Some? && t.obj.force ==> t.held.value.force)
  {
    hide GatesOpen, S.SetFrom, CheckRequirement, Reason, Select;
  }

  /** As long as a force-reinstall annotation stands, no reconcile touches the job: the annotation goes before
      the old job does. */
  lemma {:induction false} AnnotationGoesBeforeTheJob(s: World, events: seq<Event>)
    requires NoUser(events) && (s.held.Some? && s.obj.force ==> s.held.value.force)
    requires After(s, events).obj.force
    ensures s.obj.force && After(s, events).obj.job == s.obj.job && After(s, events).obj.nextUid == s.obj.nextUid
  {
    ForcedStays(s, events);
  }

  lemma {:induction false} ForcedStays(s: World, events: seq<Event>)
    requires NoUser(events) && (s.held.Some? && s.obj.force ==> s.held.value.force)
    ensures var t := After(s, events);
      && (t.obj.force ==> s.obj.force && t.obj.job == s.obj.job && t.obj.nextUid == s.obj.nextUid)
      && (t.held.Some? && t.obj.force ==> t.held.value.force)
  {
    hide Step;
    if events == [] {
    } else {
      ForcedStays(s, events[..|events| - 1]);
      StepKeepsForced(After(s, events[..|events| - 1]), events[|events| - 1]);
    }
  }

  // ── The status of a run ────────────────────────────────────────────────────

  predicate AgentOffered(kind: S.Kind, events: seq<Event>) {
    forall i :: 0 <= i < |events| && events[i].Agent? ==> S.Offers(kind, events[i].call.s)
  }

  /** Runs of an object without a status, from outside any reconcile. */
  predicate Starts(s: World, events: seq<Event>) {
    s.obj.status.None? && s.held.None? && AgentOffered(s.obj.spec.kind, events)
  }

  /** The note a finishing reconcile leaves, as a call. */
  function NoteOf(s: World, e: Event): Option<S.Call> {
    if e.Finish? && s.held.Some? && !GatesOpen(s.held.value, e.answers) && ClosedGate(s.held.value, e.answers).0.Some?
    then
      var inst := s.held.value;
      Some(S.Call(ClosedGate(inst, e.answers).0.value, e.answers.statusPatch, inst.generation, inst.digest))
    else None
  }

  /** Every setter call of a run, in order. */
  function SetterCalls(s: World, events: seq<Event>): seq<S.Call> {
    if events == [] then []
    else
      var front, e := events[..|events| - 1], events[|events| - 1];
      SetterCalls(s, front)
      + if e.Agent? then [e.call]
        else if NoteOf(After(s, front), e).Some? then [NoteOf(After(s, front), e).value]
        else []
  }

  /** The note is patched: the conditions become those of the object handed over, and the note's. */
  predicate Overwrites(s: World, e: Event) {
    var note := NoteOf(s, e);
    note.Some? && note.value.answered && !Skipped(s.held.value, note.value.s)
  }

  /** When the object that is held was handed over. */
  function HandOver(s: World, events: seq<Event>): (k: nat)
    ensures k <= |events|
  {
    if events == [] then 0
    else
      var front := events[..|events| - 1];
      if events[|events| - 1].Begin? && After(s, front).held.None? then |front| else HandOver(s, front)
  }

  /** The calls that the conditions show: a note forgets what was called since its object was handed over. */
  function ShownCalls(s: World, events: seq<Event>): seq<S.Call>
    decreases |events|
  {
    if events == [] then []
    else
      var front, e := events[..|events| - 1], events[|events| - 1];
      if e.Agent? then ShownCalls(s, front) + [e.call]
      else if Overwrites(After(s, front), e) then
        ShownCalls(s, events[..HandOver(s, front)]) + [NoteOf(After(s, front), e).value]
      else ShownCalls(s, front)
  }

  lemma {:induction false} HeldIsHandedOver(s: World, events: seq<Event>)
    requires s.held.None? && After(s, events).held.Some?
    ensures After(s, events).held == Some(After(s, events[..HandOver(s, events)]).obj)
    ensures HandOver(s, events) < |events|
  {
    hide Reconciled;
    var front := events[..|events| - 1];
    if !(events[|events| - 1].Begin? && After(s, front).held.None?) {
      HeldIsHandedOver(s, front);
      assert front[..HandOver(s, front)] == events[..HandOver(s, front)];
    }
  }

  lemma {:induction false} NoteFacts(s: World, e: Event)
    requires NoteOf(s, e).Some? && s.held.value.spec.kind == s.obj.spec.kind
    ensures var c, inst, o, t := NoteOf(s, e).value, s.held.value, s.obj, Step(s, e).obj;
      && S.Guarded(c.s, c.generation).Some? && S.Offers(s.obj.spec.kind, c.s) && RecordsNothing(c)
      && (c.answered ==>
            t.status == S.SetFrom(o.spec.kind, inst.status, o.status, c.s, c.generation, c.digest))
      && (!c.answered ==> t.status == o.status)
      && Skipped(inst, c.s) == S.Skips(inst.status, c.s, c.generation)
  {
    hide GatesOpen, S.SetFrom, Reason, Select, CheckRequirement;
  }

  /** Not a call that records a state, children or a success. */
  predicate RecordsNothing(c: S.Call) {
    !S.RecordsState(c) && !c.s.Applied? && !c.s.SetReady? && !c.s.SetServices?
  }

  lemma {:induction false} NoCallNoChange(s: World, e: Event)
    requires !e.Agent? && NoteOf(s, e).None?
    ensures Step(s, e).obj.status == s.obj.status
  {
    hide GatesOpen, Reason, Select, CheckRequirement;
  }

  lemma {:induction false} SkippedNote(kind: S.Kind, seen: Option<S.Status>, status: Option<S.Status>, c: S.Call)
    requires S.Skips(seen, c.s, c.generation)
    ensures S.SetFrom(kind, seen, status, c.s, c.generation, c.digest) == status
  {
  }

  lemma {:induction false} StatusStays(s: World, e: Event)
    requires s.held.Some? && s.held.value.status.Some? ==> s.obj.status.Some?
    ensures s.obj.status.Some? ==> Step(s, e).obj.status.Some?
    ensures Step(s, e).held.Some? && Step(s, e).held.value.status.Some? ==> Step(s, e).obj.status.Some?
  {
    hide GatesOpen, Reason, Select, CheckRequirement, S.Patched, S.Writes, S.Excluding;
  }

  lemma {:induction false} HeldHasNoMore(s: World, events: seq<Event>)
    requires s.held.None?
    ensures After(s, events).held.Some? && After(s, events).held.value.status.Some? ==> After(s, events).obj.status.Some?
  {
    hide Step;
    if events == [] {
    } else {
      HeldHasNoMore(s, events[..|events| - 1]);
      StatusStays(After(s, events[..|events| - 1]), events[|events| - 1]);
    }
  }

  /** Whatever happens between the operator, the agent and the user, the fields of the status are those that
      the setter calls of the run make, in order, whichever objects they held. */
  lemma {:induction false} FieldsOfARun(s: World, events: seq<Event>)
    requires Starts(s, events)
    ensures S.SameFields(After(s, events).obj.status, S.After(s.obj.spec.kind, SetterCalls(s, events)))
  {
    hide Step, S.SetFrom, S.SameFields, S.Offers, NoteOf;
    if events == [] {
      NothingIsSame();
    } else {
      var front, e := events[..|events| - 1], events[|events| - 1];
      FieldsOfARun(s, front);
      KindStays(s, front);
      HeldHasNoMore(s, front);
      var w, calls, kind := After(s, front), SetterCalls(s, front), s.obj.spec.kind;
      if e.Agent? {
        AgentStep(w, e);
        assert (calls + [e.call])[..|calls|] == calls;
        S.SetSameFields(kind, w.obj.status, w.obj.status, S.After(kind, calls), e.call.s, e.call.generation, e.call.digest);
      } else if NoteOf(w, e).Some? {
        NoteIsHeld(w, e);
        NoteFacts(w, e);
        var c := NoteOf(w, e).value;
        assert (calls + [c])[..|calls|] == calls;
        S.SetSameFields(kind, w.held.value.status, w.obj.status, S.After(kind, calls), c.s, c.generation, c.digest);
      } else {
        NoCallNoChange(w, e);
        assert calls + [] == calls;
      }
    }
  }

  lemma {:induction false} NothingIsSame()
    ensures S.SameFields(None, None)
  {
  }

  lemma {:induction false} NoteIsHeld(s: World, e: Event)
    requires NoteOf(s, e).Some?
    ensures s.held.Some? && e.Finish?
  {
  }

  lemma {:induction false} AgentStep(s: World, e: Event)
    requires e.Agent?
    ensures Step(s, e).obj.status == S.Exec(s.obj.spec.kind, s.obj.status, e.call)
  {
  }

  /** And the conditions are those that the shown calls alone make: from the last hand-over on, an overwriting
      note hides what the agent wrote. */
  lemma {:induction false} ConditionsOfARun(s: World, events: seq<Event>)
    requires Starts(s, events)
    ensures S.Offered(s.obj.spec.kind, ShownCalls(s, events))
    ensures S.Conditions(After(s, events).obj.status) ==
      S.Conditions(S.After(s.obj.spec.kind, ShownCalls(s, events)))
    decreases |events|
  {
    hide Step, S.SetFrom, S.Conditions, S.Offers, NoteOf, S.Skips, Skipped, HandOver;
    if events == [] {
      NothingListed(s);
    } else {
      var front, e := events[..|events| - 1], events[|events| - 1];
      KindStays(s, front);
      var w, kind := After(s, front), s.obj.spec.kind;
      ConditionsOfARun(s, front);
      if e.Agent? {
        AgentStep(w, e);
        OneMoreCall(kind, ShownCalls(s, front), e.call);
        S.SetSameConditions(kind, w.obj.status, S.After(kind, ShownCalls(s, front)), e.call.s, e.call.generation, e.call.digest);
      } else if NoteOf(w, e).Some? {
        NoteIsHeld(w, e);
        NoteFacts(w, e);
        var c, seen := NoteOf(w, e).value, w.held.value.status;
        if Overwrites(w, e) {
          HeldIsHandedOver(s, front);
          var past := events[..HandOver(s, front)];
          assert front[..HandOver(s, front)] == past;
          ConditionsOfARun(s, past);
          OneMoreCall(kind, ShownCalls(s, past), c);
          S.SetFromConditions(kind, seen, w.obj.status, c.s, c.generation, c.digest);
          S.SetSameConditions(kind, seen, S.After(kind, ShownCalls(s, past)), c.s, c.generation, c.digest);
        } else if c.answered {
          SkippedNote(kind, seen, w.obj.status, c);
        }
      } else {
        NoCallNoChange(w, e);
        NoNoteNoOverwrite(w, e);
      }
    }
  }

  lemma {:induction false} NothingListed(s: World)
    ensures s.obj.status.None? ==> S.Conditions(s.obj.status) == [] && S.Conditions(None) == []
  {
  }

  lemma {:induction false} NoNoteNoOverwrite(s: World, e: Event)
    requires NoteOf(s, e).None?
    ensures !Overwrites(s, e)
  {
  }

  lemma {:induction false} OneMoreCall(kind: S.Kind, calls: seq<S.Call>, c: S.Call)
    ensures S.After(kind, calls + [c]) == S.Exec(kind, S.After(kind, calls), c)
    ensures S.Offered(kind, calls) && S.Offers(kind, c.s) ==> S.Offered(kind, calls + [c])
  {
    hide S.Exec, S.Offers;
    assert (calls + [c])[..|calls|] == calls;
  }

  /** So no run of the whole system lists a condition type twice, or loses one of Ready and Installed. */
  lemma {:induction false} SystemRunHasNoDuplicates(s: World, events: seq<Event>)
    requires Starts(s, events)
    ensures S.NoDuplicates(S.Conditions(After(s, events).obj.status))
  {
    hide *;
    ConditionsOfARun(s, events);
    S.RunHasNoDuplicates(s.obj.spec.kind, ShownCalls(s, events));
  }

  lemma {:induction false} SetterCallsSucceed(s: World, events: seq<Event>)
    requires s.held.Some? ==> s.held.value.spec.kind == s.obj.spec.kind
    ensures S.Succeeded(SetterCalls(s, events)) <==> S.Succeeded(Reports(events))
  {
    hide NoteOf, S.Succeeded, S.Succeeds, After;
    if events == [] {
    } else {
      var front, e := events[..|events| - 1], events[|events| - 1];
      SetterCallsSucceed(s, front);
      KindStays(s, front);
      var w, calls := After(s, front), SetterCalls(s, front);
      if e.Agent? {
        S.SucceededAppend(calls, e.call);
        S.SucceededAppend(Reports(front), e.call);
      } else {
        assert Reports(front) + [] == Reports(front) && calls + [] == calls;
        if NoteOf(w, e).Some? {
          NoteIsHeld(w, e);
          NoteFacts(w, e);
          S.SucceededAppend(calls, NoteOf(w, e).value);
          NoSuccess(NoteOf(w, e).value);
        }
      }
    }
  }

  lemma {:induction false} NoSuccess(c: S.Call)
    requires RecordsNothing(c)
    ensures !S.Succeeds(c)
  {
  }

  /** After every run of the whole system, Ready, Installed, tag and digest belong together exactly if the
      conditions show a success or none was ever reported. */
  lemma {:induction false} SystemStatusSoundIff(s: World, events: seq<Event>)
    requires Starts(s, events)
    ensures S.ReadyInv(After(s, events).obj.status) <==>
      (S.Succeeded(Reports(events)) ==> S.Succeeded(ShownCalls(s, events)))
  {
    hide *;
    var kind := s.obj.spec.kind;
    var status, shown, all := After(s, events).obj.status, ShownCalls(s, events), SetterCalls(s, events);
    ConditionsOfARun(s, events);
    FieldsOfARun(s, events);
    StartsOutside(s, events);
    SetterCallsSucceed(s, events);
    S.ReachableReady(kind, shown);
    S.TagIffSucceeded(kind, shown);
    S.TagIffSucceeded(kind, all);
    DigestWithTag(kind, all);
    ReadyByParts(status, S.After(kind, shown), S.After(kind, all));
    ShownAreCalls(s, events);
  }

  lemma {:induction false} StartsOutside(s: World, events: seq<Event>)
    requires Starts(s, events)
    ensures s.held.None?
  {
  }

  lemma {:induction false} DigestWithTag(kind: S.Kind, calls: seq<S.Call>)
    ensures var t := S.After(kind, calls);
      S.HasTag(t) <==> t.Some? && t.value.digest.Some?
  {
    hide S.Set;
    if calls == [] {
    } else {
      var before, c := calls[..|calls| - 1], calls[|calls| - 1];
      DigestWithTag(kind, before);
      S.SetTag(kind, S.After(kind, before), c.s, c.generation, c.digest);
    }
  }

  lemma {:induction false} ReadyByParts(status: Option<S.Status>, c: Option<S.Status>, f: Option<S.Status>)
    requires S.ReadyInv(c) && S.Conditions(status) == S.Conditions(c) && S.SameFields(status, f)
    requires S.HasTag(f) <==> f.Some? && f.value.digest.Some?
    ensures S.ReadyInv(status) <==> (S.HasTag(f) <==> S.HasTag(c))
  {
    hide S.IsTrue, S.HasType, S.Conditions;
    if status.Some? {
      var x, y := status.value.(conditions := []), f.value.(conditions := []);
      assert x.tag == y.tag && x.digest == y.digest;
    }
  }

  /** What is shown was called. */
  lemma {:induction false} ShownAreCalls(s: World, events: seq<Event>)
    requires s.held.None?
    ensures S.Succeeded(ShownCalls(s, events)) ==> S.Succeeded(Reports(events))
    decreases |events|
  {
    hide NoteOf, S.Succeeded, S.Succeeds, After, HandOver, Overwrites;
    if events == [] {
    } else {
      var front, e := events[..|events| - 1], events[|events| - 1];
      ShownAreCalls(s, front);
      KindStays(s, front);
      var w := After(s, front);
      assert Reports(front) + [] == Reports(front);
      if e.Agent? {
        S.SucceededAppend(ShownCalls(s, front), e.call);
        S.SucceededAppend(Reports(front), e.call);
      } else if Overwrites(w, e) {
        OverwriteIsNote(w, e);
        NoteIsHeld(w, e);
        NoteFacts(w, e);
        NoSuccess(NoteOf(w, e).value);
        var past := events[..HandOver(s, front)];
        S.SucceededAppend(ShownCalls(s, past), NoteOf(w, e).value);
        ShownAreCalls(s, past);
        ReportsGrow(events, HandOver(s, front));
      }
    }
  }

  lemma {:induction false} OverwriteIsNote(s: World, e: Event)
    requires Overwrites(s, e)
    ensures NoteOf(s, e).Some? && !e.Agent?
  {
  }

  lemma {:induction false} ReportsGrow(events: seq<Event>, k: nat)
    requires k <= |events|
    ensures S.Succeeded(Reports(events[..k])) ==> S.Succeeded(Reports(events))
    decreases |events|
  {
    hide S.Succeeded, S.Succeeds;
    if k == |events| {
      assert events[..k] == events;
    } else {
      var front, e := events[..|events| - 1], events[|events| - 1];
      ReportsGrow(front, k);
      assert front[..k] == events[..k] && Reports(front) + [] == Reports(front);
      if e.Agent? {
        S.SucceededAppend(Reports(front), e.call);
      }
    }
  }

  /** The note of an object without a version is patched onto one that has it. */
  predicate Overtaken(s: World, e: Event) {
    Overwrites(s, e) && !S.HasTag(s.held.value.status) && S.HasTag(s.obj.status)
  }

  ghost predicate SoundUpTo(s: World, events: seq<Event>, n: nat)
    requires n <= |events|
  {
    forall k :: 0 <= k <= n ==> S.ReadyInv(After(s, events[..k]).obj.status)
  }

  lemma {:induction false} StepSound(s: World, e: Event)
    requires s.held.Some? ==> s.held.value.spec.kind == s.obj.spec.kind && S.ReadyInv(s.held.value.status)
    requires s.held.Some? && S.HasTag(s.held.value.status) ==> S.HasTag(s.obj.status)
    requires e.Agent? ==> S.Offers(s.obj.spec.kind, e.call.s)
    requires S.ReadyInv(s.obj.status)
    ensures S.ReadyInv(Step(s, e).obj.status) <==> !Overtaken(s, e)
  {
    hide Step, NoteOf, S.ReadyInv, S.SetFrom, S.Skips, S.HasTag, Skipped, S.Offers;
    var kind := s.obj.spec.kind;
    if e.Agent? {
      AgentStep(s, e);
      AgentIsNoOverwrite(s, e);
      S.SetKeepsReadyInv(kind, s.obj.status, e.call.s, e.call.generation, e.call.digest);
    } else if NoteOf(s, e).Some? {
      NoteIsHeld(s, e);
      NoteFacts(s, e);
      var c, seen := NoteOf(s, e).value, s.held.value.status;
      if Overwrites(s, e) {
        S.GuardedSoundIff(kind, seen, s.obj.status, c.s, c.generation, c.digest);
      } else if c.answered {
        SkippedNote(kind, seen, s.obj.status, c);
      }
    } else {
      NoCallNoChange(s, e);
    }
  }

  lemma {:induction false} AgentIsNoOverwrite(s: World, e: Event)
    requires e.Agent?
    ensures !Overwrites(s, e)
  {
  }

  lemma {:induction false} StepKeepsHeldTag(s: World, e: Event)
    requires s.held.Some? && S.HasTag(s.held.value.status) ==> S.HasTag(s.obj.status)
    ensures S.HasTag(s.obj.status) ==> S.HasTag(Step(s, e).obj.status)
    ensures Step(s, e).held.Some? && S.HasTag(Step(s, e).held.value.status) ==> S.HasTag(Step(s, e).obj.status)
  {
    hide GatesOpen, Reason, Select, CheckRequirement, S.Writes, S.Excluding, S.Clears;
  }

  lemma {:induction false} HeldTagStays(s: World, events: seq<Event>)
    requires s.held.None?
    ensures After(s, events).held.Some? && S.HasTag(After(s, events).held.value.status) ==>
      S.HasTag(After(s, events).obj.status)
  {
    hide Step, S.HasTag;
    if events == [] {
    } else {
      HeldTagStays(s, events[..|events| - 1]);
      StepKeepsHeldTag(After(s, events[..|events| - 1]), events[|events| - 1]);
    }
  }

  /** While the run is sound, the next event keeps it sound exactly if it is not an overtaken note. */
  lemma {:induction false} NextSound(s: World, events: seq<Event>, n: nat)
    requires Starts(s, events) && n < |events| && SoundUpTo(s, events, n)
    ensures S.ReadyInv(After(s, events[..n + 1]).obj.status) <==> !Overtaken(After(s, events[..n]), events[n])
  {
    hide Step, NoteOf, S.ReadyInv, S.HasTag, S.Offers, Overtaken, HandOver;
    var past, e := events[..n], events[n];
    var w := After(s, past);
    assert events[..n + 1][..n] == past && events[..n + 1][n] == e;
    KindStays(s, past);
    HeldTagStays(s, past);
    if w.held.Some? {
      HeldIsHandedOver(s, past);
      assert past[..HandOver(s, past)] == events[..HandOver(s, past)];
    }
    StepSound(w, e);
  }

  /** In every run of the whole system Ready, Installed, tag and digest belong together throughout if and only if
      no first success is reported between the hand-over and the patch of a note. */
  lemma {:induction false} SoundThroughoutIff(s: World, events: seq<Event>, n: nat)
    requires Starts(s, events) && n <= |events|
    ensures SoundUpTo(s, events, n) <==> forall k :: 0 <= k < n ==> !Overtaken(After(s, events[..k]), events[k])
  {
    hide After, Overtaken, S.ReadyInv;
    if n == 0 {
      SoundAtFirst(s, events);
    } else {
      SoundThroughoutIff(s, events, n - 1);
      if SoundUpTo(s, events, n - 1) {
        NextSound(s, events, n - 1);
      }
    }
  }

  lemma {:induction false} SoundAtFirst(s: World, events: seq<Event>)
    requires Starts(s, events)
    ensures S.ReadyInv(After(s, events[..0]).obj.status)
  {
  }

  /** Which happens: a success reported while a reconcile of the fresh object is about to note that its jukebox
      is missing. The tag stands, Ready and Installed are gone. */
  lemma {:induction false} FirstSuccessCanBeHidden(o: Obj, a: Answers, tag: string, g: int, digest: string)
    returns (events: seq<Event>)
    requires o.status.None? && !o.suspended && !BoxCached(o, a) && a.statusPatch
    ensures Starts(World(o, None), events)
    ensures var status := After(World(o, None), events).obj.status;
      S.HasTag(status) && !S.ReadyInv(status)
  {
    hide S.SetFrom, S.ReadyInv, S.HasTag, S.NoDuplicates;
    var ready := S.Call(S.SetReady(tag), true, g, digest);
    events := [Begin, Agent(ready), Finish(a)];
    var s := World(o, None);
    var one, two := events[..1], events[..2];
    assert one[..0] == [] && two[..1] == one && events[..2] == two && events[..3] == events;
    var s1 := World(o, Some(o));
    var s2 := s1.(obj := o.(status := S.Exec(o.spec.kind, o.status, ready)));
    assert After(s, []) == s;
    assert After(s, one) == Step(After(s, []), Begin) == s1;
    assert After(s, two) == Step(After(s, one), Agent(ready)) == s2;
    ReadyHasTag(o.spec.kind, o.status, ready);
    MissingBoxIsNoted(s2, a);
    SoundThroughoutIff(s, events, 2);
    assert !Overtaken(After(s, events[..0]), events[0]) && !Overtaken(After(s, events[..1]), events[1]);
    NextSound(s, events, 2);
    HeldTagStays(s, two);
    StepKeepsHeldTag(s2, Finish(a));
    assert After(s, events) == Step(s2, Finish(a));
  }

  lemma {:induction false} ReadyHasTag(kind: S.Kind, status: Option<S.Status>, c: S.Call)
    requires c.answered && c.s.SetReady?
    ensures S.HasTag(S.Exec(kind, status, c))
    ensures !S.HasTag(None)
  {
    hide S.Clears, S.Writes, S.Excluding;
  }

  lemma {:induction false} MissingBoxIsNoted(s: World, a: Answers)
    requires s.held.Some? && s.held.value.status.None? && !s.held.value.suspended && !BoxCached(s.held.value, a)
    requires a.statusPatch
    ensures Overwrites(s, Finish(a))
  {
  }

  // ── What cleanup promises ─────────────────────────────────────────────────

  /** What the agent reported in a run. */
  function Reports(events: seq<Event>): seq<S.Call> {
    if events == [] then []
    else
      var e := events[|events| - 1];
      Reports(events[..|events| - 1]) + if e.Agent? then [e.call] else []
  }

  ghost predicate AnyState(calls: seq<S.Call>) {
    exists i :: 0 <= i < |calls| && S.RecordsState(calls[i])
  }

  /** The two lists record the same. */
  ghost predicate SameRecord(a: seq<S.Call>, b: seq<S.Call>) {
    (AnyState(a) <==> AnyState(b)) && forall list :: S.LatestList(a, list) == S.LatestList(b, list)
  }

  function LatestWith(calls: seq<S.Call>, c: S.Call, list: S.ChildList): seq<string> {
    if c.answered && c.s.Applied? && c.s.list == list then c.s.items else S.LatestList(calls, list)
  }

  lemma {:induction false} AnyStateAppend(calls: seq<S.Call>, c: S.Call)
    ensures AnyState(calls + [c]) <==> AnyState(calls) || S.RecordsState(c)
    ensures forall list :: S.LatestList(calls + [c], list) == LatestWith(calls, c, list)
  {
    var all := calls + [c];
    assert all[..|calls|] == calls && all[|calls|] == c;
    if AnyState(calls) {
      var i :| 0 <= i < |calls| && S.RecordsState(calls[i]);
      assert S.RecordsState(all[i]);
    }
    if S.RecordsState(c) {
      assert S.RecordsState(all[|calls|]);
    }
    if AnyState(all) {
      var i :| 0 <= i < |all| && S.RecordsState(all[i]);
      assert i < |calls| ==> S.RecordsState(calls[i]);
    }
  }

  lemma {:induction false} NotesRecordNothing(s: World, events: seq<Event>)
    requires s.held.Some? ==> s.held.value.spec.kind == s.obj.spec.kind
    ensures SameRecord(SetterCalls(s, events), Reports(events))
  {
    hide S.RecordsState, S.LatestList, AnyState, NoteOf, After;
    if events == [] {
    } else {
      var front, e := events[..|events| - 1], events[|events| - 1];
      NotesRecordNothing(s, front);
      KindStays(s, front);
      var w, calls := After(s, front), SetterCalls(s, front);
      assert Reports(front) + [] == Reports(front) && calls + [] == calls;
      if e.Agent? {
        AnyStateAppend(calls, e.call);
        AnyStateAppend(Reports(front), e.call);
      } else if NoteOf(w, e).Some? {
        NoteIsHeld(w, e);
        NoteFacts(w, e);
        AnyStateAppend(calls, NoteOf(w, e).value);
      }
    }
  }

  lemma {:induction false} SameRecordSameChildren(a: seq<S.Call>, b: seq<S.Call>)
    requires SameRecord(a, b)
    ensures S.RecordsChildren(a) <==> S.RecordsChildren(b)
  {
    assert S.RecordsChildren(a) <==> AnyState(a) || exists list :: S.LatestList(a, list) != [];
    assert S.RecordsChildren(b) <==> AnyState(b) || exists list :: S.LatestList(b, list) != [];
    if exists list :: S.LatestList(a, list) != [] {
      var list :| S.LatestList(a, list) != [];
      assert S.LatestList(b, list) != [];
    }
    if exists list :: S.LatestList(b, list) != [] {
      var list :| S.LatestList(b, list) != [];
      assert S.LatestList(a, list) != [];
    }
  }

  lemma {:induction false} CallsAreOffered(s: World, events: seq<Event>)
    requires Starts(s, events)
    ensures S.Offered(s.obj.spec.kind, SetterCalls(s, events))
  {
    hide NoteOf, S.Offers, After;
    if events == [] {
    } else {
      var front, e := events[..|events| - 1], events[|events| - 1];
      CallsAreOffered(s, front);
      KindStays(s, front);
      if NoteOf(After(s, front), e).Some? {
        NoteIsHeld(After(s, front), e);
        NoteFacts(After(s, front), e);
      }
    }
  }

  lemma {:induction false} HaveChildIffReported(s: World, events: seq<Event>)
    requires Starts(s, events)
    ensures var o := After(s, events).obj;
      S.HaveChild(o.spec.kind, o.status) <==> S.RecordsChildren(Reports(events))
  {
    hide *;
    var kind, calls := s.obj.spec.kind, SetterCalls(s, events);
    StartsOutside(s, events);
    KindStays(s, events);
    FieldsOfARun(s, events);
    CallsAreOffered(s, events);
    S.HaveChildByFields(kind, After(s, events).obj.status, S.After(kind, calls));
    S.HaveChildIffRecorded(kind, calls);
    NotesRecordNothing(s, events);
    SameRecordSameChildren(calls, Reports(events));
  }

  /** With the jukebox cached and no eligible package, the cleanup of an object as a run left it finishes
      exactly when the agent reported no children up to then, and changes nothing. */
  lemma {:induction false} CleanupSparesChildren(s: World, events: seq<Event>, o: Obj, a: Answers)
    requires Starts(s, events)
    requires BoxCached(After(s, events).obj, a) && Selected(After(s, events).obj, a).None?
    ensures CleanedUp(o, After(s, events).obj, a).1.Finished? <==> !S.RecordsChildren(Reports(events))
    ensures CleanedUp(o, After(s, events).obj, a).0 == o
  {
    hide Selected, S.HaveChild, S.RecordsChildren, After;
    HaveChildIffReported(s, events);
  }

  /** Reported children are orphaned, that is the cleanup finishes without a delete job, exactly when the
      jukebox is not in the cache; otherwise a cleanup that finishes ran the selected package's delete job. */
  lemma {:induction false} OrphansIffUncached(s: World, events: seq<Event>, o: Obj, a: Answers)
    requires Starts(s, events)
    requires S.RecordsChildren(Reports(events))
    ensures var inst := After(s, events).obj;
      var r := CleanedUp(o, inst, a).1;
      && (r == Finished(None) <==> !BoxCached(inst, a))
      && (r.Finished? && BoxCached(inst, a) ==>
            Selected(inst, a).Some? && r.deleteJob == Some(Selected(inst, a).value.tag) && a.calls.completes)
  {
    hide Selected, S.HaveChild, S.RecordsChildren, After;
    HaveChildIffReported(s, events);
  }
}
