/**
  The status machine of the three instance kinds: one condition list and a few fields, edited by
  setters through JSON merge patches (section 2 of RFC 7396: arrays are replaced, absent members kept).
  Setters work on the latest object; a patch that is refused has no effect.
*/
module InstanceStatus {
  import opened Strings

  datatype Kind = SystemKind | ServiceKind | TenantKind

  datatype CondType =
    | Ready | Installed | Backuped | Restored | AgentStarted | CrdApplied | TofuInstalled | SystemApplied
    | RhaiApplied | BeforeApplied | VitalApplied | ScalableApplied | InitFrom | ScheduleBackup | OtherApplied
    | PostApplied

  datatype Cond = Cond(ctype: CondType, ok: bool, message: string, generation: int)

  datatype ChildList = Befores | Vitals | Scalables | Others | Posts | Systems | Crds

  datatype Status = Status(
    conditions: seq<Cond>,
    tag: Option<string>,
    digest: Option<string>,
    tfstate: Option<string>,
    rhaistate: Option<string>,
    children: map<ChildList, seq<string>>,
    services: Option<seq<string>>)

  /** Every setter; stage setters that only differ by their stage are one case. */
  datatype Setter =
    | Tfstate(text: string)
    | TofuFailed(text: string, reason: string)
    | Rhaistate(text: string)
    | RhaiFailed(text: string, reason: string)
    | SetAgentStarted
    | MissingBox(jukebox: string)
    | MissingPackage(category: string, package: string)
    | MissingRequirement(reason: string)
    | MissingInitVersion(version: string)
    | SetReady(tag: string)
    | SetServices(services: seq<string>)
    | Applied(list: ChildList, items: seq<string>)
    | StageFailed(stage: CondType, reason: string)

  // ── Which kind has which setter ───────────────────────────────────────────

  predicate HasList(kind: Kind, list: ChildList) {
    match list
    case Systems => kind.SystemKind?
    case Crds => kind.SystemKind? || kind.ServiceKind?
    case _ => kind.ServiceKind? || kind.TenantKind?
  }

  predicate HasFailure(kind: Kind, stage: CondType) {
    match stage
    case SystemApplied => kind.SystemKind?
    case CrdApplied => kind.SystemKind? || kind.ServiceKind?
    case BeforeApplied | VitalApplied | ScalableApplied | OtherApplied | PostApplied | InitFrom | ScheduleBackup =>
      kind.ServiceKind? || kind.TenantKind?
    case _ => false
  }

  predicate Offers(kind: Kind, s: Setter) {
    match s
    case MissingInitVersion(_) | SetServices(_) => kind.ServiceKind? || kind.TenantKind?
    case Applied(list, _) => HasList(kind, list)
    case StageFailed(stage, _) => HasFailure(kind, stage)
    case _ => true
  }

  // ── What a setter clears and writes ───────────────────────────────────────

  function StageOf(list: ChildList): CondType {
    match list
    case Befores => BeforeApplied
    case Vitals => VitalApplied
    case Scalables => ScalableApplied
    case Others => OtherApplied
    case Posts => PostApplied
    case Systems => SystemApplied
    case Crds => CrdApplied
  }

  function OkMessage(list: ChildList): string {
    match list
    case Befores => "befores templates applied succesfully"
    case Vitals => "vitals templates applied succesfully"
    case Scalables => "Scalables templates applied succesfully"
    case Crds => "CRD(s) applied succesfully"
    case _ => "Templates applied succesfully"
  }

  function Failed(stage: CondType, reason: string, g: int): seq<Cond> {
    [Cond(stage, false, reason, g), Cond(Installed, false, reason, g)]
  }

  /** The one condition of a guarded setter. */
  function Guarded(s: Setter, g: int): Option<Cond> {
    match s
    case SetAgentStarted => Some(Cond(AgentStarted, true, "Agent started", g))
    case MissingBox(jukebox) => Some(Cond(AgentStarted, false, "JukeBox " + jukebox + " is missing", g))
    case MissingPackage(category, package) =>
      Some(Cond(AgentStarted, false, "Package " + category + "/" + package + " is missing", g))
    case MissingRequirement(reason) => Some(Cond(AgentStarted, false, reason, g))
    case MissingInitVersion(version) =>
      Some(Cond(InitFrom, false,
                "[E_INIT_VERSION_NOT_FOUND] Version " + version + " introuvable dans le registre OCI", g))
    case _ => None
  }

  function FailedStage(s: Setter): Option<CondType> {
    match s
    case TofuFailed(_, _) => Some(TofuInstalled)
    case RhaiFailed(_, _) => Some(RhaiApplied)
    case StageFailed(stage, _) => Some(stage)
    case _ => None
  }

  /** The types a setter takes out before it writes. */
  function Clears(kind: Kind, s: Setter): seq<CondType> {
    match s
    case Tfstate(_) => [TofuInstalled]
    case Rhaistate(_) => [RhaiApplied]
    case Applied(list, _) => [StageOf(list)]
    case TofuFailed(_, _) => [AgentStarted, TofuInstalled, Installed]
    case RhaiFailed(_, _) => [AgentStarted, RhaiApplied, Installed]
    case StageFailed(stage, _) => [AgentStarted, stage, Installed]
    case SetReady(_) =>
      if kind.SystemKind? then [AgentStarted, Ready, Installed]
      else [AgentStarted, BeforeApplied, Ready, Installed, InitFrom, ScheduleBackup]
    case MissingInitVersion(_) => [InitFrom]
    case SetServices(_) => []
    case _ => [AgentStarted]
  }

  predicate HasType(cs: seq<Cond>, t: CondType) {
    exists i | 0 <= i < |cs| :: cs[i].ctype == t
  }

  /** The conditions a setter pushes, given what is left after clearing. */
  function Writes(s: Setter, left: seq<Cond>, g: int): seq<Cond> {
    if Guarded(s, g).Some? then [Guarded(s, g).value]
    else if FailedStage(s).Some? then
      Failed(FailedStage(s).value, s.reason, g)
      + (if HasType(left, Ready) then [] else [Cond(Ready, false, "No successful install", g)])
    else
      match s
      case Tfstate(_) => [Cond(TofuInstalled, true, "Tofu layer applied succesfully", g)]
      case Rhaistate(_) => [Cond(RhaiApplied, true, "Custom rhai script succeed", g)]
      case Applied(list, _) => [Cond(StageOf(list), true, OkMessage(list), g)]
      case SetReady(_) =>
        [Cond(Ready, true, "Installed succesfully", g), Cond(Installed, true, "Installed succesfully", g)]
      case _ => []
  }

  function Excluding(cs: seq<Cond>, exclude: seq<CondType>): seq<Cond> {
    if cs == [] then []
    else
      Excluding(cs[..|cs| - 1], exclude)
      + (if cs[|cs| - 1].ctype in exclude then [] else [cs[|cs| - 1]])
  }

  function Conditions(status: Option<Status>): seq<Cond> {
    if status.Some? then status.value.conditions else []
  }

  predicate HaveCondition(status: Option<Status>, c: Cond) {
    c in Conditions(status)
  }

  /** The server's merge: `conditions` replaced, the named members set, the others kept. */
  function Patched(status: Option<Status>, conditions: seq<Cond>, s: Setter, digest: string): Status {
    var base := if status.Some? then status.value.(conditions := conditions)
                else Status(conditions, None, None, None, None, map[], None);
    match s
    case Tfstate(text) => base.(tfstate := Some(text))
    case TofuFailed(text, _) => base.(tfstate := Some(text))
    case Rhaistate(text) => base.(rhaistate := Some(text))
    case RhaiFailed(text, _) => base.(rhaistate := Some(text))
    case SetReady(tag) => base.(tag := Some(tag), digest := Some(digest))
    case SetServices(services) => base.(services := Some(services))
    case Applied(list, items) => base.(children := base.children[list := items])
    case _ => base
  }

  /** No patch is sent: a guarded setter whose condition is there already. */
  predicate Skips(status: Option<Status>, s: Setter, g: int) {
    Guarded(s, g).Some? && HaveCondition(status, Guarded(s, g).value)
  }

  /** The schema demands `conditions`, so `set_services` is refused while there is no status. */
  predicate Refused(status: Option<Status>, s: Setter) {
    s.SetServices? && status.None?
  }

  /** The setter reads the status it holds, `seen`, and patches the status in the cluster: the list is built
      from the first, the other members are kept from the second. */
  function SetFrom(
    kind: Kind, seen: Option<Status>, status: Option<Status>, s: Setter, g: int, digest: string): Option<Status>
  {
    if Skips(seen, s, g) || Refused(status, s) then status
    else
      var left := Excluding(Conditions(seen), Clears(kind, s));
      Some(Patched(status, left + Writes(s, left, g), s, digest))
  }

  /** A setter that holds the latest object. */
  function Set(kind: Kind, status: Option<Status>, s: Setter, g: int, digest: string): Option<Status> {
    SetFrom(kind, status, status, s, g, digest)
  }

  // ── The object ────────────────────────────────────────────────────────────

  class Instance {
    const kind: Kind
    var generation: int
    var digest: string
    var status: Option<Status>

    constructor (kind: Kind, generation: int, digest: string)
      ensures this.kind == kind && this.generation == generation && this.digest == digest && status == None
    {
      this.kind, this.generation, this.digest, this.status := kind, generation, digest, None;
    }

    method GetConditionsExcluding(exclude: seq<CondType>) returns (ret: seq<Cond>)
      ensures ret == Excluding(Conditions(status), exclude)
    {
      ret := [];
      if status.Some? {
        var cs := status.value.conditions;
        for i := 0 to |cs|
          invariant ret == Excluding(cs[..i], exclude)
        {
          assert cs[..i + 1][..i] == cs[..i];
          if cs[i].ctype !in exclude {
            ret := ret + [cs[i]];
          }
        }
        assert cs[..|cs|] == cs;
      }
    }

    /** `set_agent_started`, `set_missing_box`, `set_missing_package`, `set_missing_requirement`,
        `set_missing_init_version`. */
    method SetGuarded(s: Setter, patchOk: bool)
      requires Guarded(s, generation).Some?
      modifies this`status
      ensures status == if patchOk then Set(kind, old(status), s, generation, digest) else old(status)
    {
      var cond := Guarded(s, generation).value;
      if !HaveCondition(status, cond) {
        var conditions := GetConditionsExcluding(Clears(kind, s));
        conditions := conditions + [cond];
        if patchOk {
          status := Some(Patched(status, conditions, s, digest));
        }
      }
    }

    /** `set_tfstate`, `set_rhaistate`, `set_status_befores` … `set_status_systems`, `set_status_crds`. */
    method SetStageOk(s: Setter, patchOk: bool)
      requires s.Tfstate? || s.Rhaistate? || s.Applied?
      modifies this`status
      ensures status == if patchOk then Set(kind, old(status), s, generation, digest) else old(status)
    {
      var conditions := GetConditionsExcluding(Clears(kind, s));
      conditions := conditions + Writes(s, conditions, generation);
      if patchOk {
        status := Some(Patched(status, conditions, s, digest));
      }
    }

    /** `set_status_tofu_failed`, `set_status_rhai_failed`, `set_status_before_failed` … */
    method SetStageFailed(s: Setter, patchOk: bool)
      requires FailedStage(s).Some? && Offers(kind, s)
      modifies this`status
      ensures status == if patchOk then Set(kind, old(status), s, generation, digest) else old(status)
    {
      hide Patched, Clears, HasType, Excluding, Writes;
      var left := GetConditionsExcluding(Clears(kind, s));
      var conditions := left + [Cond(FailedStage(s).value, false, s.reason, generation)];
      conditions := conditions + [Cond(Installed, false, s.reason, generation)];
      FailureWrites(kind, left, s, generation);
      assert conditions == left + Failed(FailedStage(s).value, s.reason, generation);
      var ready := AnyOfType(conditions, Ready);
      if !ready {
        conditions := conditions + [Cond(Ready, false, "No successful install", generation)];
      }
      assert conditions == left + Writes(s, left, generation);
      if patchOk {
        status := Some(Patched(status, conditions, s, digest));
      }
    }

    method SetStatusReady(tag: string, patchOk: bool)
      modifies this`status
      ensures status == if patchOk then Set(kind, old(status), SetReady(tag), generation, digest) else old(status)
    {
      var conditions := GetConditionsExcluding(Clears(kind, SetReady(tag)));
      conditions := conditions + [Cond(Ready, true, "Installed succesfully", generation)];
      conditions := conditions + [Cond(Installed, true, "Installed succesfully", generation)];
      ghost var left := Excluding(Conditions(status), Clears(kind, SetReady(tag)));
      assert conditions == left + Writes(SetReady(tag), left, generation);
      if patchOk {
        status := Some(Patched(status, conditions, SetReady(tag), digest));
      }
    }

    method SetServicesList(services: seq<string>, patchOk: bool)
      modifies this`status
      ensures status == if patchOk then Set(kind, old(status), SetServices(services), generation, digest) else old(status)
    {
      if patchOk && status.Some? {
        ExcludingNothing(status.value.conditions);
        assert status.value.conditions + [] == status.value.conditions;
        status := Some(status.value.(services := Some(services)));
      }
    }
  }

  method AnyOfType(cs: seq<Cond>, t: CondType) returns (found: bool)
    ensures found <==> HasType(cs, t)
  {
    found := false;
    for i := 0 to |cs|
      invariant found <==> exists k :: 0 <= k < i && cs[k].ctype == t
    {
      if cs[i].ctype == t {
        found := true;
      }
    }
  }

  lemma {:induction false} FailureWrites(kind: Kind, left: seq<Cond>, s: Setter, g: int)
    requires FailedStage(s).Some? && Offers(kind, s)
    ensures var failed := Failed(FailedStage(s).value, s.reason, g);
      && (HasType(left + failed, Ready) <==> HasType(left, Ready))
      && Writes(s, left, g) ==
           failed + if HasType(left + failed, Ready) then [] else [Cond(Ready, false, "No successful install", g)]
  {
    var more := left + Failed(FailedStage(s).value, s.reason, g);
    if HasType(left, Ready) {
      var i :| 0 <= i < |left| && left[i].ctype == Ready;
      assert more[i].ctype == Ready;
    }
  }

  lemma {:induction false} ExcludingNothing(cs: seq<Cond>)
    ensures Excluding(cs, []) == cs
  {
    if cs == [] {
    } else {
      ExcludingNothing(cs[..|cs| - 1]);
    }
  }

  // ── Runs ──────────────────────────────────────────────────────────────────

  /** One call: the setter, whether the server takes the patch, and the object's generation and options
      digest at that time. */
  datatype Call = Call(s: Setter, answered: bool, generation: int, digest: string)

  function Exec(kind: Kind, status: Option<Status>, c: Call): Option<Status> {
    if c.answered then Set(kind, status, c.s, c.generation, c.digest) else status
  }

  function After(kind: Kind, calls: seq<Call>): Option<Status> {
    if calls == [] then None else Exec(kind, After(kind, calls[..|calls| - 1]), calls[|calls| - 1])
  }

  predicate Offered(kind: Kind, calls: seq<Call>) {
    forall i :: 0 <= i < |calls| ==> Offers(kind, calls[i].s)
  }

  // ── The condition list is the list of uncleared writes ─────────────────────

  datatype Op = Clear(t: CondType) | Put(c: Cond)

  function ClearOps(ts: seq<CondType>): (ops: seq<Op>)
    ensures |ops| == |ts| && forall i :: 0 <= i < |ts| ==> ops[i] == Clear(ts[i])
  {
    if ts == [] then [] else ClearOps(ts[..|ts| - 1]) + [Clear(ts[|ts| - 1])]
  }

  function PutOps(cs: seq<Cond>): (ops: seq<Op>)
    ensures |ops| == |cs| && forall i :: 0 <= i < |cs| ==> ops[i] == Put(cs[i])
  {
    if cs == [] then [] else PutOps(cs[..|cs| - 1]) + [Put(cs[|cs| - 1])]
  }

  function CallOps(kind: Kind, status: Option<Status>, c: Call): seq<Op> {
    if !c.answered || Skips(status, c.s, c.generation) || Refused(status, c.s) then []
    else
      ClearOps(Clears(kind, c.s))
      + PutOps(Writes(c.s, Excluding(Conditions(status), Clears(kind, c.s)), c.generation))
  }

  /** Every clear and every write of a run, in the order they were made. */
  function History(kind: Kind, calls: seq<Call>): seq<Op> {
    if calls == [] then []
    else
      var before := calls[..|calls| - 1];
      History(kind, before) + CallOps(kind, After(kind, before), calls[|calls| - 1])
  }

  /** Written at `i` and not cleared since. */
  predicate Live(ops: seq<Op>, i: nat)
    requires i < |ops|
  {
    ops[i].Put? && forall j :: i < j < |ops| ==> ops[j] != Clear(ops[i].c.ctype)
  }

  /** The live writes, in the order they were made. */
  function Survivors(ops: seq<Op>): seq<Cond> {
    if ops == [] then []
    else (if Live(ops, 0) then [ops[0].c] else []) + Survivors(ops[1..])
  }

  lemma {:induction false} ExcludingFirst(c: Cond, cs: seq<Cond>, ts: seq<CondType>)
    ensures Excluding([c] + cs, ts) == (if c.ctype in ts then [] else [c]) + Excluding(cs, ts)
  {
    var all := [c] + cs;
    if cs == [] {
      assert all[..0] == [] && Excluding(all[..0], ts) == [];
    } else {
      assert all[..|all| - 1] == [c] + cs[..|cs| - 1];
      ExcludingFirst(c, cs[..|cs| - 1], ts);
    }
  }

  lemma {:induction false} SurvivorsCleared(ops: seq<Op>, ts: seq<CondType>)
    ensures Survivors(ops + ClearOps(ts)) == Excluding(Survivors(ops), ts)
    decreases |ops|
  {
    var clears := ClearOps(ts);
    var all := ops + clears;
    if ops == [] {
      assert all == clears;
      NoWritesNoSurvivors(clears);
    } else {
      assert all[1..] == ops[1..] + clears;
      SurvivorsCleared(ops[1..], ts);
      var rest := Survivors(ops[1..]);
      assert [] + rest == rest && [] + Excluding(rest, ts) == Excluding(rest, ts);
      if ops[0].Put? {
        LiveBeforeClears(ops, ts);
        if Live(ops, 0) {
          ExcludingFirst(ops[0].c, Survivors(ops[1..]), ts);
        }
      }
    }
  }

  lemma {:induction false} LiveBeforeClears(ops: seq<Op>, ts: seq<CondType>)
    requires ops != [] && ops[0].Put?
    ensures Live(ops + ClearOps(ts), 0) <==> Live(ops, 0) && ops[0].c.ctype !in ts
  {
    var all, t := ops + ClearOps(ts), ops[0].c.ctype;
    assert forall j :: 0 <= j < |ops| ==> all[j] == ops[j];
    assert forall j :: 0 <= j < |ts| ==> all[|ops| + j] == Clear(ts[j]);
    if t in ts {
      var j :| 0 <= j < |ts| && ts[j] == t;
      assert all[|ops| + j] == Clear(t);
    }
  }

  lemma {:induction false} NoWritesNoSurvivors(ops: seq<Op>)
    requires forall i :: 0 <= i < |ops| ==> ops[i].Clear?
    ensures Survivors(ops) == []
  {
    if ops == [] {
    } else {
      NoWritesNoSurvivors(ops[1..]);
    }
  }

  lemma {:induction false} SurvivorsStep(ops: seq<Op>)
    requires ops != []
    ensures Survivors(ops) == (if Live(ops, 0) then [ops[0].c] else []) + Survivors(ops[1..])
  {
  }

  lemma {:induction false} SurvivorsWritten(ops: seq<Op>, cs: seq<Cond>)
    ensures Survivors(ops + PutOps(cs)) == Survivors(ops) + cs
    decreases |ops|
  {
    hide PutOps, Survivors;
    var all := ops + PutOps(cs);
    if ops == [] {
      assert all == PutOps(cs);
      OnlyWritesSurvive(cs, all);
      NoWritesNoSurvivors([]);
    } else {
      assert all[1..] == ops[1..] + PutOps(cs);
      SurvivorsWritten(ops[1..], cs);
      LiveBeforeWrites(ops, PutOps(cs));
      SurvivorsStep(ops);
      SurvivorsStep(all);
      var head := if Live(ops, 0) then [ops[0].c] else [];
      assert head + (Survivors(ops[1..]) + cs) == head + Survivors(ops[1..]) + cs;
    }
  }

  lemma {:induction false} LiveBeforeWrites(ops: seq<Op>, puts: seq<Op>)
    requires ops != [] && forall i :: 0 <= i < |puts| ==> puts[i].Put?
    ensures Live(ops + puts, 0) <==> Live(ops, 0)
  {
    var all := ops + puts;
    assert forall j :: 0 <= j < |ops| ==> all[j] == ops[j];
    assert forall j :: |ops| <= j < |all| ==> all[j] == puts[j - |ops|];
  }

  lemma {:induction false} OnlyWritesSurvive(cs: seq<Cond>, ops: seq<Op>)
    requires |ops| == |cs| && forall i :: 0 <= i < |cs| ==> ops[i] == Put(cs[i])
    ensures Survivors(ops) == cs
  {
    if cs == [] {
    } else {
      OnlyWritesSurvive(cs[1..], ops[1..]);
      assert cs == [cs[0]] + cs[1..];
    }
  }

  lemma {:induction false} SetConditions(kind: Kind, status: Option<Status>, s: Setter, g: int, digest: string)
    requires !Skips(status, s, g) && !Refused(status, s)
    ensures var left := Excluding(Conditions(status), Clears(kind, s));
      Conditions(Set(kind, status, s, g, digest)) == left + Writes(s, left, g)
  {
    hide Clears, Writes, Excluding, Skips, Refused;
  }

  /** After every run of setters, the condition list is, in order, the writes nothing has cleared. */
  lemma {:induction false} ConditionsAreSurvivors(kind: Kind, calls: seq<Call>)
    ensures Conditions(After(kind, calls)) == Survivors(History(kind, calls))
  {
    hide Clears, Writes, Set, Skips, Refused, Excluding, Survivors, ClearOps, PutOps, Conditions;
    if calls == [] {
      NoWritesNoSurvivors([]);
      NothingYet();
    } else {
      var before, c := calls[..|calls| - 1], calls[|calls| - 1];
      ConditionsAreSurvivors(kind, before);
      var status, ops := After(kind, before), History(kind, before);
      if !c.answered || Skips(status, c.s, c.generation) || Refused(status, c.s) {
        assert ops + [] == ops;
        NoSet(kind, status, c);
      } else {
        var ts := Clears(kind, c.s);
        var left := Excluding(Conditions(status), ts);
        var ws := Writes(c.s, left, c.generation);
        SetConditions(kind, status, c.s, c.generation, c.digest);
        SurvivorsCleared(ops, ts);
        SurvivorsWritten(ops + ClearOps(ts), ws);
        assert ops + (ClearOps(ts) + PutOps(ws)) == ops + ClearOps(ts) + PutOps(ws);
      }
    }
  }

  lemma {:induction false} NothingYet()
    ensures Conditions(None) == []
  {
  }

  lemma {:induction false} NoSet(kind: Kind, status: Option<Status>, c: Call)
    requires !c.answered || Skips(status, c.s, c.generation) || Refused(status, c.s)
    ensures Exec(kind, status, c) == status
  {
  }

  predicate NoDuplicates(cs: seq<Cond>) {
    forall i, j :: 0 <= i < j < |cs| ==> cs[i].ctype != cs[j].ctype
  }

  lemma {:induction false} ExcludingKeeps(cs: seq<Cond>, ts: seq<CondType>)
    ensures forall c :: c in Excluding(cs, ts) <==> c in cs && c.ctype !in ts
    ensures NoDuplicates(cs) ==> NoDuplicates(Excluding(cs, ts))
  {
    if cs == [] {
    } else {
      var front, last := cs[..|cs| - 1], cs[|cs| - 1];
      ExcludingKeeps(front, ts);
      assert cs == front + [last];
    }
  }

  lemma {:induction false} HasTypeMember(cs: seq<Cond>, t: CondType)
    ensures HasType(cs, t) <==> exists c :: c in cs && c.ctype == t
  {
    if exists c :: c in cs && c.ctype == t {
      var c :| c in cs && c.ctype == t;
      var i :| 0 <= i < |cs| && cs[i] == c;
    }
  }

  /** Nothing twice, nothing but what was cleared, and Ready where it is not listed. */
  predicate Covered(ws: seq<Cond>, cleared: seq<CondType>, left: seq<Cond>) {
    NoDuplicates(ws)
    && forall i :: 0 <= i < |ws| ==> ws[i].ctype in cleared || (ws[i].ctype == Ready && !HasType(left, Ready))
  }

  lemma {:induction false} WritesWhatItCleared(kind: Kind, s: Setter, left: seq<Cond>, g: int)
    requires Offers(kind, s)
    ensures Covered(Writes(s, left, g), Clears(kind, s), left)
    ensures Writes(s, left, g) == [] <==> s.SetServices?
  {
    hide Writes, Clears, Covered, Offers;
    if FailedStage(s).Some? {
      FailureIsCovered(kind, s, left, g);
    } else {
      OthersAreCovered(kind, s, left, g);
    }
  }

  lemma {:induction false} FailureIsCovered(kind: Kind, s: Setter, left: seq<Cond>, g: int)
    requires Offers(kind, s) && FailedStage(s).Some?
    ensures Covered(Writes(s, left, g), Clears(kind, s), left)
    ensures Writes(s, left, g) != [] && !s.SetServices?
  {
    hide HasType;
    NotGuarded(s, g);
    var stage := FailedStage(s).value;
    assert Clears(kind, s) == [AgentStarted, stage, Installed];
    assert stage in [AgentStarted, stage, Installed] && Installed in [AgentStarted, stage, Installed];
  }

  lemma {:induction false} OthersAreCovered(kind: Kind, s: Setter, left: seq<Cond>, g: int)
    requires FailedStage(s).None?
    ensures Covered(Writes(s, left, g), Clears(kind, s), left)
    ensures Writes(s, left, g) == [] <==> s.SetServices?
  {
    hide HasType;
  }

  lemma {:induction false} SetKeepsNoDuplicates(kind: Kind, status: Option<Status>, s: Setter, g: int, digest: string)
    requires Offers(kind, s) && NoDuplicates(Conditions(status))
    ensures NoDuplicates(Conditions(Set(kind, status, s, g, digest)))
  {
    hide Clears, Writes, Set, Conditions, Skips, Refused, Excluding, HasType;
    var cs, ts := Conditions(status), Clears(kind, s);
    var left := Excluding(cs, ts);
    var ws := Writes(s, left, g);
    if Skips(status, s, g) || Refused(status, s) {
      NoSet(kind, status, Call(s, true, g, digest));
      return;
    }
    SetConditions(kind, status, s, g, digest);
    ExcludingKeeps(cs, ts);
    HasTypeMember(left, Ready);
    WritesWhatItCleared(kind, s, left, g);
    forall i, j | 0 <= i < |left| && 0 <= j < |ws| ensures left[i].ctype != ws[j].ctype {
      assert left[i] in left;
    }
  }

  lemma {:induction false} RunHasNoDuplicates(kind: Kind, calls: seq<Call>)
    requires Offered(kind, calls)
    ensures NoDuplicates(Conditions(After(kind, calls)))
  {
    if calls == [] {
    } else {
      var before, c := calls[..|calls| - 1], calls[|calls| - 1];
      RunHasNoDuplicates(kind, before);
      SetKeepsNoDuplicates(kind, After(kind, before), c.s, c.generation, c.digest);
    }
  }

  lemma {:induction false} SurvivorIsListed(ops: seq<Op>, i: nat)
    requires i < |ops| && Live(ops, i)
    ensures exists n :: 0 <= n < |Survivors(ops)| && Survivors(ops)[n] == ops[i].c
  {
    if i == 0 {
      assert Survivors(ops)[0] == ops[0].c;
    } else {
      LiveInTail(ops, i);
      SurvivorIsListed(ops[1..], i - 1);
      var rest := Survivors(ops[1..]);
      var n :| 0 <= n < |rest| && rest[n] == ops[i].c;
      assert Survivors(ops)[n + |Survivors(ops)| - |rest|] == ops[i].c;
    }
  }

  lemma {:induction false} LiveInTail(ops: seq<Op>, i: nat)
    requires 0 < i < |ops|
    ensures Live(ops, i) <==> Live(ops[1..], i - 1)
  {
    assert forall j :: 0 <= j < |ops| - 1 ==> ops[1..][j] == ops[j + 1];
    assert forall j :: 0 < j < |ops| ==> ops[j] == ops[1..][j - 1];
  }

  lemma {:induction false} TwoSurvivors(ops: seq<Op>, i: nat, j: nat)
    requires i < j < |ops| && Live(ops, i) && Live(ops, j) && NoDuplicates(Survivors(ops))
    ensures ops[i].c.ctype != ops[j].c.ctype
  {
    LiveInTail(ops, j);
    SurvivorsStep(ops);
    hide Survivors;
    var all, rest := Survivors(ops), Survivors(ops[1..]);
    if i == 0 {
      SurvivorIsListed(ops[1..], j - 1);
      var n :| 0 <= n < |rest| && rest[n] == ops[j].c;
      assert all[0] == ops[0].c && all[n + 1] == ops[j].c;
    } else {
      LiveInTail(ops, i);
      assert forall n :: 0 <= n < |rest| ==> rest[n] == all[n + |all| - |rest|];
      TwoSurvivors(ops[1..], i - 1, j - 1);
    }
  }

  /** A listed condition is the latest write of its type. */
  lemma {:induction false} ListedIsLatest(kind: Kind, calls: seq<Call>, i: nat, j: nat)
    requires Offered(kind, calls) && i < j < |History(kind, calls)|
    requires Live(History(kind, calls), i) && History(kind, calls)[j].Put?
    ensures History(kind, calls)[j].c.ctype != History(kind, calls)[i].c.ctype
  {
    var ops := History(kind, calls);
    ConditionsAreSurvivors(kind, calls);
    RunHasNoDuplicates(kind, calls);
    if Live(ops, j) {
      TwoSurvivors(ops, i, j);
    } else {
      var k :| j < k < |ops| && ops[k] == Clear(ops[j].c.ctype);
    }
  }

  predicate SameEnd(ops: seq<Op>, cs: seq<Cond>) {
    ops != [] && ops[|ops| - 1].Put? && cs != [] && cs[|cs| - 1] == ops[|ops| - 1].c
  }

  lemma {:induction false} SameEndBehind(more: seq<Op>, ops: seq<Op>, cs: seq<Cond>)
    requires SameEnd(ops, cs)
    ensures SameEnd(more + ops, cs)
  {
  }

  /** The last entry is the last write. */
  lemma {:induction false} LastEntryIsLastWrite(kind: Kind, calls: seq<Call>)
    requires Offered(kind, calls) && History(kind, calls) != []
    ensures SameEnd(History(kind, calls), Conditions(After(kind, calls)))
  {
    assert calls != [];
    hide *;
    var before, c := calls[..|calls| - 1], calls[|calls| - 1];
    var status := After(kind, before);
    HistoryOneMore(kind, calls);
    var ops := CallOps(kind, status, c);
    CallEndsWithItsWrite(kind, status, c);
    if ops == [] {
      assert History(kind, calls) == History(kind, before);
      LastEntryIsLastWrite(kind, before);
    } else {
      SameEndBehind(History(kind, before), ops, Conditions(After(kind, calls)));
    }
  }

  /** A call that writes ends on its last write, in the history and in the list; another one changes neither. */
  lemma {:induction false} CallEndsWithItsWrite(kind: Kind, status: Option<Status>, c: Call)
    requires Offers(kind, c.s)
    ensures var ops, cs := CallOps(kind, status, c), Conditions(Exec(kind, status, c));
      if ops == [] then cs == Conditions(status) else SameEnd(ops, cs)
  {
    hide Clears, Writes, Set, Skips, Refused, Excluding, ClearOps, PutOps, Conditions, Offers;
    if !c.answered || Skips(status, c.s, c.generation) || Refused(status, c.s) {
      NoSet(kind, status, c);
    } else {
      var left := Excluding(Conditions(status), Clears(kind, c.s));
      WritesWhatItCleared(kind, c.s, left, c.generation);
      SetConditions(kind, status, c.s, c.generation, c.digest);
      if c.s.SetServices? {
        ServicesClearNothing(kind, c.s);
        ExcludingNothing(Conditions(status));
        assert Conditions(status) + [] == Conditions(status);
      }
    }
  }

  lemma {:induction false} HistoryOneMore(kind: Kind, calls: seq<Call>)
    requires calls != []
    ensures var (before, c) := (calls[..|calls| - 1], calls[|calls| - 1]);
      && History(kind, calls) == History(kind, before) + CallOps(kind, After(kind, before), c)
      && After(kind, calls) == Exec(kind, After(kind, before), c)
      && (Offered(kind, calls) ==> Offered(kind, before) && Offers(kind, c.s))
  {
    hide CallOps, Set, Offers;
  }

  lemma {:induction false} ServicesClearNothing(kind: Kind, s: Setter)
    requires s.SetServices?
    ensures Clears(kind, s) == []
  {
  }

  /** A guarded setter repeated on its own result changes nothing. */
  lemma {:induction false} GuardedTwice(kind: Kind, status: Option<Status>, s: Setter, g: int, digest: string, digest': string)
    requires Guarded(s, g).Some?
    ensures Set(kind, Set(kind, status, s, g, digest), s, g, digest') == Set(kind, status, s, g, digest)
  {
    var once := Set(kind, status, s, g, digest);
    if !Skips(status, s, g) {
      var cs := Conditions(once);
      assert cs[|cs| - 1] == Guarded(s, g).value;
    }
  }

  // ── Ready, Installed, tag and digest ───────────────────────────────────────

  ghost predicate IsTrue(cs: seq<Cond>, t: CondType) {
    exists c :: c in cs && c.ctype == t && c.ok
  }

  ghost predicate ReadyInv(status: Option<Status>) {
    var cs := Conditions(status);
    && (HasType(cs, Ready) <==> HasType(cs, Installed))
    && (IsTrue(cs, Installed) ==> IsTrue(cs, Ready))
    && (IsTrue(cs, Ready) <==> status.Some? && status.value.tag.Some?)
    && (status.Some? ==> (status.value.tag.Some? <==> status.value.digest.Some?))
  }

  lemma {:induction false} InParts(a: seq<Cond>, b: seq<Cond>, t: CondType)
    ensures HasType(a + b, t) <==> HasType(a, t) || HasType(b, t)
    ensures IsTrue(a + b, t) <==> IsTrue(a, t) || IsTrue(b, t)
  {
    HasTypeMember(a + b, t);
    HasTypeMember(a, t);
    HasTypeMember(b, t);
  }

  lemma {:induction false} InExcluded(cs: seq<Cond>, ts: seq<CondType>, t: CondType)
    ensures HasType(Excluding(cs, ts), t) <==> HasType(cs, t) && t !in ts
    ensures IsTrue(Excluding(cs, ts), t) <==> IsTrue(cs, t) && t !in ts
  {
    ExcludingKeeps(cs, ts);
    HasTypeMember(cs, t);
    HasTypeMember(Excluding(cs, ts), t);
  }

  lemma {:induction false} FailureOf(stage: CondType, reason: string, more: seq<Cond>, g: int)
    requires stage != Ready && (more == [] || more == [Cond(Ready, false, "No successful install", g)])
    ensures var ws := Failed(stage, reason, g) + more;
      && !IsTrue(ws, Ready) && !IsTrue(ws, Installed)
      && HasType(ws, Installed) && (HasType(ws, Ready) <==> more != [])
  {
    var ws := Failed(stage, reason, g) + more;
    assert ws[1].ctype == Installed;
    assert more != [] ==> ws[2].ctype == Ready;
  }

  lemma {:induction false} WritesOf(s: Setter, left: seq<Cond>, g: int)
    requires FailedStage(s).Some? ==> FailedStage(s).value != Ready
    ensures var ws := Writes(s, left, g);
      && (IsTrue(ws, Ready) <==> s.SetReady?)
      && (IsTrue(ws, Installed) <==> s.SetReady?)
      && (HasType(ws, Installed) <==> s.SetReady? || FailedStage(s).Some?)
      && (HasType(ws, Ready) <==> s.SetReady? || (FailedStage(s).Some? && !HasType(left, Ready)))
  {
    var ws := Writes(s, left, g);
    if FailedStage(s).Some? {
      hide HasType, IsTrue, Failed;
      FailureOf(FailedStage(s).value, s.reason,
                if HasType(left, Ready) then [] else [Cond(Ready, false, "No successful install", g)], g);
    } else if s.SetReady? {
      assert ws[0] in ws && ws[1] in ws;
    } else {
      assert |ws| <= 1;
      assert ws != [] ==> ws[0].ctype != Ready && ws[0].ctype != Installed;
    }
  }

  lemma {:induction false} SetTag(kind: Kind, status: Option<Status>, s: Setter, g: int, digest: string)
    ensures var t := Set(kind, status, s, g, digest);
      && (t.Some? && t.value.tag.Some? <==> (status.Some? && status.value.tag.Some?) || s.SetReady?)
      && (t.Some? && t.value.digest.Some? <==> (status.Some? && status.value.digest.Some?) || s.SetReady?)
  {
    hide Clears, Writes, Excluding;
  }

  lemma {:induction false} SetKeepsReadyInv(kind: Kind, status: Option<Status>, s: Setter, g: int, digest: string)
    requires Offers(kind, s) && ReadyInv(status)
    ensures ReadyInv(Set(kind, status, s, g, digest))
    ensures IsTrue(Conditions(status), Ready) ==> IsTrue(Conditions(Set(kind, status, s, g, digest)), Ready)
  {
    hide Set, Writes, Excluding, Skips, Refused, IsTrue, HasType, Conditions;
    SetTag(kind, status, s, g, digest);
    if Skips(status, s, g) || Refused(status, s) {
      NoSet(kind, status, Call(s, true, g, digest));
      return;
    }
    SetConditions(kind, status, s, g, digest);
    var cs, ts := Conditions(status), Clears(kind, s);
    var left := Excluding(cs, ts);
    InExcluded(cs, ts, Ready);
    InExcluded(cs, ts, Installed);
    WritesOf(s, left, g);
    InParts(left, Writes(s, left, g), Ready);
    InParts(left, Writes(s, left, g), Installed);
  }

  /** In every reachable status: Ready is there iff Installed is, a true Installed comes with a true
      Ready, and Ready is true iff the tag and the digest are set. */
  lemma {:induction false} ReachableReady(kind: Kind, calls: seq<Call>)
    requires Offered(kind, calls)
    ensures ReadyInv(After(kind, calls))
  {
    if calls == [] {
    } else {
      hide Set, ReadyInv, Offers;
      var before, c := calls[..|calls| - 1], calls[|calls| - 1];
      ReachableReady(kind, before);
      SetKeepsReadyInv(kind, After(kind, before), c.s, c.generation, c.digest);
    }
  }

  lemma {:induction false} AfterOneMore(kind: Kind, calls: seq<Call>, more: seq<Call>)
    requires more != []
    ensures var (front, c) := (calls + more[..|more| - 1], more[|more| - 1]);
      After(kind, calls + more) == Exec(kind, After(kind, front), c)
    ensures Offered(kind, calls + more) ==> Offered(kind, calls + more[..|more| - 1]) && Offers(kind, more[|more| - 1].s)
  {
    hide Exec, Offers;
    var all := calls + more;
    assert all[..|all| - 1] == calls + more[..|more| - 1];
    assert all[|all| - 1] == more[|more| - 1];
    assert forall i :: 0 <= i < |all| - 1 ==> (calls + more[..|more| - 1])[i] == all[i];
  }

  /** Ready never goes back from true. */
  lemma {:induction false} ReadyStaysTrue(kind: Kind, calls: seq<Call>, more: seq<Call>)
    requires Offered(kind, calls + more) && IsTrue(Conditions(After(kind, calls)), Ready)
    ensures IsTrue(Conditions(After(kind, calls + more)), Ready)
    decreases |more|
  {
    hide Set, IsTrue, ReadyInv, Conditions, Offers, Offered, After;
    if more == [] {
      assert calls + more == calls;
    } else {
      var before, c := calls + more[..|more| - 1], more[|more| - 1];
      AfterOneMore(kind, calls, more);
      ReadyStaysTrue(kind, calls, more[..|more| - 1]);
      ReachableReady(kind, before);
      SetKeepsReadyInv(kind, After(kind, before), c.s, c.generation, c.digest);
    }
  }

  // ── Restoration failures ───────────────────────────────────────────────────

  predicate ReportsFailure(s: Setter, t: CondType) {
    (s.StageFailed? && s.stage == t) || (s.MissingInitVersion? && t.InitFrom?)
  }

  /** A failure of type `t` was reported after the last success. */
  predicate Unresolved(calls: seq<Call>, t: CondType) {
    if calls == [] then false
    else
      var c := calls[|calls| - 1];
      if c.answered && c.s.SetReady? then false
      else (c.answered && ReportsFailure(c.s, t)) || Unresolved(calls[..|calls| - 1], t)
  }

  lemma {:induction false} SetShowsFailure(kind: Kind, status: Option<Status>, s: Setter, g: int, digest: string, t: CondType)
    requires Offers(kind, s) && !kind.SystemKind? && (t.InitFrom? || t.ScheduleBackup?)
    ensures HasType(Conditions(Set(kind, status, s, g, digest)), t) <==>
      !s.SetReady? && (ReportsFailure(s, t) || HasType(Conditions(status), t))
  {
    hide Set, Excluding, HasType, Conditions, Skips, Refused;
    var left := Excluding(Conditions(status), Clears(kind, s));
    var ws := Writes(s, left, g);
    if Skips(status, s, g) {
      SkippedIsShown(status, s, g, t);
      NoSet(kind, status, Call(s, true, g, digest));
    } else if Refused(status, s) {
      RefusedIsServices(status, s);
      NoSet(kind, status, Call(s, true, g, digest));
    } else {
      SetConditions(kind, status, s, g, digest);
      InExcluded(Conditions(status), Clears(kind, s), t);
      InParts(left, ws, t);
      FailureWritten(kind, s, left, g, t);
    }
  }

  lemma {:induction false} SkippedIsShown(status: Option<Status>, s: Setter, g: int, t: CondType)
    requires Skips(status, s, g) && (t.InitFrom? || t.ScheduleBackup?)
    ensures !s.SetReady? && (ReportsFailure(s, t) ==> HasType(Conditions(status), t))
  {
    HasTypeMember(Conditions(status), t);
  }

  lemma {:induction false} RefusedIsServices(status: Option<Status>, s: Setter)
    requires Refused(status, s)
    ensures s.SetServices?
  {
  }

  lemma {:induction false} FailureWritten(kind: Kind, s: Setter, left: seq<Cond>, g: int, t: CondType)
    requires Offers(kind, s) && !kind.SystemKind? && (t.InitFrom? || t.ScheduleBackup?)
    ensures HasType(Writes(s, left, g), t) <==> ReportsFailure(s, t)
    ensures t in Clears(kind, s) ==> s.SetReady? || ReportsFailure(s, t)
    ensures s.SetReady? ==> t in Clears(kind, s)
  {
    var ws := Writes(s, left, g);
    if FailedStage(s).Some? {
      assert ws[0].ctype == FailedStage(s).value;
      assert forall i :: 1 <= i < |ws| ==> ws[i].ctype == Installed || ws[i].ctype == Ready;
    } else if s.MissingInitVersion? {
      assert ws[0].ctype == InitFrom;
    }
  }

  /** Services and tenants: a restoration or backup-schedule condition stands exactly while its failure has
      not been followed by a success. */
  lemma {:induction false} FailureShownIffUnresolved(kind: Kind, calls: seq<Call>, t: CondType)
    requires Offered(kind, calls) && !kind.SystemKind? && (t.InitFrom? || t.ScheduleBackup?)
    ensures HasType(Conditions(After(kind, calls)), t) <==> Unresolved(calls, t)
  {
    hide Set, HasType, Conditions, Offers, ReportsFailure;
    if calls == [] {
      NothingYet();
      NoTypeInNothing(t);
    } else {
      var before, c := calls[..|calls| - 1], calls[|calls| - 1];
      FailureShownIffUnresolved(kind, before, t);
      SetShowsFailure(kind, After(kind, before), c.s, c.generation, c.digest, t);
    }
  }

  lemma {:induction false} NoTypeInNothing(t: CondType)
    ensures !HasType([], t)
  {
  }

  // ── have_child ────────────────────────────────────────────────────────────

  predicate ListedChildren(status: Status, list: ChildList) {
    list in status.children && status.children[list] != []
  }

  predicate HaveChild(kind: Kind, status: Option<Status>) {
    if status.None? then false
    else
      var s := status.value;
      if s.rhaistate.Some? then true
      else if s.tfstate.Some? then true
      else
        match kind
        case SystemKind => ListedChildren(s, Systems) || ListedChildren(s, Crds)
        case ServiceKind =>
          ListedChildren(s, Befores) || ListedChildren(s, Vitals) || ListedChildren(s, Others)
          || ListedChildren(s, Scalables) || ListedChildren(s, Posts) || ListedChildren(s, Crds)
        case TenantKind =>
          ListedChildren(s, Befores) || ListedChildren(s, Vitals) || ListedChildren(s, Others)
          || ListedChildren(s, Scalables) || ListedChildren(s, Posts)
  }

  predicate RecordsState(c: Call) {
    c.answered && (c.s.Tfstate? || c.s.TofuFailed? || c.s.Rhaistate? || c.s.RhaiFailed?)
  }

  /** The latest children recorded for a list. */
  function LatestList(calls: seq<Call>, list: ChildList): seq<string> {
    if calls == [] then []
    else
      var c := calls[|calls| - 1];
      if c.answered && c.s.Applied? && c.s.list == list then c.s.items
      else LatestList(calls[..|calls| - 1], list)
  }

  ghost predicate RecordsChildren(calls: seq<Call>) {
    (exists i :: 0 <= i < |calls| && RecordsState(calls[i])) || (exists list :: LatestList(calls, list) != [])
  }

  function ChildrenOf(status: Option<Status>): map<ChildList, seq<string>> {
    if status.Some? then status.value.children else map[]
  }

  predicate HasState(status: Option<Status>) {
    status.Some? && (status.value.tfstate.Some? || status.value.rhaistate.Some?)
  }

  lemma {:induction false} SetFields(kind: Kind, status: Option<Status>, s: Setter, g: int, digest: string)
    ensures var t := Set(kind, status, s, g, digest);
      && (HasState(t) <==> HasState(status) || s.Tfstate? || s.TofuFailed? || s.Rhaistate? || s.RhaiFailed?)
      && ChildrenOf(t) == if s.Applied? then ChildrenOf(status)[s.list := s.items] else ChildrenOf(status)
  {
    hide Clears, Writes;
  }

  lemma {:induction false} FieldsFollowCalls(kind: Kind, calls: seq<Call>)
    requires Offered(kind, calls)
    ensures var st := After(kind, calls);
      && ((exists i :: 0 <= i < |calls| && RecordsState(calls[i])) <==> HasState(st))
      && (forall list :: LatestList(calls, list) ==
            if list in ChildrenOf(st) then ChildrenOf(st)[list] else [])
      && (forall list :: list in ChildrenOf(st) ==> HasList(kind, list))
  {
    if calls == [] {
    } else {
      hide Set;
      var before, c := calls[..|calls| - 1], calls[|calls| - 1];
      FieldsFollowCalls(kind, before);
      SetFields(kind, After(kind, before), c.s, c.generation, c.digest);
      assert forall i :: 0 <= i < |before| ==> calls[i] == before[i];
      if RecordsState(c) {
        assert RecordsState(calls[|calls| - 1]);
      } else if exists i :: 0 <= i < |before| && RecordsState(before[i]) {
        var i :| 0 <= i < |before| && RecordsState(before[i]);
        assert RecordsState(calls[i]);
      }
    }
  }

  lemma {:induction false} SomeListed(kind: Kind, s: Status) returns (list: ChildList)
    requires HaveChild(kind, Some(s)) && s.rhaistate.None? && s.tfstate.None?
    ensures list in s.children && s.children[list] != []
  {
    list :=
      if ListedChildren(s, Systems) then Systems
      else if ListedChildren(s, Crds) then Crds
      else if ListedChildren(s, Befores) then Befores
      else if ListedChildren(s, Vitals) then Vitals
      else if ListedChildren(s, Others) then Others
      else if ListedChildren(s, Scalables) then Scalables
      else Posts;
  }

  /** In every reachable status, `have_child` answers whether the run recorded anything: some tofu or
      rhai state ever, or a latest child list that is not empty. */
  lemma {:induction false} HaveChildIffRecorded(kind: Kind, calls: seq<Call>)
    requires Offered(kind, calls)
    ensures HaveChild(kind, After(kind, calls)) <==> RecordsChildren(calls)
  {
    FieldsFollowCalls(kind, calls);
    var st := After(kind, calls);
    if HaveChild(kind, st) && !HasState(st) {
      var list := SomeListed(kind, st.value);
      assert LatestList(calls, list) == ChildrenOf(st)[list];
    }
    if RecordsChildren(calls) && !HasState(st) {
      var list :| LatestList(calls, list) != [];
      assert ListedChildren(st.value, list) && HasList(kind, list);
    }
  }

  /** `have_child` looks at exactly the lists the kind has setters for. */
  lemma {:induction false} EveryListCounts(kind: Kind, status: Status, list: ChildList)
    requires status.tfstate.None? && status.rhaistate.None?
    requires list in status.children && status.children[list] != []
    requires forall other :: other in status.children && other != list ==> status.children[other] == []
    ensures HaveChild(kind, Some(status)) <==> HasList(kind, list)
  {
    if HaveChild(kind, Some(status)) {
      var found := SomeListed(kind, status);
    }
    assert ListedChildren(status, list);
  }

  /** A kind can report the failure of exactly the stages it can report applied, and unless it is the system kind,
      of the restoration and of the backup schedule; only then has it services and a version to restore. */
  lemma {:induction false} FailuresMatchLists(kind: Kind, stage: CondType)
    ensures HasFailure(kind, stage) <==>
      || (exists list :: HasList(kind, list) && StageOf(list) == stage)
      || (kind != SystemKind && stage in {InitFrom, ScheduleBackup})
    ensures forall s: Setter | s.SetServices? || s.MissingInitVersion? :: Offers(kind, s) <==> kind != SystemKind
  {
    var list := match stage
      case BeforeApplied => Befores case VitalApplied => Vitals case ScalableApplied => Scalables
      case OtherApplied => Others case PostApplied => Posts case SystemApplied => Systems case _ => Crds;
    assert HasFailure(kind, stage) && stage !in {InitFrom, ScheduleBackup} ==> HasList(kind, list) && StageOf(list) == stage;
  }

  // ── Setters that hold an older object ──────────────────────────────────────

  /** Everything but the conditions is the same. */
  predicate SameFields(a: Option<Status>, b: Option<Status>) {
    && a.Some? == b.Some?
    && (a.Some? ==> a.value.(conditions := []) == b.value.(conditions := []))
  }

  /** What the fields become does not depend on the conditions, nor on which object the setter holds. */
  lemma {:induction false} SetSameFields(
    kind: Kind, seen: Option<Status>, a: Option<Status>, b: Option<Status>, s: Setter, g: int, digest: string)
    requires SameFields(a, b) && (seen.Some? ==> a.Some?)
    ensures SameFields(SetFrom(kind, seen, a, s, g, digest), Set(kind, b, s, g, digest))
  {
    hide Clears, Writes, Excluding;
  }

  /** What the conditions become does not depend on the fields. */
  lemma {:induction false} SetSameConditions(
    kind: Kind, a: Option<Status>, b: Option<Status>, s: Setter, g: int, digest: string)
    requires Conditions(a) == Conditions(b)
    ensures Conditions(Set(kind, a, s, g, digest)) == Conditions(Set(kind, b, s, g, digest))
  {
    hide Writes, Excluding;
    if s.SetServices? {
      ExcludingNothing(Conditions(a));
      ServicesClearNothing(kind, s);
      assert Writes(s, Conditions(a), g) == [] by {
        WritesOfServices(s, Conditions(a), g);
      }
      assert Conditions(a) + [] == Conditions(a);
    }
  }

  lemma {:induction false} WritesOfServices(s: Setter, left: seq<Cond>, g: int)
    requires s.SetServices?
    ensures Writes(s, left, g) == []
  {
  }

  /** The conditions are those the same setter makes of the object it holds. */
  lemma {:induction false} SetFromConditions(
    kind: Kind, seen: Option<Status>, status: Option<Status>, s: Setter, g: int, digest: string)
    requires !Skips(seen, s, g) && Guarded(s, g).Some?
    ensures Conditions(SetFrom(kind, seen, status, s, g, digest)) == Conditions(Set(kind, seen, s, g, digest))
    ensures SetFrom(kind, seen, status, s, g, digest).Some?
  {
    hide Clears, Writes, Excluding;
  }

  /** A guarded setter lists its own condition and what the object it holds lists of the other types: it drops
      what was written since, and brings back what was cleared since. */
  lemma {:induction false} ListedAfterGuarded(
    kind: Kind, seen: Option<Status>, status: Option<Status>, s: Setter, g: int, digest: string, c: Cond)
    requires Guarded(s, g).Some? && !Skips(seen, s, g)
    ensures c in Conditions(SetFrom(kind, seen, status, s, g, digest)) <==>
      c == Guarded(s, g).value || (c in Conditions(seen) && c.ctype !in Clears(kind, s))
  {
    hide Clears, Excluding;
    ExcludingKeeps(Conditions(seen), Clears(kind, s));
  }

  predicate HasTag(status: Option<Status>) {
    status.Some? && status.value.tag.Some?
  }

  lemma {:induction false} GuardedKeepsFields(
    kind: Kind, seen: Option<Status>, status: Option<Status>, s: Setter, g: int, digest: string)
    requires Guarded(s, g).Some?
    ensures var t := SetFrom(kind, seen, status, s, g, digest);
      HasTag(t) == HasTag(status)
      && (t.Some? && t.value.digest.Some? <==> status.Some? && status.value.digest.Some?)
  {
    hide Clears, Writes, Excluding;
  }

  /** From sound objects a guarded setter makes a sound one exactly when the object it holds and the one in
      the cluster agree on whether a version was installed. */
  lemma {:induction false} GuardedSoundIff(
    kind: Kind, seen: Option<Status>, status: Option<Status>, s: Setter, g: int, digest: string)
    requires Offers(kind, s) && Guarded(s, g).Some? && !Skips(seen, s, g)
    requires ReadyInv(seen) && ReadyInv(status)
    ensures ReadyInv(SetFrom(kind, seen, status, s, g, digest)) <==> (HasTag(seen) <==> HasTag(status))
  {
    hide Set, SetFrom, Clears, Writes, Excluding, Skips, IsTrue, HasType, Conditions;
    SetFromConditions(kind, seen, status, s, g, digest);
    SetKeepsReadyInv(kind, seen, s, g, digest);
    GuardedIsNotReady(s, g);
    SetTag(kind, seen, s, g, digest);
    GuardedKeepsFields(kind, seen, status, s, g, digest);
  }

  lemma {:induction false} GuardedIsNotReady(s: Setter, g: int)
    requires Guarded(s, g).Some?
    ensures !s.SetReady?
  {
  }

  ghost predicate Succeeded(calls: seq<Call>) {
    exists i :: 0 <= i < |calls| && Succeeds(calls[i])
  }

  predicate Succeeds(c: Call) {
    c.answered && c.s.SetReady?
  }

  lemma {:induction false} SucceededAppend(calls: seq<Call>, c: Call)
    ensures Succeeded(calls + [c]) <==> Succeeded(calls) || Succeeds(c)
  {
    hide Succeeds;
    var all := calls + [c];
    if Succeeded(calls) {
      var i :| 0 <= i < |calls| && Succeeds(calls[i]);
      assert Succeeds(all[i]);
    }
    if Succeeds(c) {
      assert Succeeds(all[|calls|]);
    }
  }

  /** A version is recorded exactly when a success was reported. */
  lemma {:induction false} TagIffSucceeded(kind: Kind, calls: seq<Call>)
    ensures HasTag(After(kind, calls)) <==> Succeeded(calls)
  {
    hide Set, Succeeded;
    if calls == [] {
      NoneSucceeded();
    } else {
      var before, c := calls[..|calls| - 1], calls[|calls| - 1];
      TagIffSucceeded(kind, before);
      assert calls == before + [c];
      SucceededAppend(before, c);
      SetTag(kind, After(kind, before), c.s, c.generation, c.digest);
    }
  }

  lemma {:induction false} NoneSucceeded()
    ensures !Succeeded([])
  {
  }

  /** Whether children are recorded is a matter of the fields. */
  lemma {:induction false} HaveChildByFields(kind: Kind, a: Option<Status>, b: Option<Status>)
    requires SameFields(a, b)
    ensures HaveChild(kind, a) <==> HaveChild(kind, b)
  {
    if a.Some? {
      var x, y := a.value.(conditions := []), b.value.(conditions := []);
      assert x.rhaistate == y.rhaistate && x.tfstate == y.tfstate && x.children == y.children;
    }
  }

  // ── The fields, read off the calls ─────────────────────────────────────────

  predicate MakesStatus(c: Call) {
    c.answered && !c.s.SetServices?
  }

  /** Some call has made a status. */
  predicate Started(calls: seq<Call>) {
    calls != [] && (MakesStatus(calls[|calls| - 1]) || Started(calls[..|calls| - 1]))
  }

  function LastTofu(calls: seq<Call>): Option<string> {
    if calls == [] then None
    else
      var c := calls[|calls| - 1];
      if c.answered && (c.s.Tfstate? || c.s.TofuFailed?) then Some(c.s.text) else LastTofu(calls[..|calls| - 1])
  }

  function LastRhai(calls: seq<Call>): Option<string> {
    if calls == [] then None
    else
      var c := calls[|calls| - 1];
      if c.answered && (c.s.Rhaistate? || c.s.RhaiFailed?) then Some(c.s.text) else LastRhai(calls[..|calls| - 1])
  }

  /** The tag and the options digest of the last reported success. */
  function LastSuccess(calls: seq<Call>): Option<(string, string)> {
    if calls == [] then None
    else
      var c := calls[|calls| - 1];
      if c.answered && c.s.SetReady? then Some((c.s.tag, c.digest)) else LastSuccess(calls[..|calls| - 1])
  }

  /** Services are refused until there is a status. */
  function LastServices(calls: seq<Call>): Option<seq<string>> {
    if calls == [] then None
    else
      var front, c := calls[..|calls| - 1], calls[|calls| - 1];
      if c.answered && c.s.SetServices? && Started(front) then Some(c.s.services) else LastServices(front)
  }

  /** What one accepted call does to each field. */
  lemma {:induction false} OneSetFields(kind: Kind, status: Option<Status>, s: Setter, g: int, digest: string)
    ensures var t := Set(kind, status, s, g, digest);
      && (t.Some? <==> status.Some? || !s.SetServices?)
      && (t.Some? ==>
            && t.value.tfstate == (if s.Tfstate? || s.TofuFailed? then Some(s.text)
                                   else if status.Some? then status.value.tfstate else None)
            && t.value.rhaistate == (if s.Rhaistate? || s.RhaiFailed? then Some(s.text)
                                     else if status.Some? then status.value.rhaistate else None)
            && t.value.tag == (if s.SetReady? then Some(s.tag) else if status.Some? then status.value.tag else None)
            && t.value.digest == (if s.SetReady? then Some(digest)
                                  else if status.Some? then status.value.digest else None)
            && t.value.services == (if s.SetServices? then Some(s.services)
                                    else if status.Some? then status.value.services else None))
  {
    hide Clears, Writes, Excluding;
  }

  /** After every run of setters each field is that of the last answered call that sets it. */
  lemma {:induction false} FieldsAreLastCalls(kind: Kind, calls: seq<Call>)
    ensures var t := After(kind, calls);
      && (t.Some? <==> Started(calls))
      && (t.None? ==> LastTofu(calls) == None && LastRhai(calls) == None && LastSuccess(calls) == None
                      && LastServices(calls) == None)
      && (t.Some? ==>
            && t.value.tfstate == LastTofu(calls)
            && t.value.rhaistate == LastRhai(calls)
            && t.value.tag == (if LastSuccess(calls).Some? then Some(LastSuccess(calls).value.0) else None)
            && t.value.digest == (if LastSuccess(calls).Some? then Some(LastSuccess(calls).value.1) else None)
            && t.value.services == LastServices(calls))
  {
    hide Set;
    if calls == [] {
    } else {
      var before, c := calls[..|calls| - 1], calls[|calls| - 1];
      FieldsAreLastCalls(kind, before);
      OneSetFields(kind, After(kind, before), c.s, c.generation, c.digest);
    }
  }

  // ── The conditions one setter leaves, type by type ─────────────────────────

  ghost predicate Same(before: Option<Status>, after: Option<Status>, t: CondType) {
    forall c: Cond | c.ctype == t :: c in Conditions(after) <==> c in Conditions(before)
  }

  ghost predicate Gone(after: Option<Status>, t: CondType) {
    forall c | c in Conditions(after) :: c.ctype != t
  }

  /** The type is listed, and only with this truth and generation. */
  ghost predicate Only(after: Option<Status>, t: CondType, ok: bool, g: int) {
    && (exists c :: c in Conditions(after) && c.ctype == t)
    && forall c | c in Conditions(after) && c.ctype == t :: c.ok == ok && c.generation == g
  }

  ghost predicate Says(after: Option<Status>, t: CondType, message: string) {
    forall c | c in Conditions(after) && c.ctype == t :: c.message == message
  }

  ghost predicate OthersSame(before: Option<Status>, after: Option<Status>, except: set<CondType>) {
    forall t | t !in except :: Same(before, after, t)
  }

  /** One type becomes this, everything else stays. */
  ghost predicate Becomes(before: Option<Status>, after: Option<Status>, t: CondType, ok: bool, g: int) {
    Only(after, t, ok, g) && OthersSame(before, after, {t})
  }

  lemma {:induction false} ListedAfter(kind: Kind, status: Option<Status>, s: Setter, g: int, digest: string, c: Cond)
    requires !Skips(status, s, g) && !Refused(status, s)
    ensures var left := Excluding(Conditions(status), Clears(kind, s));
      c in Conditions(Set(kind, status, s, g, digest)) <==>
        (c in Conditions(status) && c.ctype !in Clears(kind, s)) || c in Writes(s, left, g)
  {
    hide Clears, Writes, Set, Excluding, Conditions;
    SetConditions(kind, status, s, g, digest);
    ExcludingKeeps(Conditions(status), Clears(kind, s));
  }

  lemma {:induction false} OneWriteBecomes(
    kind: Kind, status: Option<Status>, s: Setter, g: int, digest: string, c: Cond)
    requires !Skips(status, s, g) && !Refused(status, s)
    requires Clears(kind, s) == [c.ctype] && c.generation == g
    requires forall left :: Writes(s, left, g) == [c]
    ensures Becomes(status, Set(kind, status, s, g, digest), c.ctype, c.ok, g)
    ensures Says(Set(kind, status, s, g, digest), c.ctype, c.message)
  {
    hide Clears, Writes, Set, Excluding, Skips, Refused, Conditions;
    var after := Set(kind, status, s, g, digest);
    forall d: Cond ensures d in Conditions(after) <==> (d in Conditions(status) && d.ctype != c.ctype) || d == c {
      ListedAfter(kind, status, s, g, digest, d);
    }
    assert c in Conditions(after);
  }

  /** One type becomes true with this message, everything else stays. */
  ghost predicate Achieves(before: Option<Status>, after: Option<Status>, t: CondType, message: string, g: int) {
    Becomes(before, after, t, true, g) && Says(after, t, message)
  }

  /** The tofu, rhai and stage setters: their own type becomes true, all others stay. */
  lemma {:induction false} StageOkEffect(kind: Kind, status: Option<Status>, s: Setter, g: int, digest: string)
    requires s.Tfstate? || s.Rhaistate? || s.Applied?
    ensures var after := Set(kind, status, s, g, digest);
      match s
      case Tfstate(_) => Achieves(status, after, TofuInstalled, "Tofu layer applied succesfully", g)
      case Rhaistate(_) => Achieves(status, after, RhaiApplied, "Custom rhai script succeed", g)
      case Applied(Befores, _) => Achieves(status, after, BeforeApplied, "befores templates applied succesfully", g)
      case Applied(Vitals, _) => Achieves(status, after, VitalApplied, "vitals templates applied succesfully", g)
      case Applied(Scalables, _) => Achieves(status, after, ScalableApplied, "Scalables templates applied succesfully", g)
      case Applied(Others, _) => Achieves(status, after, OtherApplied, "Templates applied succesfully", g)
      case Applied(Posts, _) => Achieves(status, after, PostApplied, "Templates applied succesfully", g)
      case Applied(Systems, _) => Achieves(status, after, SystemApplied, "Templates applied succesfully", g)
      case Applied(Crds, _) => Achieves(status, after, CrdApplied, "CRD(s) applied succesfully", g)
      case _ => true
  {
    hide Set, Becomes, Excluding, Conditions, Says;
    OneWriteBecomes(kind, status, s, g, digest, Writes(s, [], g)[0]);
  }

  /** The guarded setters, when they patch. */
  lemma {:induction false} GuardedEffect(kind: Kind, status: Option<Status>, s: Setter, g: int, digest: string)
    requires Guarded(s, g).Some? && !Skips(status, s, g)
    ensures var after := Set(kind, status, s, g, digest);
      && (s.SetAgentStarted? ==> Becomes(status, after, AgentStarted, true, g))
      && (s.MissingBox? ==>
            && Becomes(status, after, AgentStarted, false, g)
            && Says(after, AgentStarted, "JukeBox " + s.jukebox + " is missing"))
      && (s.MissingPackage? ==>
            && Becomes(status, after, AgentStarted, false, g)
            && Says(after, AgentStarted, "Package " + s.category + "/" + s.package + " is missing"))
      && (s.MissingRequirement? ==>
            && Becomes(status, after, AgentStarted, false, g)
            && Says(after, AgentStarted, s.reason))
      && (s.MissingInitVersion? ==> Becomes(status, after, InitFrom, false, g))
  {
    hide Set, Becomes, Excluding, Conditions, Skips, Says;
    OneWriteBecomes(kind, status, s, g, digest, Guarded(s, g).value);
  }

  /** A failure of a stage: the stage and Installed become false for the reason, AgentStarted goes, Ready stays as
      it was or becomes false where it was never listed. */
  ghost predicate Fails(before: Option<Status>, after: Option<Status>, stage: CondType, reason: string, g: int) {
    && Only(after, stage, false, g) && Says(after, stage, reason)
    && Only(after, Installed, false, g) && Says(after, Installed, reason)
    && Gone(after, AgentStarted)
    && (if HasType(Conditions(before), Ready) then Same(before, after, Ready) else Only(after, Ready, false, g))
    && OthersSame(before, after, {stage, Installed, AgentStarted, Ready})
  }

  lemma {:induction false} StageFails(
    kind: Kind, status: Option<Status>, s: Setter, g: int, digest: string, stage: CondType)
    requires FailedStage(s) == Some(stage) && Clears(kind, s) == [AgentStarted, stage, Installed]
    requires stage != Ready && stage != Installed && stage != AgentStarted
    ensures Fails(status, Set(kind, status, s, g, digest), stage, s.reason, g)
  {
    var after, cs := Set(kind, status, s, g, digest), Conditions(status);
    var left := Excluding(cs, Clears(kind, s));
    InExcluded(cs, Clears(kind, s), Ready);
    NotGuarded(s, g);
    FailureList(s, left, g, stage);
    hide Clears, Writes, Set, Excluding, Conditions, HasType, Failed;
    forall d: Cond ensures d in Conditions(after) <==>
      (d in Conditions(status) && d.ctype !in [AgentStarted, stage, Installed]) || d in Writes(s, left, g)
    {
      ListedAfter(kind, status, s, g, digest, d);
    }
    FailureIsFailing(status, after, stage, s.reason, g);
  }

  lemma {:induction false} NotGuarded(s: Setter, g: int)
    requires FailedStage(s).Some?
    ensures Guarded(s, g).None? && !s.SetServices?
  {
  }

  lemma {:induction false} FailureList(s: Setter, left: seq<Cond>, g: int, stage: CondType)
    requires FailedStage(s) == Some(stage)
    ensures forall d :: d in Writes(s, left, g) <==>
      || d == Cond(stage, false, s.reason, g) || d == Cond(Installed, false, s.reason, g)
      || (!HasType(left, Ready) && d == Cond(Ready, false, "No successful install", g))
  {
    hide HasType;
    NotGuarded(s, g);
  }

  lemma {:induction false} FailureIsFailing(
    before: Option<Status>, after: Option<Status>, stage: CondType, reason: string, g: int)
    requires stage != Ready && stage != Installed && stage != AgentStarted
    requires forall d: Cond :: d in Conditions(after) <==>
      || (d in Conditions(before) && d.ctype !in [AgentStarted, stage, Installed])
      || d == Cond(stage, false, reason, g) || d == Cond(Installed, false, reason, g)
      || (!HasType(Conditions(before), Ready) && d == Cond(Ready, false, "No successful install", g))
    ensures Fails(before, after, stage, reason, g)
  {
    hide Conditions, HasType;
    HasTypeMember(Conditions(before), Ready);
    assert Cond(stage, false, reason, g) in Conditions(after) && Cond(Installed, false, reason, g) in Conditions(after);
    if !HasType(Conditions(before), Ready) {
      assert Cond(Ready, false, "No successful install", g) in Conditions(after);
    }
  }

  /** Every failure setter, its own stage. */
  lemma {:induction false} StageFailedEffect(kind: Kind, status: Option<Status>, s: Setter, g: int, digest: string)
    requires Offers(kind, s)
    ensures var after := Set(kind, status, s, g, digest);
      && (s.TofuFailed? ==> Fails(status, after, TofuInstalled, s.reason, g))
      && (s.RhaiFailed? ==> Fails(status, after, RhaiApplied, s.reason, g))
      && (s.StageFailed? ==> Fails(status, after, s.stage, s.reason, g))
  {
    hide Set, Fails;
    if s.TofuFailed? {
      StageFails(kind, status, s, g, digest, TofuInstalled);
    } else if s.RhaiFailed? {
      StageFails(kind, status, s, g, digest, RhaiApplied);
    } else if s.StageFailed? {
      StageFails(kind, status, s, g, digest, s.stage);
    }
  }

  /** A success: Ready and Installed become true, AgentStarted goes, and for services and tenants the failures of
      befores, of the restoration and of the backup schedule; all others stay. */
  lemma {:induction false} ReadyEffect(kind: Kind, status: Option<Status>, tag: string, g: int, digest: string)
    ensures var after := Set(kind, status, SetReady(tag), g, digest);
      && Only(after, Ready, true, g) && Only(after, Installed, true, g) && Gone(after, AgentStarted)
      && (if kind == SystemKind then OthersSame(status, after, {Ready, Installed, AgentStarted})
          else
            && Gone(after, BeforeApplied) && Gone(after, InitFrom) && Gone(after, ScheduleBackup)
            && OthersSame(status, after, {Ready, Installed, AgentStarted, BeforeApplied, InitFrom, ScheduleBackup}))
  {
    hide Set, Excluding, Conditions, Skips, Refused;
    var after := Set(kind, status, SetReady(tag), g, digest);
    var r, i := Cond(Ready, true, "Installed succesfully", g), Cond(Installed, true, "Installed succesfully", g);
    ReadyIsPlain(status, tag, g);
    forall d: Cond ensures d in Conditions(after) <==>
      (d in Conditions(status) && d.ctype !in Clears(kind, SetReady(tag))) || d == r || d == i
    {
      ListedAfter(kind, status, SetReady(tag), g, digest, d);
    }
    assert r in Conditions(after) && i in Conditions(after);
  }

  lemma {:induction false} ReadyIsPlain(status: Option<Status>, tag: string, g: int)
    ensures !Skips(status, SetReady(tag), g) && !Refused(status, SetReady(tag))
  {
  }
}
