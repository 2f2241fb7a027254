/**
  The jukebox controller as a step protocol: one reconcile is a sequence of API calls that may each
  fail without effect, interleaved with the job's own progress, with users who annotate the jukebox and
  with anybody who deletes or creates the scan job.
*/
module ScanProtocol {
  import opened Strings
  import opened JobClient

  /** What one reconcile remembers; only `force` is read by the code, the rest is for the properties:
      the job and the first uid not yet used when it started, whether the job read was answered, whether
      the first delete was refused, and whether somebody rewrote the annotation or created the job
      meanwhile. */
  datatype Round = Round(
    force: Option<string>, had: Option<Job>, base: nat,
    answered: bool, refused: bool, rewritten: bool, foreign: bool)

  datatype Pc =
    | Idle
    | Reading(round: Round)
    | Cron(round: Round, terminal: bool)
    | DeletingFirst(round: Round)
    | AwaitingFirst(round: Round, uid: nat)
    | Applying(round: Round)
    | DeletingAgain(round: Round)
    | AwaitingAgain(round: Round, uid: nat)
    | Creating(round: Round)
    | Unannotating(round: Round, uid: nat)

  /** A created job, and the annotation its round was asked with (of a foreign one: none). */
  datatype Made = Made(uid: nat, filter: Option<string>, byOperator: bool, asked: Option<string>)

  datatype Deletion = Deletion(round: Round, terminal: bool)

  datatype Removal = Removal(round: Round, value: string, uid: nat)

  datatype State = State(
    job: Option<Job>,
    annotation: Option<string>,
    nextUid: nat,
    op: Pc,
    created: seq<Made>,
    deleted: seq<Deletion>,
    removed: seq<Removal>)

  datatype Action =
    | Start
    | Read(ok: bool)
    | PatchCron(ok: bool)
    | Delete(ok: bool, atOnce: bool)
    | Await(ok: bool)
    | ApplyJob(ok: bool)
    | CreateJob(ok: bool)
    | Unannotate(ok: bool)
    | Crash
    | Progress(conditions: seq<Cond>)
    | Vanish
    | Annotate(value: Option<string>)
    | ForeignCreate(filter: Option<string>)
    | ForeignDelete

  predicate ShouldCreateScanJob(terminal: bool, force: Option<string>) {
    !terminal || force.Some?
  }

  /** The filter of a scan job for an annotation: none where the annotation is absent, empty or `true`, and else the
      annotation itself. */
  function FilterFor(asked: Option<string>): Option<string> {
    if asked in {None, Some(""), Some("true")} then None else asked
  }

  /** The package filter that is put into the job's context. */
  function InjectPackageFilter(force: Option<string>): (filter: Option<string>)
    ensures filter == FilterFor(force)
  {
    if force.Some? && force.value != "true" && force.value != "" then force else None
  }

  predicate Gone(s: State, uid: nat) {
    !Shows(s.job, uid)
  }

  predicate Enabled(s: State, a: Action) {
    match a
    case Start => s.op.Idle?
    case Read(_) => s.op.Reading?
    case PatchCron(_) => s.op.Cron?
    case Delete(_, _) => s.op.DeletingFirst? || s.op.DeletingAgain?
    case Await(ok) => (s.op.AwaitingFirst? || s.op.AwaitingAgain?) && (ok ==> Gone(s, s.op.uid))
    // A job's pod template cannot change: applying another one is rejected.
    case ApplyJob(ok) =>
      s.op.Applying? && (ok && s.job.Some? ==> s.job.value.filter == InjectPackageFilter(s.op.round.force))
    case CreateJob(ok) => s.op.Creating? && (ok ==> s.job.None?)
    case Unannotate(ok) => s.op.Unannotating? && (ok ==> s.annotation.Some?)
    case Crash => !s.op.Idle?
    case Progress(conditions) =>
      s.job.Some? && (IsTerminal(s.job.value) ==> IsTerminal(s.job.value.(conditions := conditions)))
    case Vanish => s.job.Some? && (s.job.value.deleting || IsTerminal(s.job.value))
    case Annotate(_) => true
    case ForeignCreate(_) => s.job.None?
    case ForeignDelete => s.job.Some?
  }

  function WithJob(s: State, filter: Option<string>, byOperator: bool, asked: Option<string>): State {
    s.(job := Some(Job(s.nextUid, filter, false, [])), nextUid := s.nextUid + 1,
       created := s.created + [Made(s.nextUid, filter, byOperator, asked)])
  }

  /** After the job is there: the annotation goes only now. */
  function AfterCreation(round: Round, uid: nat): Pc {
    if round.force.Some? then Unannotating(round, uid) else Idle
  }

  function Marked(op: Pc, rewritten: bool, foreign: bool): Pc {
    if op.Idle? then Idle
    else op.(round := op.round.(rewritten := op.round.rewritten || rewritten, foreign := op.round.foreign || foreign))
  }

  function DoRead(s: State, ok: bool): State
    requires s.op.Reading?
  {
    var r := s.op.round.(answered := ok);
    if ok && s.job.Some? then
      if s.job.value.deleting then s.(op := Idle)
      else if !IsTerminal(s.job.value) then s.(op := Idle)
      else s.(op := Cron(r, true))
    else s.(op := Cron(r, false))
  }

  function DoPatchCron(s: State, ok: bool): State
    requires s.op.Cron?
  {
    var r := s.op.round;
    if !ok || !ShouldCreateScanJob(s.op.terminal, r.force) then s.(op := Idle)
    else if r.force.Some? && s.op.terminal then s.(op := DeletingFirst(r))
    else s.(op := Applying(r))
  }

  /** An accepted delete removes the job at once or marks it; a refused one only changes the road. */
  function DoDelete(s: State, ok: bool, atOnce: bool): State
    requires s.op.DeletingFirst? || s.op.DeletingAgain?
  {
    var r := s.op.round;
    if !ok || s.job.None? then
      if s.op.DeletingFirst? then s.(op := Applying(r.(refused := s.job.Some?))) else s.(op := Idle)
    else
      var t := s.(deleted := s.deleted + [Deletion(r, IsTerminal(s.job.value))]);
      if atOnce then t.(job := None, op := if s.op.DeletingFirst? then Applying(r) else Creating(r))
      else
        var uid := s.job.value.uid;
        t.(job := Some(s.job.value.(deleting := true)),
           op := if s.op.DeletingFirst? then AwaitingFirst(r, uid) else AwaitingAgain(r, uid))
  }

  function DoApply(s: State, ok: bool): State
    requires s.op.Applying?
  {
    var r := s.op.round;
    if !ok then s.(op := DeletingAgain(r))
    else if s.job.Some? then s.(op := AfterCreation(r, s.job.value.uid))
    else WithJob(s, InjectPackageFilter(r.force), true, r.force).(op := AfterCreation(r, s.nextUid))
  }

  function Apply(s: State, a: Action): State
    requires Enabled(s, a)
  {
    match a
    case Start => s.(op := Reading(Round(s.annotation, s.job, s.nextUid, false, false, false, false)))
    case Read(ok) => DoRead(s, ok)
    case PatchCron(ok) => DoPatchCron(s, ok)
    case Delete(ok, atOnce) => DoDelete(s, ok, atOnce)
    case Await(ok) =>
      if !ok then s.(op := Idle)
      else s.(op := if s.op.AwaitingFirst? then Applying(s.op.round) else Creating(s.op.round))
    case ApplyJob(ok) => DoApply(s, ok)
    case CreateJob(ok) =>
      if !ok then s.(op := Idle)
      else
        WithJob(s, InjectPackageFilter(s.op.round.force), true, s.op.round.force).(op := AfterCreation(s.op.round, s.nextUid))
    case Unannotate(ok) =>
      if !ok then s.(op := Idle)
      else
        s.(op := Idle, annotation := None,
           removed := s.removed + [Removal(s.op.round, s.annotation.value, s.op.uid)])
    case Crash => s.(op := Idle)
    case Progress(conditions) => s.(job := Some(s.job.value.(conditions := conditions)))
    case Vanish => s.(job := None)
    case Annotate(value) => s.(annotation := value, op := Marked(s.op, true, false))
    case ForeignCreate(filter) => WithJob(s, filter, false, None).(op := Marked(s.op, false, true))
    case ForeignDelete => s.(job := None)
  }

  predicate CanRun(s: State, run: seq<Action>)
    decreases |run|
  {
    run == [] || (Enabled(s, run[0]) && CanRun(Apply(s, run[0]), run[1..]))
  }

  function Run(s: State, run: seq<Action>): State
    requires CanRun(s, run)
    decreases |run|
  {
    if run == [] then s else Run(Apply(s, run[0]), run[1..])
  }

  // ── What every step keeps ─────────────────────────────────────────────────

  predicate WasMade(created: seq<Made>, uid: nat, filter: Option<string>) {
    exists i | 0 <= i < |created| :: created[i].uid == uid && created[i].filter == filter
  }

  predicate WasMadeByOperator(created: seq<Made>, uid: nat, filter: Option<string>) {
    exists i | 0 <= i < |created| ::
      created[i].uid == uid && created[i].filter == filter && created[i].byOperator
  }

  /** The read was answered and the delete went through: this round should scan afresh. */
  predicate Clean(r: Round) {
    r.answered && !r.refused
  }

  /** No job of before this round is left. */
  predicate NoOldJob(s: State, r: Round) {
    s.job.Some? ==> s.job.value.uid >= r.base
  }

  /** Nobody but the operator created the job since an answered read. */
  predicate Alone(r: Round) {
    r.answered && !r.foreign
  }

  /** The job of before the round, with the very filter the round asks for. */
  predicate HadTheFilter(r: Round) {
    r.had.Some? && r.had.value.filter == InjectPackageFilter(r.force)
  }

  /** A job older than the round is the one it started with. */
  predicate OldIsHad(s: State, r: Round) {
    s.job.Some? && s.job.value.uid < r.base ==>
      r.had.Some? && r.had.value.uid == s.job.value.uid && r.had.value.filter == s.job.value.filter
  }

  /** Made by this very round. */
  predicate MadeNow(created: seq<Made>, r: Round, uid: nat) {
    && (uid < r.base ==> !Clean(r) && HadTheFilter(r))
    && (Clean(r) && !r.foreign ==> WasMadeByOperator(created, uid, InjectPackageFilter(r.force)))
  }

  predicate TerminalOrGone(s: State) {
    s.job.Some? ==> IsTerminal(s.job.value)
  }

  predicate RoundOk(s: State) {
    match s.op
    case Idle => true
    case Reading(r) => !r.answered && !r.refused
    case Cron(r, terminal) =>
      && !r.refused
      && (terminal ==> r.answered && (Alone(r) ==> TerminalOrGone(s)))
      && (!terminal && r.answered ==> NoOldJob(s, r))
      && (!terminal && Alone(r) ==> s.job.None?)
    case DeletingFirst(r) => r.force.Some? && Clean(r) && (Alone(r) ==> TerminalOrGone(s))
    case AwaitingFirst(r, uid) =>
      && r.force.Some? && Clean(r) && uid < s.nextUid
      && (Alone(r) ==> TerminalOrGone(s))
      && (s.job.Some? ==> s.job.value.uid == uid || (s.job.value.uid >= r.base && r.foreign))
    case Applying(r) => JobToReplace(s, r)
    case DeletingAgain(r) => JobToReplace(s, r)
    case AwaitingAgain(_, _) => true
    case Creating(_) => true
    case Unannotating(r, uid) =>
      && r.force.Some?
      && WasMade(s.created, uid, InjectPackageFilter(r.force))
      && MadeNow(s.created, r, uid)
  }

  predicate JobToReplace(s: State, r: Round) {
    && (Clean(r) ==> NoOldJob(s, r))
    && (Clean(r) && !r.foreign ==> s.job.None?)
    && (Alone(r) && s.job.Some? ==> r.force.Some? && IsTerminal(s.job.value))
  }

  predicate DeletionOk(d: Deletion) {
    Alone(d.round) ==> d.terminal && d.round.force.Some?
  }

  predicate RemovalOk(created: seq<Made>, r: Removal) {
    && r.round.force.Some?
    && WasMade(created, r.uid, InjectPackageFilter(r.round.force))
    && MadeNow(created, r.round, r.uid)
    && (!r.round.rewritten ==> Some(r.value) == r.round.force)
  }

  predicate StoreOk(s: State) {
    && (s.job.Some? ==> s.job.value.uid < s.nextUid && WasMade(s.created, s.job.value.uid, s.job.value.filter))
    && (!s.op.Idle? ==>
          s.op.round.base <= s.nextUid && OldIsHad(s, s.op.round) && (!s.op.round.rewritten ==> s.annotation == s.op.round.force))
  }

  predicate LogsOk(s: State) {
    && (forall i :: 0 <= i < |s.deleted| ==> DeletionOk(s.deleted[i]))
    && (forall i :: 0 <= i < |s.removed| ==> RemovalOk(s.created, s.removed[i]))
  }

  predicate Inv(s: State) {
    StoreOk(s) && RoundOk(s) && LogsOk(s)
  }

  lemma {:induction false} MadeStays(created: seq<Made>, more: seq<Made>, uid: nat, filter: Option<string>)
    requires WasMade(created, uid, filter)
    ensures WasMade(created + more, uid, filter)
    ensures WasMadeByOperator(created, uid, filter) ==> WasMadeByOperator(created + more, uid, filter)
  {
    var i :| 0 <= i < |created| && created[i].uid == uid && created[i].filter == filter;
    assert (created + more)[i] == created[i];
    MadeByOperatorStays(created, more, uid, filter);
  }

  lemma {:induction false} MadeByOperatorStays(created: seq<Made>, more: seq<Made>, uid: nat, filter: Option<string>)
    ensures WasMadeByOperator(created, uid, filter) ==> WasMadeByOperator(created + more, uid, filter)
  {
    if WasMadeByOperator(created, uid, filter) {
      var i :| 0 <= i < |created| && created[i].uid == uid && created[i].filter == filter && created[i].byOperator;
      assert (created + more)[i] == created[i];
    }
  }

  lemma {:induction false} CreationKeeps(s: State, filter: Option<string>, byOperator: bool, asked: Option<string>)
    requires StoreOk(s) && LogsOk(s)
    ensures StoreOk(WithJob(s, filter, byOperator, asked).(op := Idle)) && LogsOk(WithJob(s, filter, byOperator, asked))
    ensures WasMade(WithJob(s, filter, byOperator, asked).created, s.nextUid, filter)
    ensures byOperator ==> WasMadeByOperator(WithJob(s, filter, byOperator, asked).created, s.nextUid, filter)
  {
    var t := WithJob(s, filter, byOperator, asked);
    assert t.created[|s.created|] == Made(s.nextUid, filter, byOperator, asked);
    forall i | 0 <= i < |s.removed| ensures RemovalOk(t.created, s.removed[i]) {
      var r := s.removed[i];
      MadeStays(s.created, [Made(s.nextUid, filter, byOperator, asked)], r.uid, InjectPackageFilter(r.round.force));
    }
  }

  lemma {:induction false} StepKeepsStore(s: State, a: Action)
    requires Inv(s) && Enabled(s, a)
    ensures StoreOk(Apply(s, a))
  {
    hide IsTerminal, WasMade, WasMadeByOperator, InjectPackageFilter, RoundOk, LogsOk;
    match a
    case ApplyJob(_) =>
      CreationKeeps(s, InjectPackageFilter(s.op.round.force), true, s.op.round.force);
    case CreateJob(_) =>
      CreationKeeps(s, InjectPackageFilter(s.op.round.force), true, s.op.round.force);
    case ForeignCreate(filter) =>
      CreationKeeps(s, filter, false, None);
    case _ =>
  }

  lemma {:induction false} StepKeepsLogs(s: State, a: Action)
    requires Inv(s) && Enabled(s, a)
    ensures LogsOk(Apply(s, a))
  {
    hide IsTerminal, WasMade, WasMadeByOperator, InjectPackageFilter;
    match a
    case ApplyJob(_) =>
      CreationKeeps(s, InjectPackageFilter(s.op.round.force), true, s.op.round.force);
    case CreateJob(_) =>
      CreationKeeps(s, InjectPackageFilter(s.op.round.force), true, s.op.round.force);
    case ForeignCreate(filter) =>
      CreationKeeps(s, filter, false, None);
    case _ =>
  }

  lemma {:induction false} StepKeepsRound(s: State, a: Action)
    requires Inv(s) && Enabled(s, a)
    ensures RoundOk(Apply(s, a))
  {
    hide IsTerminal, WasMade, WasMadeByOperator, InjectPackageFilter, LogsOk;
    match a
    case ApplyJob(_) =>
      CreationKeeps(s, InjectPackageFilter(s.op.round.force), true, s.op.round.force);
    case CreateJob(_) =>
      CreationKeeps(s, InjectPackageFilter(s.op.round.force), true, s.op.round.force);
    case ForeignCreate(filter) =>
      CreationKeeps(s, filter, false, None);
      if s.op.Unannotating? {
        MadeStays(s.created, [Made(s.nextUid, filter, false, None)], s.op.uid, InjectPackageFilter(s.op.round.force));
      }
    case Delete(_, _) =>
      if s.job.Some? {
        MarkedStaysTerminal(s.job.value);
      }
    case _ =>
  }

  lemma {:induction false} StepKeepsInv(s: State, a: Action)
    requires Inv(s) && Enabled(s, a)
    ensures Inv(Apply(s, a))
  {
    hide Apply, Enabled, StoreOk, LogsOk, RoundOk;
    StepKeepsStore(s, a);
    StepKeepsLogs(s, a);
    StepKeepsRound(s, a);
  }

  lemma {:induction false} MarkedStaysTerminal(j: Job)
    ensures IsTerminal(j.(deleting := true)) <==> IsTerminal(j)
  {
  }

  predicate Initial(s: State) {
    && s.op.Idle? && s.deleted == [] && s.removed == []
    && (s.job.Some? ==> s.job.value.uid < s.nextUid && WasMade(s.created, s.job.value.uid, s.job.value.filter))
  }

  lemma {:induction false} RunKeepsInv(s: State, run: seq<Action>)
    requires Inv(s) && CanRun(s, run)
    ensures Inv(Run(s, run))
    decreases |run|
  {
    if run == [] {
    } else {
      StepKeepsInv(s, run[0]);
      RunKeepsInv(Apply(s, run[0]), run[1..]);
    }
  }

  // ── The promises ──────────────────────────────────────────────────────────

  /** A force-scan annotation is removed only after a scan job carrying its filter was created; and what
      is removed is the value the reconcile started from unless somebody rewrote it meanwhile. */
  lemma {:induction false} RemovedOnlyAfterCreation(s: State, run: seq<Action>, i: nat)
    requires Initial(s) && CanRun(s, run) && i < |Run(s, run).removed|
    ensures var t := Run(s, run);
      var r := t.removed[i];
      && r.round.force.Some?
      && WasMade(t.created, r.uid, FilterFor(r.round.force))
      && (!r.round.rewritten ==> r.round.force == Some(r.value))
  {
    RunKeepsInv(s, run);
  }

  /** Every job the operator made since `n` scans for what its round was asked. */
  predicate MadeAsAsked(t: State, n: nat) {
    n <= |t.created| && forall i :: n <= i < |t.created| && t.created[i].byOperator ==>
      t.created[i].filter == FilterFor(t.created[i].asked)
  }

  lemma {:induction false} StepKeepsAsked(t: State, a: Action, n: nat)
    requires MadeAsAsked(t, n) && Enabled(t, a)
    ensures MadeAsAsked(Apply(t, a), n)
  {
    hide IsTerminal, InjectPackageFilter, FilterFor;
  }

  lemma {:induction false} RunKeepsAsked(t: State, run: seq<Action>, n: nat)
    requires MadeAsAsked(t, n) && CanRun(t, run)
    ensures MadeAsAsked(Run(t, run), n)
    decreases |run|
  {
    hide Enabled, Apply, MadeAsAsked;
    if run == [] {
    } else {
      StepKeepsAsked(t, run[0], n);
      RunKeepsAsked(Apply(t, run[0]), run[1..], n);
    }
  }

  /** In every run, a job the operator makes scans for the annotation its reconcile began with. */
  lemma {:induction false} OperatorScansAsAsked(s: State, run: seq<Action>, i: nat)
    requires CanRun(s, run) && |s.created| <= i < |Run(s, run).created| && Run(s, run).created[i].byOperator
    ensures var m := Run(s, run).created[i];
      m.filter == if m.asked in {None, Some(""), Some("true")} then None else m.asked
  {
    RunKeepsAsked(s, run, |s.created|);
  }

  /** That job is new in this very reconcile when the job read was answered and the delete of the old
      job was not refused; and unless somebody else created it meanwhile, the operator did. */
  lemma {:induction false} CleanRoundsScanAfresh(s: State, run: seq<Action>, i: nat)
    requires Initial(s) && CanRun(s, run) && i < |Run(s, run).removed|
    requires Clean(Run(s, run).removed[i].round)
    ensures var t := Run(s, run);
      var r := t.removed[i];
      && r.uid >= r.round.base
      && (!r.round.foreign ==> WasMadeByOperator(t.created, r.uid, FilterFor(r.round.force)))
  {
    RunKeepsInv(s, run);
  }

  /** A removal whose job is older than its reconcile: the request was lost. It takes a failed read or a
      refused delete, and a job that carried the asked filter from the start. */
  lemma {:induction false} LostOnlyOverTheSameFilter(s: State, run: seq<Action>, i: nat)
    requires Initial(s) && CanRun(s, run) && i < |Run(s, run).removed|
    requires Run(s, run).removed[i].uid < Run(s, run).removed[i].round.base
    ensures var r := Run(s, run).removed[i].round;
      !Clean(r) && r.had.Some? && r.had.value.filter == FilterFor(r.force)
  {
    RunKeepsInv(s, run);
  }

  /** Such a job, and a failed read or a refused delete of it once it is finished, do lose the request:
      applying the job changes nothing. */
  lemma {:induction false} RequestCanBeLost(s: State, readFails: bool) returns (run: seq<Action>)
    requires s.op.Idle? && s.annotation.Some? && s.job.Some?
    requires s.job.value.filter == InjectPackageFilter(s.annotation)
    requires readFails || (IsTerminal(s.job.value) && !s.job.value.deleting)
    ensures CanRun(s, run) && OneRound(run)
    ensures forall i :: 0 <= i < |run| ==> run[i] != Crash && !run[i].ForeignCreate? && !run[i].Annotate?
    ensures var t := Run(s, run);
      && t.op == Idle && t.annotation == None && t.job == s.job
      && t.created == s.created && t.nextUid == s.nextUid
      && |t.removed| == |s.removed| + 1 && t.removed[|s.removed|].uid == s.job.value.uid
      && t.removed[|s.removed|].round.base == s.nextUid
  {
    hide InjectPackageFilter, IsTerminal;
    if readFails {
      run := [Read(false), PatchCron(true), ApplyJob(true), Unannotate(true)];
    } else {
      run := [Read(true), PatchCron(true), Delete(false, false), ApplyJob(true), Unannotate(true)];
    }
    var s1 := Apply(s, Start);
    if readFails {
      Steps4(s1, run[0], run[1], run[2], run[3]);
    } else {
      var s2 := Apply(s1, run[0]);
      Steps4(s2, run[1], run[2], run[3], run[4]);
      assert run[1..] == [run[1], run[2], run[3], run[4]];
    }
    run := [Start] + run;
    assert run[1..][1..] == run[2..];
  }

  /** One reconcile: a start, and no other. */
  predicate OneRound(run: seq<Action>) {
    run != [] && run[0] == Start && forall i :: 0 < i < |run| ==> run[i] != Start
  }

  /** The round's removal finds only a job of before the round. */
  ghost predicate Loses(s: State, run: seq<Action>) {
    && CanRun(s, run) && OneRound(run)
    && |Run(s, run).removed| > |s.removed|
    && Run(s, run).removed[|s.removed|].uid < s.nextUid
  }

  /** The round of a state and the removals past `n` are those that began with `had`, `force` and `base`. */
  predicate Began(t: State, n: nat, had: Option<Job>, force: Option<string>, base: nat) {
    && n <= |t.removed|
    && (t.op.Idle? || (t.op.round.had == had && t.op.round.force == force && t.op.round.base == base))
    && forall i :: n <= i < |t.removed| ==>
         t.removed[i].round.had == had && t.removed[i].round.force == force && t.removed[i].round.base == base
  }

  lemma {:induction false} RoundStays(
    t: State, run: seq<Action>, n: nat, had: Option<Job>, force: Option<string>, base: nat)
    requires Began(t, n, had, force, base) && CanRun(t, run)
    requires forall i :: 0 <= i < |run| ==> run[i] != Start
    ensures Began(Run(t, run), n, had, force, base)
    decreases |run|
  {
    hide IsTerminal, InjectPackageFilter;
    if run == [] {
    } else {
      assert run[0] != Start;
      StepKeepsRoundMark(t, run[0], n, had, force, base);
      hide Apply, Enabled, Began;
      RoundStays(Apply(t, run[0]), run[1..], n, had, force, base);
    }
  }

  lemma {:induction false} StepKeepsRoundMark(
    t: State, a: Action, n: nat, had: Option<Job>, force: Option<string>, base: nat)
    requires Began(t, n, had, force, base) && Enabled(t, a) && a != Start
    ensures Began(Apply(t, a), n, had, force, base)
  {
    hide IsTerminal, InjectPackageFilter;
  }

  /** What a user can check before annotating: one reconcile can lose the request exactly when a job with
      the asked filter is there already. */
  lemma {:induction false} LossIffSameFilter(s: State)
    requires Initial(s) && s.annotation.Some?
    ensures (exists run :: Loses(s, run)) <==>
      s.job.Some? && s.job.value.filter == FilterFor(s.annotation)
  {
    if s.job.Some? && s.job.value.filter == InjectPackageFilter(s.annotation) {
      var run := RequestCanBeLost(s, true);
      assert Loses(s, run);
    }
    forall run | Loses(s, run) ensures s.job.Some? && s.job.value.filter == InjectPackageFilter(s.annotation) {
      var n := |s.removed|;
      RoundStays(Apply(s, Start), run[1..], n, s.job, s.annotation, s.nextUid);
      LostOnlyOverTheSameFilter(s, run, n);
    }
  }

  /** A force-scan over an absent or finished job whose calls are all answered leaves exactly one new
      job, with the filter, and no annotation. */
  lemma {:induction false} ForcedScanRuns(s: State) returns (run: seq<Action>)
    requires s.op.Idle? && s.annotation.Some?
    requires s.job.Some? ==> !s.job.value.deleting && IsTerminal(s.job.value)
    ensures CanRun(s, run)
    ensures var t := Run(s, run);
      && t.op == Idle && t.annotation == None
      && t.job == Some(Job(s.nextUid, FilterFor(s.annotation), false, []))
      && t.created == s.created + [Made(s.nextUid, FilterFor(s.annotation), true, s.annotation)]
  {
    hide InjectPackageFilter, IsTerminal;
    var s1 := Apply(s, Start);
    if s.job.Some? {
      run := [Read(true), PatchCron(true), Delete(true, true), ApplyJob(true), Unannotate(true)];
      var s2 := Apply(s1, run[0]);
      Steps4(s2, run[1], run[2], run[3], run[4]);
      assert run[1..] == [run[1], run[2], run[3], run[4]];
    } else {
      run := [Read(true), PatchCron(true), ApplyJob(true), Unannotate(true)];
      Steps4(s1, run[0], run[1], run[2], run[3]);
    }
    run := [Start] + run;
    assert run[1..][1..] == run[2..];
  }

  lemma {:induction false} Steps4(s: State, a: Action, b: Action, c: Action, d: Action)
    requires Enabled(s, a) && Enabled(Apply(s, a), b) && Enabled(Apply(Apply(s, a), b), c)
    requires Enabled(Apply(Apply(Apply(s, a), b), c), d)
    ensures CanRun(s, [a, b, c, d]) && Run(s, [a, b, c, d]) == Apply(Apply(Apply(Apply(s, a), b), c), d)
  {
    hide Enabled, Apply;
    assert [a, b, c, d][1..] == [b, c, d] && [b, c, d][1..] == [c, d] && [c, d][1..] == [d] && [d][1..] == [];
    var s3 := Apply(Apply(Apply(s, a), b), c);
    assert CanRun(s3, [d]) && Run(s3, [d]) == Apply(s3, d) by {
      assert CanRun(Apply(s3, d), []) && Run(Apply(s3, d), []) == Apply(s3, d);
    }
    assert CanRun(Apply(Apply(s, a), b), [c, d]) && Run(Apply(Apply(s, a), b), [c, d]) == Apply(s3, d);
    assert CanRun(Apply(s, a), [b, c, d]) && Run(Apply(s, a), [b, c, d]) == Apply(s3, d);
  }

  /** When the read was answered and nobody else creates the job, reconcile deletes only a terminal scan
      job, and only for a force-scan. */
  lemma {:induction false} OnlyTerminalJobsAreDeleted(s: State, run: seq<Action>, i: nat)
    requires Initial(s) && CanRun(s, run) && i < |Run(s, run).deleted|
    requires Alone(Run(s, run).deleted[i].round)
    ensures Run(s, run).deleted[i].terminal && Run(s, run).deleted[i].round.force.Some?
  {
    RunKeepsInv(s, run);
  }

  // ── The client beside the operator ────────────────────────────────────────

  function HistoryOf(s: State, run: seq<Action>): (h: History)
    requires CanRun(s, run)
    ensures |h| == |run| + 1 && h[0] == s.job
    decreases |run|
  {
    [s.job] + if run == [] then [] else HistoryOf(Apply(s, run[0]), run[1..])
  }

  lemma {:induction false} HistoryStep(s: State, run: seq<Action>, k: nat)
    requires CanRun(s, run) && 0 < k <= |run|
    ensures Enabled(s, run[0]) && CanRun(Apply(s, run[0]), run[1..])
    ensures HistoryOf(s, run)[k] == HistoryOf(Apply(s, run[0]), run[1..])[k - 1]
  {
    hide Enabled, Apply;
  }

  predicate UidsUsed(s: State) {
    s.job.Some? ==> s.job.value.uid < s.nextUid
  }

  /** Nobody reuses a uid in one step. */
  lemma {:induction false} StepIsFresh(s: State, a: Action)
    requires UidsUsed(s) && Enabled(s, a)
    ensures var t := Apply(s, a);
      && UidsUsed(t) && s.nextUid <= t.nextUid
      && (t.job.Some? ==> Shows(s.job, t.job.value.uid) || t.job.value.uid == s.nextUid)
  {
    hide IsTerminal, InjectPackageFilter;
  }

  lemma {:induction false} GoneStaysGone(s: State, run: seq<Action>, uid: nat, k: nat)
    requires UidsUsed(s) && CanRun(s, run) && uid < s.nextUid && !Shows(s.job, uid) && k <= |run|
    ensures !Shows(HistoryOf(s, run)[k], uid)
    decreases |run|
  {
    hide Enabled, Apply, HistoryOf, CanRun;
    if k > 0 {
      HistoryStep(s, run, k);
      StepIsFresh(s, run[0]);
      GoneStaysGone(Apply(s, run[0]), run[1..], uid, k - 1);
    }
  }

  lemma {:induction false} ShownThroughout(s: State, run: seq<Action>, uid: nat, j: nat, k: nat)
    requires UidsUsed(s) && CanRun(s, run) && uid < s.nextUid && j <= k <= |run|
    requires Shows(HistoryOf(s, run)[k], uid)
    ensures Shows(HistoryOf(s, run)[j], uid)
    decreases |run|
  {
    hide Enabled, Apply, HistoryOf, CanRun;
    if !Shows(s.job, uid) {
      GoneStaysGone(s, run, uid, k);
    } else if j > 0 {
      HistoryStep(s, run, j);
      HistoryStep(s, run, k);
      StepIsFresh(s, run[0]);
      ShownThroughout(Apply(s, run[0]), run[1..], uid, j - 1, k - 1);
    }
  }

  lemma {:induction false} ShownBetween(s: State, run: seq<Action>, uid: nat, i: nat, j: nat, k: nat)
    requires UidsUsed(s) && CanRun(s, run) && i < j < k <= |run|
    requires Shows(HistoryOf(s, run)[i], uid) && Shows(HistoryOf(s, run)[k], uid)
    ensures Shows(HistoryOf(s, run)[j], uid)
    decreases |run|
  {
    hide Enabled, Apply, HistoryOf, CanRun;
    HistoryStep(s, run, j);
    HistoryStep(s, run, k);
    StepIsFresh(s, run[0]);
    if i == 0 {
      ShownThroughout(Apply(s, run[0]), run[1..], uid, j - 1, k - 1);
    } else {
      HistoryStep(s, run, i);
      ShownBetween(Apply(s, run[0]), run[1..], uid, i - 1, j - 1, k - 1);
    }
  }

  /** Every interleaving of operator, job controller and anybody else is a history the client's contract
      speaks about. */
  lemma {:induction false} RunsNeverReuse(s: State, run: seq<Action>)
    requires UidsUsed(s) && CanRun(s, run)
    ensures NeverReused(HistoryOf(s, run))
  {
    hide Enabled, Apply, HistoryOf, CanRun, Shows;
    var h := HistoryOf(s, run);
    forall uid, i, j, k | 0 <= i < j < k < |h| && Shows(h[i], uid) && Shows(h[k], uid) ensures Shows(h[j], uid) {
      ShownBetween(s, run, uid, i, j, k);
    }
  }

  // ── Whose scan the client sees ────────────────────────────────────────────

  /** Nobody else annotates the jukebox or creates the job. */
  predicate Undisturbed(run: seq<Action>) {
    forall i :: 0 <= i < |run| ==> !run[i].Annotate? && !run[i].ForeignCreate?
  }

  /** The first job created after `base` carries the client's filter. */
  predicate FirstMatches(t: State, base: nat, value: string) {
    Shows(t.job, base) ==> t.job.value.filter == InjectPackageFilter(Some(value))
  }

  /** A reconcile in flight that asks for the same scan, can create no job any more, or has only the annotation
      of a full scan to remove. */
  predicate InFlightAgrees(job: Option<Job>, op: Pc, value: string) {
    var filter := InjectPackageFilter(Some(value));
    match op
    case Idle => true
    case Unannotating(_, _) => filter == None
    case Cron(r, terminal) => (terminal && r.force.None?) || InjectPackageFilter(r.force) == filter
    case DeletingAgain(r) => job.None? || InjectPackageFilter(r.force) == filter
    case _ => InjectPackageFilter(op.round.force) == filter
  }

  /** No partial scan of the same filter is there that the request could be lost on. */
  predicate NotAskedBefore(job: Option<Job>, value: string) {
    var filter := InjectPackageFilter(Some(value));
    filter.Some? && job.Some? ==> job.value.filter != filter
  }

  /** Before the first new job the request stands, and whoever creates that job asks for its filter. */
  predicate Pending(t: State, base: nat, value: string) {
    var filter := InjectPackageFilter(Some(value));
    && t.nextUid >= base
    && FirstMatches(t, base, value)
    && (t.nextUid == base ==>
          && (t.job.Some? ==> t.job.value.uid < base)
          && NotAskedBefore(t.job, value)
          && InFlightAgrees(t.job, t.op, value)
          && (filter.Some? ==> t.annotation == Some(value))
          && (filter.None? ==> InjectPackageFilter(t.annotation) == None))
  }

  lemma {:induction false} StepKeepsPending(t: State, a: Action, base: nat, value: string)
    requires Pending(t, base, value) && Enabled(t, a) && !a.Annotate? && !a.ForeignCreate?
    ensures Pending(Apply(t, a), base, value)
  {
    hide IsTerminal;
  }

  lemma {:induction false} RunKeepsPending(t: State, run: seq<Action>, base: nat, value: string)
    requires Pending(t, base, value) && CanRun(t, run) && Undisturbed(run)
    ensures Pending(Run(t, run), base, value)
    decreases |run|
  {
    hide Pending, Enabled, Apply;
    if run == [] {
    } else {
      StepKeepsPending(t, run[0], base, value);
      RunKeepsPending(Apply(t, run[0]), run[1..], base, value);
    }
  }

  /** A client that annotates while reconciles in flight agree, and over no job of the same partial filter,
      gets its own scan: the first job with a new uid carries its filter, in every undisturbed run. */
  lemma {:induction false} FirstNewJobIsTheClients(s: State, run: seq<Action>, value: string)
    requires UidsUsed(s) && s.annotation == Some(value)
    requires InFlightAgrees(s.job, s.op, value) && NotAskedBefore(s.job, value)
    requires CanRun(s, run) && Undisturbed(run)
    ensures FirstMatches(Run(s, run), s.nextUid, value)
  {
    RunKeepsPending(s, run, s.nextUid, value);
  }

  lemma {:induction false} RunAppend(s: State, a: seq<Action>, b: seq<Action>)
    requires CanRun(s, a) && CanRun(Run(s, a), b)
    ensures CanRun(s, a + b) && Run(s, a + b) == Run(Run(s, a), b)
    decreases |a|
  {
    hide Enabled, Apply;
    if a == [] {
      assert a + b == b;
    } else {
      assert (a + b)[1..] == a[1..] + b;
      RunAppend(Apply(s, a[0]), a[1..], b);
    }
  }

  /** A lost partial request, a vanished job, and a reconcile without annotation: the client's new job is a
      full scan. */
  lemma {:induction false} LostRequestIsMistaken(s: State, value: string) returns (run: seq<Action>)
    requires UidsUsed(s) && s.op.Idle? && s.annotation == Some(value) && !NotAskedBefore(s.job, value)
    ensures CanRun(s, run) && Undisturbed(run) && !FirstMatches(Run(s, run), s.nextUid, value)
  {
    var lose := RequestCanBeLost(s, true);
    var t := Run(s, lose);
    var t1 := Apply(t, ForeignDelete);
    var rescan := [Start, Read(true), PatchCron(true), ApplyJob(true)];
    Steps4(t1, Start, Read(true), PatchCron(true), ApplyJob(true));
    var more := [ForeignDelete] + rescan;
    assert more[1..] == rescan;
    RunAppend(s, lose, more);
    run := lose + more;
    assert Run(t, more).job == Some(Job(s.nextUid, None, false, []));
  }

  /** An undisturbed run whose first new job is not the client's. */
  ghost predicate Mistakes(s: State, run: seq<Action>, value: string) {
    CanRun(s, run) && Undisturbed(run) && !FirstMatches(Run(s, run), s.nextUid, value)
  }

  lemma {:induction false} MistakesLater(s: State, a: Action, run: seq<Action>, value: string)
    requires Enabled(s, a) && !a.Annotate? && !a.ForeignCreate?
    requires Apply(s, a).nextUid == s.nextUid && Mistakes(Apply(s, a), run, value)
    ensures Mistakes(s, [a] + run, value)
  {
    hide Enabled, Apply, FirstMatches;
    var all := [a] + run;
    assert all[0] == a && all[1..] == run;
    assert forall i :: 0 < i < |all| ==> all[i] == run[i - 1];
  }

  /** The job is out of the way. */
  lemma {:induction false} MistakesWithoutJob(s: State, run: seq<Action>, value: string)
    requires s.job.Some? && Mistakes(s.(job := None), run, value)
    ensures Mistakes(s, [ForeignDelete] + run, value)
  {
    hide Mistakes;
    MistakesLater(s, ForeignDelete, run, value);
  }

  lemma {:induction false} CreatesTheWrongJob(s: State, a: Action, value: string)
    requires (s.op.Applying? && a == ApplyJob(true)) || (s.op.Creating? && a == CreateJob(true))
    requires s.job.None? && InjectPackageFilter(s.op.round.force) != InjectPackageFilter(Some(value))
    ensures Mistakes(s, [a], value)
  {
    hide InjectPackageFilter;
    var run := [a];
    assert Enabled(s, run[0]) && run[1..] == [];
    assert CanRun(Apply(s, run[0]), []);
    assert Run(s, run) == Run(Apply(s, run[0]), []);
  }

  /** From the last positions before a creation. */
  lemma {:induction false} CreatorIsMistaken(s: State, value: string) returns (run: seq<Action>)
    requires s.op.Applying? || s.op.Creating?
    requires InjectPackageFilter(s.op.round.force) != InjectPackageFilter(Some(value))
    ensures Mistakes(s, run, value)
  {
    hide InjectPackageFilter, Mistakes;
    var a := if s.op.Applying? then ApplyJob(true) else CreateJob(true);
    run := [a];
    if s.job.Some? {
      CreatesTheWrongJob(s.(job := None), a, value);
      MistakesWithoutJob(s, run, value);
      run := [ForeignDelete] + run;
    } else {
      CreatesTheWrongJob(s, a, value);
    }
  }

  lemma {:induction false} WaiterIsMistaken(s: State, value: string) returns (run: seq<Action>)
    requires s.op.AwaitingFirst? || s.op.AwaitingAgain?
    requires InjectPackageFilter(s.op.round.force) != InjectPackageFilter(Some(value))
    ensures Mistakes(s, run, value)
  {
    hide InjectPackageFilter, Mistakes;
    var t := s.(job := None);
    run := CreatorIsMistaken(Apply(t, Await(true)), value);
    MistakesLater(t, Await(true), run, value);
    run := [Await(true)] + run;
    if s.job.Some? {
      MistakesWithoutJob(s, run, value);
      run := [ForeignDelete] + run;
    }
  }

  lemma {:induction false} DeleterIsMistaken(s: State, value: string) returns (run: seq<Action>)
    requires s.op.DeletingFirst? || (s.op.DeletingAgain? && s.job.Some?)
    requires InjectPackageFilter(s.op.round.force) != InjectPackageFilter(Some(value))
    ensures Mistakes(s, run, value)
  {
    hide InjectPackageFilter, Mistakes;
    var a := Delete(s.op.DeletingAgain?, true);
    run := CreatorIsMistaken(Apply(s, a), value);
    MistakesLater(s, a, run, value);
    run := [a] + run;
  }

  lemma {:induction false} CronIsMistaken(s: State, value: string) returns (run: seq<Action>)
    requires s.op.Cron? && !(s.op.terminal && s.op.round.force.None?)
    requires InjectPackageFilter(s.op.round.force) != InjectPackageFilter(Some(value))
    ensures Mistakes(s, run, value)
  {
    hide InjectPackageFilter, Mistakes;
    var t := Apply(s, PatchCron(true));
    if t.op.DeletingFirst? {
      run := DeleterIsMistaken(t, value);
    } else {
      run := CreatorIsMistaken(t, value);
    }
    MistakesLater(s, PatchCron(true), run, value);
    run := [PatchCron(true)] + run;
  }

  lemma {:induction false} ReaderIsMistaken(s: State, value: string) returns (run: seq<Action>)
    requires s.op.Reading?
    requires InjectPackageFilter(s.op.round.force) != InjectPackageFilter(Some(value))
    ensures Mistakes(s, run, value)
  {
    hide InjectPackageFilter, Mistakes;
    run := CronIsMistaken(Apply(s, Read(false)), value);
    MistakesLater(s, Read(false), run, value);
    run := [Read(false)] + run;
  }

  /** It removes the client's annotation as its own, and the next job is a full scan. */
  lemma {:induction false} RemoverIsMistaken(s: State, value: string) returns (run: seq<Action>)
    requires s.op.Unannotating? && s.annotation == Some(value) && InjectPackageFilter(Some(value)).Some?
    ensures Mistakes(s, run, value)
  {
    hide InjectPackageFilter, Mistakes;
    var t := Apply(s, Unannotate(true));
    var u := Apply(t, Start);
    NoFilterWithoutAnnotation();
    run := ReaderIsMistaken(u, value);
    MistakesLater(t, Start, run, value);
    MistakesLater(s, Unannotate(true), [Start] + run, value);
    run := [Unannotate(true)] + ([Start] + run);
  }

  lemma {:induction false} NoFilterWithoutAnnotation()
    ensures InjectPackageFilter(None) == None
  {
  }

  lemma {:induction false} RepeaterIsMistaken(s: State, value: string) returns (run: seq<Action>)
    requires UidsUsed(s) && s.annotation == Some(value) && !NotAskedBefore(s.job, value)
    ensures Mistakes(s, run, value)
  {
    hide InjectPackageFilter, Mistakes;
    var t := s.(op := Idle);
    run := LostRequestIsMistaken(t, value);
    LostRequestMistakes(t, run, value);
    if !s.op.Idle? {
      MistakesLater(s, Crash, run, value);
      run := [Crash] + run;
    }
  }

  lemma {:induction false} LostRequestMistakes(s: State, run: seq<Action>, value: string)
    requires CanRun(s, run) && Undisturbed(run) && !FirstMatches(Run(s, run), s.nextUid, value)
    ensures Mistakes(s, run, value)
  {
  }

  lemma {:induction false} SomeoneIsMistaken(s: State, value: string) returns (run: seq<Action>)
    requires UidsUsed(s) && s.annotation == Some(value)
    requires !InFlightAgrees(s.job, s.op, value) || !NotAskedBefore(s.job, value)
    ensures Mistakes(s, run, value)
  {
    hide Mistakes, InjectPackageFilter, NotAskedBefore;
    if !NotAskedBefore(s.job, value) {
      run := RepeaterIsMistaken(s, value);
    } else {
      match s.op
      case Reading(_) => run := ReaderIsMistaken(s, value);
      case Cron(_, _) => run := CronIsMistaken(s, value);
      case DeletingFirst(_) => run := DeleterIsMistaken(s, value);
      case DeletingAgain(_) => run := DeleterIsMistaken(s, value);
      case AwaitingFirst(_, _) => run := WaiterIsMistaken(s, value);
      case AwaitingAgain(_, _) => run := WaiterIsMistaken(s, value);
      case Applying(_) => run := CreatorIsMistaken(s, value);
      case Creating(_) => run := CreatorIsMistaken(s, value);
      case Unannotating(_, _) => run := RemoverIsMistaken(s, value);
    }
  }

  /** Wherever the operator is when the client annotates: the first new job of every undisturbed run is the
      client's scan if and only if the reconcile in flight agrees and no job of the same partial filter is there. */
  lemma {:induction false} ClientSeesItsScanIff(s: State, value: string)
    requires UidsUsed(s) && s.annotation == Some(value)
    ensures (forall run | CanRun(s, run) && Undisturbed(run) :: FirstMatches(Run(s, run), s.nextUid, value)) <==>
      InFlightAgrees(s.job, s.op, value) && NotAskedBefore(s.job, value)
  {
    hide FirstMatches, NotAskedBefore, InFlightAgrees, CanRun, Run, Undisturbed;
    if InFlightAgrees(s.job, s.op, value) && NotAskedBefore(s.job, value) {
      forall run | CanRun(s, run) && Undisturbed(run) ensures FirstMatches(Run(s, run), s.nextUid, value) {
        FirstNewJobIsTheClients(s, run, value);
      }
    } else {
      var run := SomeoneIsMistaken(s, value);
    }
  }

  // ── The client's verdict ──────────────────────────────────────────────────

  lemma {:induction false} HistoryEnds(s: State, run: seq<Action>)
    requires CanRun(s, run)
    ensures HistoryOf(s, run)[|run|] == Run(s, run).job
    decreases |run|
  {
    hide Enabled, Apply;
    if run == [] {
    } else {
      HistoryEnds(Apply(s, run[0]), run[1..]);
    }
  }

  lemma {:induction false} RunKeepsUids(s: State, run: seq<Action>)
    requires UidsUsed(s) && CanRun(s, run)
    ensures UidsUsed(Run(s, run)) && s.nextUid <= Run(s, run).nextUid
    decreases |run|
  {
    hide Enabled, Apply, UidsUsed;
    if run == [] {
    } else {
      StepIsFresh(s, run[0]);
      RunKeepsUids(Apply(s, run[0]), run[1..]);
    }
  }

  /** The client reads the old uid in `s`, annotates after `before`, and takes a verdict after `later`: from a
      job it did not see at the read, by the contract of its polls. If nobody created a job before the
      annotation, one job was created since, and the reconcile in flight agreed, the verdict is that of a job
      with the client's filter. */
  lemma {:induction false} VerdictIsOfTheClientsScan(
    s: State, before: seq<Action>, value: string, later: seq<Action>)
    requires UidsUsed(s) && CanRun(s, before)
    requires var t := Run(s, before);
      var u := Apply(t, Annotate(Some(value)));
      && CanRun(u, later) && Undisturbed(later)
      && InFlightAgrees(u.job, u.op, value) && NotAskedBefore(u.job, value)
      && t.nextUid == s.nextUid && Run(u, later).nextUid <= s.nextUid + 1
    ensures var run := before + [Annotate(Some(value))] + later;
      CanRun(s, run) && var h := HistoryOf(s, run);
      h[|run|].Some? && !Shows(h[0], h[|run|].value.uid) ==>
        h[|run|].value.filter == FilterFor(Some(value))
  {
    hide Enabled, InFlightAgrees, NotAskedBefore, InjectPackageFilter, Undisturbed, HistoryOf;
    var t, a := Run(s, before), Annotate(Some(value));
    AnnotateIsEnabled(t, a);
    var u, rest := Apply(t, a), [a] + later;
    assert rest[0] == a && rest[1..] == later;
    assert CanRun(t, rest) && Run(t, rest) == Run(u, later);
    RunAppend(s, before, rest);
    var run := before + [a] + later;
    assert run == before + rest;
    HistoryEnds(s, run);
    RunKeepsUids(s, before);
    RunKeepsUids(u, later);
    FirstNewJobIsTheClients(u, later, value);
    var job := Run(u, later).job;
    if job.Some? && !Shows(s.job, job.value.uid) && job.value.uid < s.nextUid {
      GoneStaysGone(s, run, job.value.uid, |run|);
    }
  }

  lemma {:induction false} AnnotateIsEnabled(s: State, a: Action)
    requires a.Annotate?
    ensures Enabled(s, a)
  {
  }

  /** A request written between the creation and the removal of another one is removed with it, unscanned. */
  lemma {:induction false} RewrittenRequestIsDropped(s: State, value: string)
    requires s.op.Unannotating?
    ensures var run := [Annotate(Some(value)), Unannotate(true)];
      && CanRun(s, run)
      && var t := Run(s, run);
         t.annotation == None && t.job == s.job && t.created == s.created && t.op == Idle
  {
    var run := [Annotate(Some(value)), Unannotate(true)];
    var s1 := Apply(s, run[0]);
    var s2 := Apply(s1, run[1]);
    var tail := [Unannotate(true)];
    assert run[1..] == tail && tail[1..] == [];
    assert CanRun(s2, []) && Run(s2, []) == s2;
    assert CanRun(s1, tail) && Run(s1, tail) == Run(s2, []);
  }
}
