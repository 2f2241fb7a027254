/**
  One reconcile of the jukebox that nobody interferes with: driven by the replies of the API server, the steps
  of the protocol end exactly where a reading of the code from top to bottom ends.
*/
module ScanRound {
  import opened Strings
  import opened JobClient
  import opened ScanProtocol

  /** Whether each call succeeds. An accepted delete takes the job away at once or marks it; a marked job goes
      within the wait or does not, and its going is noticed or not. */
  datatype Replies = Replies(
    read: bool, cron: bool, delete: bool, atOnce: bool, goes: bool, noticed: bool,
    apply: bool, deleteAgain: bool, atOnceAgain: bool, goesAgain: bool, noticedAgain: bool,
    create: bool, unannotate: bool)

  /** The jukebox's job and its annotation. */
  datatype Scanned = Scanned(job: Option<Job>, annotation: Option<string>)

  // ── From top to bottom ────────────────────────────────────────────────────

  function NewJob(asked: Option<string>, uid: nat): Option<Job> {
    Some(Job(uid, FilterFor(asked), false, []))
  }

  /** The job is there; the annotation goes, if the server takes it out. */
  function Served(job: Option<Job>, asked: Option<string>, c: Replies): Scanned {
    Scanned(job, if c.unannotate then None else asked)
  }

  function Marked(job: Option<Job>): Option<Job>
    requires job.Some?
  {
    Some(job.value.(deleting := true))
  }

  /** The apply was refused: delete, wait, create. */
  function Replaced(job: Option<Job>, asked: Option<string>, uid: nat, c: Replies): Scanned {
    if job.None? || !c.deleteAgain then Scanned(job, asked)
    else if !c.atOnceAgain && !c.goesAgain then Scanned(Marked(job), asked)
    else if !c.atOnceAgain && !c.noticedAgain then Scanned(None, asked)
    else if !c.create then Scanned(None, asked)
    else Served(NewJob(asked, uid), asked, c)
  }

  function Applied(job: Option<Job>, asked: Option<string>, uid: nat, c: Replies): Scanned {
    if c.apply && job.None? then Served(NewJob(asked, uid), asked, c)
    else if c.apply && job.value.filter == FilterFor(asked) then Served(job, asked, c)
    else Replaced(job, asked, uid, c)
  }

  /** The whole reconcile. */
  function ScanOnce(job: Option<Job>, asked: Option<string>, uid: nat, c: Replies): Scanned {
    var seen := c.read && job.Some?;
    if seen && (job.value.deleting || !IsTerminal(job.value)) then Scanned(job, asked)
    else if !c.cron then Scanned(job, asked)
    else if seen && asked.None? then Scanned(job, asked)
    else if seen && c.delete && !c.atOnce && !c.goes then Scanned(Marked(job), asked)
    else if seen && c.delete && !c.atOnce && !c.noticed then Scanned(None, asked)
    else if seen && c.delete then Applied(None, asked, uid, c)
    else Applied(job, asked, uid, c)
  }

  // ── Step by step ──────────────────────────────────────────────────────────

  /** The job that is waited for is gone. */
  predicate IsGone(t: State) {
    (t.op.AwaitingFirst? || t.op.AwaitingAgain?) && Gone(t, t.op.uid)
  }

  /** The server can do what the operator asks for. */
  predicate Can(t: State) {
    match t.op
    case Applying(r) => t.job.Some? ==> t.job.value.filter == InjectPackageFilter(r.force)
    case Creating(_) => t.job.None?
    case Unannotating(_, _) => t.annotation.Some?
    case _ => true
  }

  /** The call in hand with its reply, or a marked job that goes. */
  function NextOf(op: Pc, gone: bool, can: bool, c: Replies): Action
    requires !op.Idle?
  {
    match op
    case Reading(_) => Read(c.read)
    case Cron(_, _) => PatchCron(c.cron)
    case DeletingFirst(_) => Delete(c.delete, c.atOnce)
    case AwaitingFirst(_, _) => if gone then Await(c.noticed) else if c.goes then Vanish else Await(false)
    case Applying(_) => ApplyJob(c.apply && can)
    case DeletingAgain(_) => Delete(c.deleteAgain, c.atOnceAgain)
    case AwaitingAgain(_, _) => if gone then Await(c.noticedAgain) else if c.goesAgain then Vanish else Await(false)
    case Creating(_) => CreateJob(c.create && can)
    case Unannotating(_, _) => Unannotate(c.unannotate && can)
  }

  function Next(t: State, c: Replies): Action
    requires !t.op.Idle?
  {
    NextOf(t.op, IsGone(t), Can(t), c)
  }

  function RankOf(op: Pc, gone: bool): nat {
    match op
    case Idle => 0
    case Unannotating(_, _) => 1
    case Creating(_) => 2
    case AwaitingAgain(_, _) => if gone then 3 else 4
    case DeletingAgain(_) => 5
    case Applying(_) => 6
    case AwaitingFirst(_, _) => if gone then 7 else 8
    case DeletingFirst(_) => 9
    case Cron(_, _) => 10
    case Reading(_) => 11
  }

  function Rank(t: State): nat {
    RankOf(t.op, IsGone(t))
  }

  /** A job that is waited for was marked. */
  predicate Quiet(t: State) {
    (t.op.AwaitingFirst? || t.op.AwaitingAgain?) && !Gone(t, t.op.uid) ==> t.job.value.deleting
  }

  lemma {:induction false} NextStep(t: State, c: Replies)
    requires Quiet(t) && !t.op.Idle?
    ensures Enabled(t, Next(t, c))
    ensures Quiet(Apply(t, Next(t, c))) && Rank(Apply(t, Next(t, c))) < Rank(t)
  {
    hide Apply;
    if t.op.Reading? || t.op.Cron? {
      EarlyStep(t, c);
    } else if t.op.DeletingFirst? || t.op.AwaitingFirst? {
      FirstDeleteStep(t, c);
    } else if t.op.DeletingAgain? || t.op.AwaitingAgain? {
      SecondDeleteStep(t, c);
    } else {
      LateStep(t, c);
    }
  }

  lemma {:induction false} EarlyStep(t: State, c: Replies)
    requires t.op.Reading? || t.op.Cron?
    ensures Enabled(t, Next(t, c))
    ensures Quiet(Apply(t, Next(t, c))) && Rank(Apply(t, Next(t, c))) < Rank(t)
  {
    hide IsTerminal;
  }

  lemma {:induction false} FirstDeleteStep(t: State, c: Replies)
    requires Quiet(t) && (t.op.DeletingFirst? || t.op.AwaitingFirst?)
    ensures Enabled(t, Next(t, c))
    ensures Quiet(Apply(t, Next(t, c))) && Rank(Apply(t, Next(t, c))) < Rank(t)
  {
    hide IsTerminal;
  }

  lemma {:induction false} SecondDeleteStep(t: State, c: Replies)
    requires Quiet(t) && (t.op.DeletingAgain? || t.op.AwaitingAgain?)
    ensures Enabled(t, Next(t, c))
    ensures Quiet(Apply(t, Next(t, c))) && Rank(Apply(t, Next(t, c))) < Rank(t)
  {
    hide IsTerminal;
  }

  lemma {:induction false} LateStep(t: State, c: Replies)
    requires t.op.Applying? || t.op.Creating? || t.op.Unannotating?
    ensures Enabled(t, Next(t, c))
    ensures Quiet(Apply(t, Next(t, c))) && Rank(Apply(t, Next(t, c))) < Rank(t)
  {
    hide IsTerminal, InjectPackageFilter;
  }

  /** The steps up to the end of the reconcile. */
  function Finish(t: State, c: Replies): (r: State)
    requires Quiet(t)
    ensures r.op.Idle?
    decreases Rank(t)
  {
    if t.op.Idle? then t
    else
      NextStep(t, c);
      Finish(Apply(t, Next(t, c)), c)
  }

  /** It is a run of the protocol in which only the operator acts, and the job it deleted goes. */
  lemma {:induction false} FinishIsARun(t: State, c: Replies) returns (run: seq<Action>)
    requires Quiet(t)
    ensures CanRun(t, run) && Run(t, run) == Finish(t, c)
    ensures forall i :: 0 <= i < |run| ==>
      run[i].Read? || run[i].PatchCron? || run[i].Delete? || run[i].Await? || run[i].ApplyJob? || run[i].CreateJob?
      || run[i].Unannotate? || run[i].Vanish?
    decreases Rank(t)
  {
    hide Enabled, Apply, Rank, Quiet;
    if t.op.Idle? {
      run := [];
    } else {
      NextStep(t, c);
      var rest := FinishIsARun(Apply(t, Next(t, c)), c);
      run := [Next(t, c)] + rest;
      assert run[1..] == rest;
    }
  }

  function Result(t: State): Scanned {
    Scanned(t.job, t.annotation)
  }

  /** The annotation is the one the reconcile began with, and no uid was used since. */
  predicate Asked(t: State, asked: Option<string>, uid: nat) {
    !t.op.Idle? && t.op.round.force == asked && t.annotation == asked && t.nextUid == uid && Quiet(t)
  }

  lemma {:induction false} FromUnannotating(t: State, c: Replies)
    requires t.op.Unannotating? && t.annotation.Some?
    ensures Result(Finish(t, c)) == Served(t.job, t.annotation, c)
  {
    assert Finish(t, c) == Finish(Apply(t, Next(t, c)), c);
  }

  lemma {:induction false} FromCreating(t: State, asked: Option<string>, uid: nat, c: Replies)
    requires t.op.Creating? && Asked(t, asked, uid) && t.job.None?
    ensures Result(Finish(t, c)) ==
      if c.create then Served(NewJob(asked, uid), asked, c) else Scanned(None, asked)
  {
    hide InjectPackageFilter, FilterFor;
    var next := Apply(t, Next(t, c));
    assert Finish(t, c) == Finish(next, c);
    if next.op.Unannotating? {
      FromUnannotating(next, c);
    }
  }

  lemma {:induction false} FromAwaitingAgain(t: State, asked: Option<string>, uid: nat, c: Replies)
    requires t.op.AwaitingAgain? && Asked(t, asked, uid) && t.job.Some? && t.job.value.uid == t.op.uid
    ensures Result(Finish(t, c)) ==
      if !c.goesAgain then Scanned(t.job, asked)
      else if !c.noticedAgain then Scanned(None, asked)
      else if c.create then Served(NewJob(asked, uid), asked, c) else Scanned(None, asked)
  {
    hide InjectPackageFilter, FilterFor, IsTerminal;
    var next := Apply(t, Next(t, c));
    NextStep(t, c);
    assert Finish(t, c) == Finish(next, c);
    if c.goesAgain {
      var then_ := Apply(next, Next(next, c));
      assert Finish(next, c) == Finish(then_, c);
      if c.noticedAgain {
        FromCreating(then_, asked, uid, c);
      }
    }
  }

  lemma {:induction false} FromDeletingAgain(t: State, asked: Option<string>, uid: nat, c: Replies)
    requires t.op.DeletingAgain? && Asked(t, asked, uid)
    ensures Result(Finish(t, c)) == Replaced(t.job, asked, uid, c)
  {
    hide InjectPackageFilter, FilterFor, IsTerminal;
    var next := Apply(t, Next(t, c));
    assert Finish(t, c) == Finish(next, c);
    if next.op.Creating? {
      FromCreating(next, asked, uid, c);
    } else if next.op.AwaitingAgain? {
      FromAwaitingAgain(next, asked, uid, c);
    }
  }

  lemma {:induction false} FromApplying(t: State, asked: Option<string>, uid: nat, c: Replies)
    requires t.op.Applying? && Asked(t, asked, uid)
    ensures Result(Finish(t, c)) == Applied(t.job, asked, uid, c)
  {
    hide InjectPackageFilter, FilterFor, IsTerminal;
    var next := Apply(t, Next(t, c));
    assert Finish(t, c) == Finish(next, c);
    if next.op.DeletingAgain? {
      FromDeletingAgain(next, asked, uid, c);
    } else if next.op.Unannotating? {
      FromUnannotating(next, c);
    }
  }

  lemma {:induction false} FromAwaitingFirst(t: State, asked: Option<string>, uid: nat, c: Replies)
    requires t.op.AwaitingFirst? && Asked(t, asked, uid) && t.job.Some? && t.job.value.uid == t.op.uid
    ensures Result(Finish(t, c)) ==
      if !c.goes then Scanned(t.job, asked)
      else if !c.noticed then Scanned(None, asked)
      else Applied(None, asked, uid, c)
  {
    hide InjectPackageFilter, FilterFor, IsTerminal;
    var next := Apply(t, Next(t, c));
    NextStep(t, c);
    assert Finish(t, c) == Finish(next, c);
    if c.goes {
      var then_ := Apply(next, Next(next, c));
      assert Finish(next, c) == Finish(then_, c);
      if c.noticed {
        FromApplying(then_, asked, uid, c);
      }
    }
  }

  lemma {:induction false} FromDeletingFirst(t: State, asked: Option<string>, uid: nat, c: Replies)
    requires t.op.DeletingFirst? && Asked(t, asked, uid) && t.job.Some?
    ensures Result(Finish(t, c)) ==
      if !c.delete then Applied(t.job, asked, uid, c)
      else if c.atOnce || (c.goes && c.noticed) then Applied(None, asked, uid, c)
      else Scanned(if c.goes then None else Marked(t.job), asked)
  {
    hide InjectPackageFilter, FilterFor, IsTerminal, Applied;
    var next := Apply(t, Next(t, c));
    assert Finish(t, c) == Finish(next, c);
    if next.op.AwaitingFirst? {
      FromAwaitingFirst(next, asked, uid, c);
    } else {
      FromApplying(next, asked, uid, c);
    }
  }

  lemma {:induction false} FromCron(t: State, asked: Option<string>, uid: nat, c: Replies)
    requires t.op.Cron? && Asked(t, asked, uid) && (t.op.terminal ==> t.job.Some?)
    ensures Result(Finish(t, c)) ==
      if !c.cron || (t.op.terminal && asked.None?) then Scanned(t.job, asked)
      else if t.op.terminal && c.delete && !c.atOnce && !c.goes then Scanned(Marked(t.job), asked)
      else if t.op.terminal && c.delete && !c.atOnce && !c.noticed then Scanned(None, asked)
      else if t.op.terminal && c.delete then Applied(None, asked, uid, c)
      else Applied(t.job, asked, uid, c)
  {
    hide InjectPackageFilter, FilterFor, IsTerminal, Applied;
    var next := Apply(t, Next(t, c));
    assert Finish(t, c) == Finish(next, c);
    if next.op.DeletingFirst? {
      FromDeletingFirst(next, asked, uid, c);
    } else if next.op.Applying? {
      FromApplying(next, asked, uid, c);
    }
  }

  /** The steps of one reconcile end where the code read from top to bottom ends, for all replies. */
  lemma {:induction false} RoundIsSequential(s: State, c: Replies)
    requires s.op.Idle?
    ensures Enabled(s, Start) && Quiet(Apply(s, Start))
    ensures Result(Finish(Apply(s, Start), c)) == ScanOnce(s.job, s.annotation, s.nextUid, c)
  {
    hide InjectPackageFilter, FilterFor, IsTerminal, Applied;
    var t := Apply(s, Start);
    var next := Apply(t, Next(t, c));
    assert Finish(t, c) == Finish(next, c);
    if next.op.Cron? {
      FromCron(next, s.annotation, s.nextUid, c);
    }
  }

  // ── Every undisturbed reconcile ────────────────────────────────────────────

  /** The call in hand with any reply the server can give, or a job that goes while it is waited for. */
  predicate StepOf(op: Pc, gone: bool, a: Action) {
    match op
    case Idle => false
    case Reading(_) => a.Read?
    case Cron(_, _) => a.PatchCron?
    case DeletingFirst(_) => a.Delete?
    case AwaitingFirst(_, _) => a.Await? || (a.Vanish? && !gone)
    case Applying(_) => a.ApplyJob?
    case DeletingAgain(_) => a.Delete?
    case AwaitingAgain(_, _) => a.Await? || (a.Vanish? && !gone)
    case Creating(_) => a.CreateJob?
    case Unannotating(_, _) => a.Unannotate?
  }

  predicate Own(t: State, a: Action) {
    StepOf(t.op, IsGone(t), a)
  }

  /** The rest of a reconcile, to its end, that nobody interferes with. */
  predicate Undisturbed(t: State, run: seq<Action>)
    decreases |run|
  {
    if t.op.Idle? then run == []
    else run != [] && Own(t, run[0]) && Enabled(t, run[0]) && Undisturbed(Apply(t, run[0]), run[1..])
  }

  /** The replies to the last `n` kinds of step are the same. */
  predicate SameFrom(n: nat, c: Replies, d: Replies) {
    && (n >= 1 ==> c.unannotate == d.unannotate)
    && (n >= 2 ==> c.create == d.create)
    && (n >= 3 ==> c.noticedAgain == d.noticedAgain)
    && (n >= 4 ==> c.goesAgain == d.goesAgain)
    && (n >= 5 ==> c.deleteAgain == d.deleteAgain && c.atOnceAgain == d.atOnceAgain)
    && (n >= 6 ==> c.apply == d.apply)
    && (n >= 7 ==> c.noticed == d.noticed)
    && (n >= 8 ==> c.goes == d.goes)
    && (n >= 9 ==> c.delete == d.delete && c.atOnce == d.atOnce)
    && (n >= 10 ==> c.cron == d.cron)
    && (n >= 11 ==> c.read == d.read)
  }

  lemma {:induction false} SameFromNext(op: Pc, gone: bool, can: bool, c: Replies, d: Replies)
    requires !op.Idle? && SameFrom(RankOf(op, gone), c, d)
    ensures NextOf(op, gone, can, c) == NextOf(op, gone, can, d)
  {
  }

  lemma {:induction false} SameFromLess(n: nat, m: nat, c: Replies, d: Replies)
    requires m <= n && SameFrom(n, c, d)
    ensures SameFrom(m, c, d)
  {
  }

  lemma {:induction false} FinishSameFrom(t: State, c: Replies, d: Replies)
    requires Quiet(t) && SameFrom(Rank(t), c, d)
    ensures Finish(t, c) == Finish(t, d)
    decreases Rank(t)
  {
    hide Enabled, Apply, SameFrom, Quiet, NextOf, RankOf, IsGone, Can;
    if !t.op.Idle? {
      NextStep(t, c);
      SameFromNext(t.op, IsGone(t), Can(t), c, d);
      SameFromLess(Rank(t), Rank(Apply(t, Next(t, c))), c, d);
      FinishSameFrom(Apply(t, Next(t, c)), c, d);
    }
  }

  /** The reply this step gave. */
  function With(op: Pc, gone: bool, a: Action, c: Replies): Replies {
    match a
    case Read(ok) => c.(read := ok)
    case PatchCron(ok) => c.(cron := ok)
    case Delete(ok, atOnce) =>
      if op.DeletingFirst? then c.(delete := ok, atOnce := atOnce) else c.(deleteAgain := ok, atOnceAgain := atOnce)
    case Vanish => if op.AwaitingFirst? then c.(goes := true) else c.(goesAgain := true)
    case Await(ok) =>
      if op.AwaitingFirst? then (if gone then c.(noticed := ok) else c.(goes := false))
      else if gone then c.(noticedAgain := ok) else c.(goesAgain := false)
    case ApplyJob(ok) => c.(apply := ok)
    case CreateJob(ok) => c.(create := ok)
    case Unannotate(ok) => c.(unannotate := ok)
    case _ => c
  }

  /** No step succeeds that the server cannot do. */
  predicate Possible(gone: bool, can: bool, a: Action) {
    && (a == ApplyJob(true) || a == CreateJob(true) || a == Unannotate(true) ==> can)
    && (a == Await(true) ==> gone)
  }

  lemma {:induction false} EnabledIsPossible(t: State, a: Action)
    requires Enabled(t, a)
    ensures Possible(IsGone(t), Can(t), a)
  {
    hide IsTerminal, InjectPackageFilter, Gone;
  }

  /** These replies make this the next step, and keep the later ones of `c`. */
  predicate FitsIn(op: Pc, gone: bool, can: bool, a: Action, c: Replies) {
    var d := With(op, gone, a, c);
    !op.Idle? && NextOf(op, gone, can, d) == a && RankOf(op, gone) > 0 && SameFrom(RankOf(op, gone) - 1, d, c)
  }

  lemma {:induction false} EarlierReplies(c: Replies, x: bool, y: bool)
    ensures SameFrom(10, c.(read := x), c) && SameFrom(9, c.(cron := x), c)
    ensures SameFrom(8, c.(delete := x, atOnce := y), c) && SameFrom(7, c.(goes := x), c)
    ensures SameFrom(6, c.(noticed := x), c) && SameFrom(5, c.(apply := x), c)
  {
  }

  lemma {:induction false} LaterReplies(c: Replies, x: bool, y: bool)
    ensures SameFrom(4, c.(deleteAgain := x, atOnceAgain := y), c) && SameFrom(3, c.(goesAgain := x), c)
    ensures SameFrom(2, c.(noticedAgain := x), c) && SameFrom(1, c.(create := x), c)
    ensures SameFrom(0, c.(unannotate := x), c)
  {
  }

  lemma {:induction false} CallFits(op: Pc, gone: bool, can: bool, a: Action, c: Replies)
    requires op.Reading? || op.Cron? || op.Applying? || op.Creating? || op.Unannotating?
    requires StepOf(op, gone, a) && Possible(gone, can, a)
    ensures FitsIn(op, gone, can, a, c)
  {
    hide SameFrom;
    match op
    case Reading(_) => EarlierReplies(c, a.ok, true);
    case Cron(_, _) => EarlierReplies(c, a.ok, true);
    case Applying(_) => EarlierReplies(c, a.ok, true);
    case Creating(_) => LaterReplies(c, a.ok, true);
    case Unannotating(_, _) => LaterReplies(c, a.ok, true);
  }

  lemma {:induction false} DeleteFits(op: Pc, gone: bool, can: bool, a: Action, c: Replies)
    requires op.DeletingFirst? || op.DeletingAgain?
    requires StepOf(op, gone, a)
    ensures FitsIn(op, gone, can, a, c)
  {
    hide SameFrom;
    match op
    case DeletingFirst(_) => EarlierReplies(c, a.ok, a.atOnce);
    case DeletingAgain(_) => LaterReplies(c, a.ok, a.atOnce);
  }

  lemma {:induction false} FirstWaitFits(op: Pc, gone: bool, can: bool, a: Action, c: Replies)
    requires op.AwaitingFirst? && StepOf(op, gone, a) && Possible(gone, can, a)
    ensures FitsIn(op, gone, can, a, c)
  {
    hide SameFrom;
    if a.Await? {
      EarlierReplies(c, a.ok, true);
    } else {
      EarlierReplies(c, true, true);
    }
  }

  lemma {:induction false} SecondWaitFits(op: Pc, gone: bool, can: bool, a: Action, c: Replies)
    requires op.AwaitingAgain? && StepOf(op, gone, a) && Possible(gone, can, a)
    ensures FitsIn(op, gone, can, a, c)
  {
    hide SameFrom;
    if a.Await? {
      LaterReplies(c, a.ok, true);
    } else {
      LaterReplies(c, true, true);
    }
  }

  lemma {:induction false} WithIsNext(op: Pc, gone: bool, can: bool, a: Action, c: Replies)
    requires StepOf(op, gone, a) && Possible(gone, can, a)
    ensures FitsIn(op, gone, can, a, c)
  {
    hide FitsIn, Possible;
    if op.AwaitingFirst? {
      FirstWaitFits(op, gone, can, a, c);
    } else if op.AwaitingAgain? {
      SecondWaitFits(op, gone, can, a, c);
    } else if op.DeletingFirst? || op.DeletingAgain? {
      DeleteFits(op, gone, can, a, c);
    } else {
      CallFits(op, gone, can, a, c);
    }
  }

  lemma {:induction false} RestIsFinish(t: State, run: seq<Action>, any: Replies) returns (c: Replies)
    requires Quiet(t) && Undisturbed(t, run)
    ensures CanRun(t, run) && Run(t, run) == Finish(t, c)
    decreases |run|
  {
    hide Enabled, Apply, SameFrom, Quiet, NextOf, With, StepOf, RankOf, IsGone, Can, Possible;
    c := any;
    if !t.op.Idle? {
      var a := run[0];
      EnabledIsPossible(t, a);
      WithIsNext(t.op, IsGone(t), Can(t), a, any);
      NextStep(t, With(t.op, IsGone(t), a, any));
      var rest := RestIsFinish(Apply(t, a), run[1..], any);
      WithIsNext(t.op, IsGone(t), Can(t), a, rest);
      c := With(t.op, IsGone(t), a, rest);
      SameFromLess(Rank(t) - 1, Rank(Apply(t, a)), c, rest);
      FinishSameFrom(Apply(t, a), c, rest);
      assert Finish(t, c) == Finish(Apply(t, Next(t, c)), c);
    }
  }

  /** Every reconcile that nobody interferes with leaves the job and the annotation as the code read from top to
      bottom does, for some replies; and for all replies there is such a reconcile. */
  lemma {:induction false} UndisturbedIsSequential(s: State, run: seq<Action>) returns (c: Replies)
    requires s.op.Idle? && Undisturbed(Apply(s, Start), run)
    ensures CanRun(s, [Start] + run)
    ensures Result(Run(s, [Start] + run)) == ScanOnce(s.job, s.annotation, s.nextUid, c)
  {
    hide Apply, ScanOnce, Undisturbed, Quiet;
    var any := Replies(true, true, true, true, true, true, true, true, true, true, true, true, true);
    RoundIsSequential(s, any);
    c := RestIsFinish(Apply(s, Start), run, any);
    RoundIsSequential(s, c);
    assert ([Start] + run)[1..] == run;
  }

  // ── The logs ──────────────────────────────────────────────────────────────

  /** Nobody but the operator. */
  predicate OperatorAlone(run: seq<Action>) {
    forall i :: 0 <= i < |run| ==>
      !run[i].Annotate? && !run[i].ForeignCreate? && !run[i].ForeignDelete? && !run[i].Vanish? && !run[i].Progress?
  }

  /** One step's entries. */
  predicate Logged(s: State, t: State) {
    && s.removed <= t.removed && s.deleted <= t.deleted && s.created <= t.created
    && (t.annotation != s.annotation ==> |t.removed| > |s.removed|)
    && (t.job != s.job ==> |t.deleted| > |s.deleted| || (s.job.None? && |t.created| > |s.created|))
    && t.nextUid - s.nextUid == |t.created| - |s.created|
  }

  lemma {:induction false} StepIsLogged(s: State, a: Action)
    requires Enabled(s, a) && OperatorAlone([a])
    ensures Logged(s, Apply(s, a))
  {
    hide IsTerminal, InjectPackageFilter;
    assert [a][0] == a;
    if a.Delete? {
      DeleteIsLogged(s, a.ok, a.atOnce);
    }
  }

  lemma {:induction false} DeleteIsLogged(s: State, ok: bool, atOnce: bool)
    requires s.op.DeletingFirst? || s.op.DeletingAgain?
    ensures Logged(s, DoDelete(s, ok, atOnce))
  {
    hide IsTerminal;
  }

  /** The logs miss nothing: without others, an annotation that is not what it was was removed, a job that is not
      what it was was deleted or created, and each is in its log. */
  lemma {:induction false} NothingIsUnlogged(s: State, run: seq<Action>)
    requires CanRun(s, run) && OperatorAlone(run)
    ensures Logged(s, Run(s, run))
    decreases |run|
  {
    hide Enabled, Apply;
    if run == [] {
    } else {
      assert OperatorAlone([run[0]]) by {
        assert [run[0]][0] == run[0];
      }
      StepIsLogged(s, run[0]);
      NothingIsUnlogged(Apply(s, run[0]), run[1..]);
    }
  }

  /** A deletion is logged with its round and with whether the job that was deleted was over. */
  lemma {:induction false} DeletionIsAsItWas(s: State, a: Action)
    requires Enabled(s, a) && Apply(s, a).deleted != s.deleted
    ensures a.Delete? && a.ok && s.job.Some?
    ensures Apply(s, a).deleted == s.deleted + [Deletion(s.op.round, IsTerminal(s.job.value))]
  {
    hide IsTerminal, InjectPackageFilter;
  }

  /** What has happened in a run: an edit of the annotation, a foreign creation, an unanswered read, a refused
      delete. */
  datatype Events = Events(annotated: bool, foreign: bool, unread: bool, refused: bool)

  function Happened(run: seq<Action>): Events {
    if run == [] then Events(false, false, false, false)
    else
      var e, a := Happened(run[..|run| - 1]), run[|run| - 1];
      Events(e.annotated || a.Annotate?, e.foreign || a.ForeignCreate?, e.unread || a == Read(false),
             e.refused || (a.Delete? && !a.ok))
  }

  /** A round is marked with nothing that did not happen. */
  predicate Honest(r: Round, e: Events) {
    (r.rewritten ==> e.annotated) && (r.foreign ==> e.foreign) && (r.refused ==> e.refused)
  }

  predicate HonestMarks(t: State, n: nat, e: Events) {
    && (t.op.Idle? || (Honest(t.op.round, e) && (!t.op.Reading? && !t.op.round.answered ==> e.unread)))
    && n <= |t.removed|
    && forall i :: n <= i < |t.removed| ==> Honest(t.removed[i].round, e) && (!t.removed[i].round.answered ==> e.unread)
  }

  lemma {:induction false} RunAppend(s: State, front: seq<Action>, a: Action)
    requires CanRun(s, front + [a])
    ensures CanRun(s, front) && Enabled(Run(s, front), a) && Run(s, front + [a]) == Apply(Run(s, front), a)
    decreases |front|
  {
    hide Enabled, Apply;
    var run := front + [a];
    if front == [] {
      assert run[1..] == [];
      assert Run(Apply(s, a), []) == Apply(s, a);
    } else {
      assert run[0] == front[0] && run[1..] == front[1..] + [a];
      RunAppend(Apply(s, front[0]), front[1..], a);
    }
  }

  lemma {:induction false} StepIsHonest(t: State, a: Action, n: nat, e: Events)
    requires Enabled(t, a) && HonestMarks(t, n, e)
    ensures HonestMarks(Apply(t, a), n, Events(e.annotated || a.Annotate?, e.foreign || a.ForeignCreate?,
                                               e.unread || a == Read(false), e.refused || (a.Delete? && !a.ok)))
  {
    hide IsTerminal, InjectPackageFilter;
  }

  /** The marks of a round tell the truth: a removal is marked rewritten, foreign, refused or unanswered only if
      the run has an edit of the annotation, a foreign creation, a refused delete or an unanswered read. */
  lemma {:induction false} MarksAreTrue(s: State, run: seq<Action>)
    requires s.op.Idle? && CanRun(s, run)
    ensures HonestMarks(Run(s, run), |s.removed|, Happened(run))
    decreases |run|
  {
    hide Enabled, Apply, HonestMarks;
    if run == [] {
      NothingIsHonest(s);
    } else {
      var front, a := run[..|run| - 1], run[|run| - 1];
      assert run == front + [a];
      RunAppend(s, front, a);
      MarksAreTrue(s, front);
      StepIsHonest(Run(s, front), a, |s.removed|, Happened(front));
    }
  }

  lemma {:induction false} NothingIsHonest(s: State)
    requires s.op.Idle?
    ensures HonestMarks(s, |s.removed|, Events(false, false, false, false))
  {
  }
}
