/**
  The double-checked time-to-live cache under any number of concurrent callers, as a state machine
  over the steps of `get_or_refresh`. A caller's future may be dropped at any await point.
*/
module TtlCache {
  import opened Strings

  type Time = nat
  type Val = int

  datatype Stored = Stored(ts: Time, val: Val)

  /** Where a caller is: before the read lock, past a stale read, holding the write lock unchecked,
      refreshing under the write lock, or answered. */
  datatype Pc = Start | Missed | Locked | Refreshing | Answered(answer: Answer)

  datatype Answer = Cached(entry: Stored, checkedAt: Time) | Fresh(val: Val) | RefreshFailed

  datatype State = State(
    ttl: Time,
    now: Time,
    inner: Option<Stored>,
    writer: Option<nat>,
    callers: map<nat, Pc>,
    stores: seq<Time>)

  datatype Action =
    | Tick(dt: Time)
    | Call(id: nat)
    | Read(id: nat)
    | Lock(id: nat)
    | Recheck(id: nat)
    | RefreshOk(id: nat, val: Val)
    | RefreshErr(id: nat)
    | Drop(id: nat)

  predicate Usable(s: State) {
    s.inner.Some? && s.now - s.inner.value.ts < s.ttl
  }

  predicate At(s: State, id: nat, pc: Pc) {
    id in s.callers && s.callers[id] == pc
  }

  predicate Enabled(s: State, a: Action) {
    match a
    case Tick(_) => true
    case Call(id) => id !in s.callers
    case Read(id) => At(s, id, Start) && s.writer.None?
    case Lock(id) => At(s, id, Missed) && s.writer.None?
    case Recheck(id) => At(s, id, Locked)
    case RefreshOk(id, _) => At(s, id, Refreshing)
    case RefreshErr(id) => At(s, id, Refreshing)
    case Drop(id) => id in s.callers && !s.callers[id].Answered?
  }

  function Apply(s: State, a: Action): State
    requires Enabled(s, a)
  {
    match a
    case Tick(dt) => s.(now := s.now + dt)
    case Call(id) => s.(callers := s.callers[id := Start])
    case Read(id) =>
      s.(callers := s.callers[id := if Usable(s) then Answered(Cached(s.inner.value, s.now)) else Missed])
    case Lock(id) => s.(callers := s.callers[id := Locked], writer := Some(id))
    case Recheck(id) =>
      if Usable(s) then s.(callers := s.callers[id := Answered(Cached(s.inner.value, s.now))], writer := None)
      else s.(callers := s.callers[id := Refreshing])
    case RefreshOk(id, val) =>
      s.(callers := s.callers[id := Answered(Fresh(val))], writer := None,
         inner := Some(Stored(s.now, val)), stores := s.stores + [s.now])
    case RefreshErr(id) =>
      s.(callers := s.callers[id := Answered(RefreshFailed)], writer := None)
    case Drop(id) =>
      s.(callers := s.callers - {id}, writer := if s.writer == Some(id) then None else s.writer)
  }

  function Init(ttl: Time, now: Time): State {
    State(ttl, now, None, None, map[], [])
  }

  predicate CanRun(s: State, run: seq<Action>)
    decreases |run|
  {
    run == [] || (Enabled(s, run[0]) && CanRun(Apply(s, run[0]), run[1..]))
  }

  function Run(s: State, run: seq<Action>): State
    requires CanRun(s, run)
    decreases |run|
  {
    if run == [] then s else Run(Apply(s, run[0]), run[1..])
  }

  /** Consecutive stores are at least `ttl` apart. */
  predicate Spaced(stores: seq<Time>, ttl: Time) {
    forall i :: 0 < i < |stores| ==> stores[i - 1] + ttl <= stores[i]
  }

  predicate HoldsLock(pc: Pc) {
    pc == Locked || pc == Refreshing
  }

  ghost predicate Inv(s: State) {
    && (forall id | id in s.callers :: HoldsLock(s.callers[id]) <==> s.writer == Some(id))
    && (s.writer.Some? ==> s.writer.value in s.callers)
    && (s.inner.None? <==> s.stores == [])
    && (s.inner.Some? ==> s.inner.value.ts == s.stores[|s.stores| - 1] && s.inner.value.ts <= s.now)
    && (forall id | id in s.callers && s.callers[id] == Refreshing :: !Usable(s))
    && Spaced(s.stores, s.ttl)
    && (forall id | id in s.callers && s.callers[id].Answered? && s.callers[id].answer.Cached? ::
          var c := s.callers[id].answer;
          c.entry.ts in s.stores && c.entry.ts <= c.checkedAt < c.entry.ts + s.ttl)
  }

  lemma {:induction false} StepKeepsInv(s: State, a: Action)
    requires Inv(s) && Enabled(s, a)
    ensures Inv(Apply(s, a))
  {
    var t := Apply(s, a);
    if a.RefreshOk? {
      assert forall id | id in t.callers :: id != a.id ==> t.callers[id] == s.callers[id];
      assert forall x | x in s.stores :: x in t.stores;
    }
  }

  /** In every interleaving from a new cache: at most one refresh is in flight, every cached answer
      was an actual store younger than the ttl when it was checked, and stores are `ttl` apart. */
  lemma {:induction false} RunKeepsInv(s: State, run: seq<Action>)
    requires Inv(s) && CanRun(s, run)
    ensures Inv(Run(s, run)) && Run(s, run).ttl == s.ttl && s.stores <= Run(s, run).stores
    decreases |run|
  {
    if run == [] {
    } else {
      StepKeepsInv(s, run[0]);
      RunKeepsInv(Apply(s, run[0]), run[1..]);
    }
  }

  lemma {:induction false} AtMostOneRefresh(ttl: Time, now: Time, run: seq<Action>, a: nat, b: nat)
    requires CanRun(Init(ttl, now), run)
    ensures var s := Run(Init(ttl, now), run);
      At(s, a, Refreshing) && At(s, b, Refreshing) ==> a == b
  {
    RunKeepsInv(Init(ttl, now), run);
  }

  lemma {:induction false} CachedAnswersAreYoung(ttl: Time, now: Time, run: seq<Action>, id: nat, entry: Stored, at: Time)
    requires CanRun(Init(ttl, now), run)
    requires At(Run(Init(ttl, now), run), id, Answered(Cached(entry, at)))
    ensures entry.ts in Run(Init(ttl, now), run).stores && entry.ts <= at < entry.ts + ttl
  {
    RunKeepsInv(Init(ttl, now), run);
  }

  // ── What the cache holds and answers, read off the run ─────────────────────

  /** The time after a run. */
  function Clock(now: Time, run: seq<Action>): Time {
    if run == [] then now
    else
      var a := run[|run| - 1];
      Clock(now, run[..|run| - 1]) + if a.Tick? then a.dt else 0
  }

  /** The time and the value of the last refresh that succeeded. */
  function LastRefresh(now: Time, run: seq<Action>): Option<Stored> {
    if run == [] then None
    else
      var front, a := run[..|run| - 1], run[|run| - 1];
      if a.RefreshOk? then Some(Stored(Clock(now, front), a.val)) else LastRefresh(now, front)
  }

  lemma {:induction false} RunOneMore(s: State, run: seq<Action>)
    requires run != [] && CanRun(s, run)
    ensures CanRun(s, run[..|run| - 1]) && Enabled(Run(s, run[..|run| - 1]), run[|run| - 1])
    ensures Run(s, run) == Apply(Run(s, run[..|run| - 1]), run[|run| - 1])
    decreases |run|
  {
    hide Enabled, Apply;
    if |run| == 1 {
      assert run[..0] == [] && run[1..] == [];
      assert Run(Apply(s, run[0]), []) == Apply(s, run[0]);
    } else {
      var front := run[..|run| - 1];
      assert front[1..] == run[1..][..|run| - 2];
      RunOneMore(Apply(s, run[0]), run[1..]);
    }
  }

  /** After every run the stored pair is the time and value of the last refresh that succeeded. */
  lemma {:induction false} StoredIsLastRefresh(ttl: Time, now: Time, run: seq<Action>)
    requires CanRun(Init(ttl, now), run)
    ensures var s := Run(Init(ttl, now), run);
      s.inner == LastRefresh(now, run) && s.now == Clock(now, run) && s.ttl == ttl
  {
    hide Enabled, CanRun, Run;
    if run == [] {
      assert Run(Init(ttl, now), []) == Init(ttl, now) by {
        NoSteps(Init(ttl, now));
      }
    } else {
      RunOneMore(Init(ttl, now), run);
      StoredIsLastRefresh(ttl, now, run[..|run| - 1]);
    }
  }

  lemma {:induction false} NoSteps(s: State)
    ensures CanRun(s, []) && Run(s, []) == s
  {
  }

  /** The step that answered a caller. */
  predicate Answers(now: Time, ttl: Time, run: seq<Action>, k: nat, id: nat, answer: Answer)
    requires k < |run|
  {
    match answer
    case Cached(entry, at) =>
      && run[k] in {Read(id), Recheck(id)}
      && LastRefresh(now, run[..k]) == Some(entry)
      && at == Clock(now, run[..k]) && at - entry.ts < ttl
    case Fresh(val) => run[k] == RefreshOk(id, val)
    case RefreshFailed => run[k] == RefreshErr(id)
  }

  /** Every answer is accounted for by the caller's own step: a cached one is the pair of the last successful
      refresh before its check and was younger than the ttl then, a fresh one is the value of its own refresh,
      and only a failed refresh answers with the failure. */
  lemma {:induction false} AnswersComeFromRefreshes(ttl: Time, now: Time, run: seq<Action>, id: nat, answer: Answer)
    returns (k: nat)
    requires CanRun(Init(ttl, now), run) && At(Run(Init(ttl, now), run), id, Answered(answer))
    ensures k < |run| && Answers(now, ttl, run, k, id, answer)
  {
    hide CanRun, Run, LastRefresh, Clock;
    var s := Init(ttl, now);
    k := 0;
    if run == [] {
      NoSteps(s);
    } else {
      var front := run[..|run| - 1];
      RunOneMore(s, run);
      StoredIsLastRefresh(ttl, now, front);
      if At(Run(s, front), id, Answered(answer)) {
        k := AnswersComeFromRefreshes(ttl, now, front, id, answer);
        assert front[..k] == run[..k];
      } else {
        k := |run| - 1;
      }
    }
  }

  /** Only a successful refresh changes the stored pair. */
  lemma {:induction false} OnlySuccessStores(s: State, a: Action)
    requires Enabled(s, a)
    ensures Apply(s, a).inner != s.inner ==> a.RefreshOk?
    ensures !a.RefreshOk? ==> Apply(s, a).inner == s.inner && Apply(s, a).stores == s.stores
  {
  }

  /** However many refreshes fail or are dropped, the stored pair is the one of the last success. */
  lemma {:induction false} PairStaysWithoutSuccess(s: State, run: seq<Action>)
    requires CanRun(s, run) && forall i :: 0 <= i < |run| ==> !run[i].RefreshOk?
    ensures Run(s, run).inner == s.inner && Run(s, run).stores == s.stores
    decreases |run|
  {
    hide Enabled, Apply;
    if run == [] {
    } else {
      OnlySuccessStores(s, run[0]);
      PairStaysWithoutSuccess(Apply(s, run[0]), run[1..]);
    }
  }

  /** No caller can be stuck behind a lock nobody holds: a caller that is not answered can always be
      moved, or the writer can. */
  lemma {:induction false} SomeoneCanMove(ttl: Time, now: Time, run: seq<Action>, id: nat)
    requires CanRun(Init(ttl, now), run)
    requires var s := Run(Init(ttl, now), run); id in s.callers && !s.callers[id].Answered?
    ensures var s := Run(Init(ttl, now), run);
      exists w :: Enabled(s, Read(w)) || Enabled(s, Lock(w)) || Enabled(s, Recheck(w)) || Enabled(s, RefreshErr(w))
  {
    RunKeepsInv(Init(ttl, now), run);
    var s := Run(Init(ttl, now), run);
    var w := if s.writer.Some? then s.writer.value else id;
    assert Enabled(s, Read(w)) || Enabled(s, Lock(w)) || Enabled(s, Recheck(w)) || Enabled(s, RefreshErr(w));
  }

  // ── How many refreshes a window can hold ──────────────────────────────────

  function CountIn(stores: seq<Time>, lo: int, hi: int): nat {
    if stores == [] then 0
    else
      var last := stores[|stores| - 1];
      CountIn(stores[..|stores| - 1], lo, hi) + (if lo <= last <= hi then 1 else 0)
  }

  lemma {:induction false} EarlierAreSmaller(stores: seq<Time>, ttl: Time, i: nat)
    requires Spaced(stores, ttl) && i + 1 < |stores|
    ensures stores[i] + ttl <= stores[|stores| - 1]
    decreases |stores| - i
  {
    if i + 2 < |stores| {
      EarlierAreSmaller(stores, ttl, i + 1);
    }
  }

  lemma {:induction false} CountBelow(stores: seq<Time>, lo: int, hi: int, hi': int)
    requires hi' <= hi
    requires forall i :: 0 <= i < |stores| ==> stores[i] <= hi' || stores[i] > hi
    ensures CountIn(stores, lo, hi) == CountIn(stores, lo, hi')
  {
    if stores == [] {
    } else {
      CountBelow(stores[..|stores| - 1], lo, hi, hi');
    }
  }

  lemma {:induction false} CountEmpty(stores: seq<Time>, lo: int, hi: int)
    requires hi < lo
    ensures CountIn(stores, lo, hi) == 0
  {
    if stores == [] {
    } else {
      CountEmpty(stores[..|stores| - 1], lo, hi);
    }
  }

  lemma {:induction false} SpacedCount(stores: seq<Time>, ttl: Time, lo: int, hi: int)
    requires ttl > 0 && Spaced(stores, ttl) && lo <= hi
    ensures CountIn(stores, lo, hi) <= (hi - lo) / ttl + 1
    decreases |stores|
  {
    NotNegative(hi - lo, ttl);
    if stores == [] {
    } else {
      var front, last := stores[..|stores| - 1], stores[|stores| - 1];
      if lo <= last <= hi {
        BeforeTheLast(stores, ttl, lo, hi);
        if last - ttl < lo {
          CountEmpty(front, lo, last - ttl);
        } else {
          SpacedCount(front, ttl, lo, last - ttl);
          QuotientSteps(last - ttl - lo, hi - lo, ttl);
        }
      } else {
        SpacedCount(front, ttl, lo, hi);
      }
    }
  }

  lemma {:induction false} NotNegative(y: nat, d: nat)
    requires d > 0
    ensures 0 <= y / d
  {
  }

  lemma {:induction false} BeforeTheLast(stores: seq<Time>, ttl: Time, lo: int, hi: int)
    requires stores != [] && Spaced(stores, ttl) && lo <= stores[|stores| - 1] <= hi
    ensures var front, last := stores[..|stores| - 1], stores[|stores| - 1];
      CountIn(front, lo, hi) == CountIn(front, lo, last - ttl)
  {
    hide Spaced;
    var front, last := stores[..|stores| - 1], stores[|stores| - 1];
    forall i | 0 <= i < |front| ensures front[i] <= last - ttl {
      EarlierAreSmaller(stores, ttl, i);
    }
    CountBelow(front, lo, hi, last - ttl);
  }

  lemma {:induction false} QuotientSteps(x: nat, y: nat, d: nat)
    requires d > 0 && x + d <= y
    ensures x / d + 1 <= y / d
  {
    var q, r := x / d, y / d;
    assert q * d <= x && y < r * d + d;
    assert (q + 1) * d < (r + 1) * d;
  }

  /** A window of length `length` holds at most `length / ttl + 1` successful refreshes. */
  lemma {:induction false} RefreshesInWindow(ttl: Time, now: Time, run: seq<Action>, lo: Time, length: nat)
    requires ttl > 0 && CanRun(Init(ttl, now), run)
    ensures CountIn(Run(Init(ttl, now), run).stores, lo, lo + length) <= length / ttl + 1
  {
    RunKeepsInv(Init(ttl, now), run);
    SpacedCount(Run(Init(ttl, now), run).stores, ttl, lo, lo + length);
  }
}
