/**
  Jobs as the API server shows them, and the command-line client that triggers a scan or an upgrade and
  polls for its outcome. A history is the job under the client's name at every instant, whatever the
  operator, the job controller and other clients do in between; the client polls at some instants.
*/
module JobClient {
  import opened Strings

  datatype Cond = Cond(ctype: string, status: string)

  datatype Job = Job(uid: nat, filter: Option<string>, deleting: bool, conditions: seq<Cond>)

  datatype Outcome = Complete | Failed

  predicate Ends(c: Cond) {
    c.status == "True" && (c.ctype == "Complete" || c.ctype == "Failed")
  }

  /** The operator's test: some condition ends the job. */
  predicate IsTerminal(j: Job) {
    exists i | 0 <= i < |j.conditions| :: Ends(j.conditions[i])
  }

  /** The client's reading: the first condition that ends the job. */
  function OutcomeOf(cs: seq<Cond>): Option<Outcome> {
    if cs == [] then None
    else if cs[0].status == "True" && cs[0].ctype == "Complete" then Some(Complete)
    else if cs[0].status == "True" && cs[0].ctype == "Failed" then Some(Failed)
    else OutcomeOf(cs[1..])
  }

  /** Operator and client agree on which jobs are over. */
  lemma {:induction false} TerminalIffOutcome(j: Job)
    ensures IsTerminal(j) <==> OutcomeOf(j.conditions).Some?
    decreases |j.conditions|
  {
    if j.conditions != [] {
      var rest := j.(conditions := j.conditions[1..]);
      TerminalIffOutcome(rest);
      if IsTerminal(j) && !Ends(j.conditions[0]) {
        var i :| 0 <= i < |j.conditions| && Ends(j.conditions[i]);
        assert Ends(rest.conditions[i - 1]);
      }
    }
  }

  /** The first condition that is true and says Complete or Failed is the outcome; without one the job is not
      over. */
  lemma {:induction false} FirstEndIsOutcome(j: Job, i: nat)
    requires i <= |j.conditions|
    requires forall k :: 0 <= k < i ==> j.conditions[k] != Cond("Complete", "True") && j.conditions[k] != Cond("Failed", "True")
    ensures i == |j.conditions| ==> !IsTerminal(j) && OutcomeOf(j.conditions) == None
    ensures i < |j.conditions| && j.conditions[i] == Cond("Complete", "True") ==>
      IsTerminal(j) && OutcomeOf(j.conditions) == Some(Complete)
    ensures i < |j.conditions| && j.conditions[i] == Cond("Failed", "True") ==>
      IsTerminal(j) && OutcomeOf(j.conditions) == Some(Failed)
    decreases i
  {
    TerminalIffOutcome(j);
    if i == 0 {
    } else {
      FirstEndIsOutcome(j.(conditions := j.conditions[1..]), i - 1);
    }
  }

  type History = seq<Option<Job>>

  predicate Shows(j: Option<Job>, uid: nat) {
    j.Some? && j.value.uid == uid
  }

  /** A uid that is gone never comes back. */
  ghost predicate NeverReused(h: History) {
    forall uid, i, j, k :: 0 <= i < j < k < |h| && Shows(h[i], uid) && Shows(h[k], uid) ==> Shows(h[j], uid)
  }

  datatype Poll = Poll(at: nat, ok: bool)

  predicate Polls(h: History, start: nat, polls: seq<Poll>) {
    && (forall i :: 0 <= i < |polls| ==> start <= polls[i].at < |h|)
    && (forall i, j :: 0 <= i <= j < |polls| ==> polls[i].at <= polls[j].at)
  }

  predicate IsNew(job: Option<Job>, was: Option<nat>) {
    job.Some? && (was.Some? ==> job.value.uid != was.value)
  }

  datatype Wait = Seen | TimedOut | Broken

  /** `wait_job_recreated`: the deadline has passed from poll `last` on. */
  method WaitJobRecreated(h: History, polls: seq<Poll>, last: nat, was: Option<nat>) returns (w: Wait, k: nat)
    requires Polls(h, 0, polls) && last < |polls|
    ensures k <= last
    ensures forall i :: 0 <= i < k ==> polls[i].ok && !IsNew(h[polls[i].at], was)
    ensures w.Broken? <==> !polls[k].ok
    ensures w.Seen? <==> polls[k].ok && IsNew(h[polls[k].at], was)
    ensures w.TimedOut? ==> k == last
  {
    k := 0;
    while true
      invariant k <= last
      invariant forall i :: 0 <= i < k ==> polls[i].ok && !IsNew(h[polls[i].at], was)
      decreases last - k
    {
      if !polls[k].ok {
        return Broken, k;
      }
      var job := h[polls[k].at];
      if job.Some? {
        var recreated := if was.Some? then job.value.uid != was.value else true;
        if recreated {
          return Seen, k;
        }
      }
      if k >= last {
        return TimedOut, k;
      }
      k := k + 1;
    }
  }

  predicate Over(job: Option<Job>) {
    job.Some? && OutcomeOf(job.value.conditions).Some?
  }

  /** `wait_job_terminal`: it looks the job up by name only. */
  method WaitJobTerminal(h: History, polls: seq<Poll>, first: nat, last: nat) returns (w: Wait, outcome: Outcome, k: nat)
    requires Polls(h, 0, polls) && first <= last < |polls|
    ensures first <= k <= last
    ensures forall i :: first <= i < k ==> polls[i].ok && !Over(h[polls[i].at])
    ensures w.Broken? <==> !polls[k].ok
    ensures w.Seen? <==> polls[k].ok && Over(h[polls[k].at])
    ensures w.Seen? ==> Some(outcome) == OutcomeOf(h[polls[k].at].value.conditions)
    ensures w.TimedOut? ==> k == last
  {
    k, outcome := first, Failed;
    while true
      invariant first <= k <= last
      invariant forall i :: first <= i < k ==> polls[i].ok && !Over(h[polls[i].at])
      decreases last - k
    {
      if !polls[k].ok {
        return Broken, outcome, k;
      }
      var job := h[polls[k].at];
      if job.Some? {
        var cs := job.value.conditions;
        var i := 0;
        while i < |cs|
          invariant 0 <= i <= |cs|
          invariant OutcomeOf(cs[i..]) == OutcomeOf(cs)
        {
          if cs[i].status == "True" {
            if cs[i].ctype == "Complete" {
              return Seen, Complete, k;
            }
            if cs[i].ctype == "Failed" {
              return Seen, Failed, k;
            }
          }
          i := i + 1;
        }
        assert OutcomeOf(cs[i..]) == None;
      }
      if k >= last {
        return TimedOut, outcome, k;
      }
      k := k + 1;
    }
  }

  datatype Verdict = Finished(outcome: Outcome) | ReadFailed | AnnotateFailed | QueryFailed | NotRecreated | NotFinished

  /** `scan_jukebox_and_wait` and the non-watching `run_upgrade`: read the job's uid, annotate, wait for
      another uid, wait for the outcome. The deadline has passed from poll `last` on; each wait polls at
      least once. A verdict is that of a job which did not exist at any instant up to the read of the old
      uid, on every history that never reuses a uid. */
  method TriggerAndWait(h: History, readAt: nat, readOk: bool, annotateOk: bool, polls: seq<Poll>, last: nat)
    returns (v: Verdict, at: nat)
    requires NeverReused(h) && readAt < |h| && Polls(h, readAt, polls) && last + 1 < |polls|
    ensures v.ReadFailed? <==> !readOk
    ensures v.AnnotateFailed? <==> readOk && !annotateOk
    ensures v.Finished? ==>
      && readAt < at < |h| && h[at].Some?
      && OutcomeOf(h[at].value.conditions) == Some(v.outcome)
      && forall t :: 0 <= t <= readAt ==> !Shows(h[t], h[at].value.uid)
    ensures v.NotRecreated? ==> forall i :: 0 <= i <= last ==>
      polls[i].ok && (h[polls[i].at].None? || (h[readAt].Some? && h[polls[i].at].value.uid == h[readAt].value.uid))
    ensures v.NotFinished? ==>
      && readAt < at < |h| && h[at].Some?
      && forall t :: 0 <= t <= readAt ==> !Shows(h[t], h[at].value.uid)
    ensures v.QueryFailed? ==> exists i :: 0 <= i < |polls| && !polls[i].ok
  {
    at := readAt;
    if !readOk {
      return ReadFailed, at;
    }
    var was := if h[readAt].Some? then Some(h[readAt].value.uid) else None;
    if !annotateOk {
      return AnnotateFailed, at;
    }
    var w, k := WaitJobRecreated(h, polls, last, was);
    if w.Broken? {
      return QueryFailed, at;
    }
    if w.TimedOut? {
      return NotRecreated, at;
    }
    var seen := polls[k].at;
    NewIsUnseen(h, readAt, seen, seen);
    var n := if k + 1 <= last then last else k + 1;
    var w2, outcome, m := WaitJobTerminal(h, polls, k + 1, n);
    if w2.Broken? {
      return QueryFailed, at;
    }
    if w2.TimedOut? {
      return NotFinished, seen;
    }
    at := polls[m].at;
    NewIsUnseen(h, readAt, seen, at);
    return Finished(outcome), at;
  }

  /** Once a job other than the old one has been seen, no job of before the read is ever seen again. */
  lemma {:induction false} NewIsUnseen(h: History, readAt: nat, seen: nat, at: nat)
    requires NeverReused(h) && readAt <= seen <= at < |h|
    requires IsNew(h[seen], if h[readAt].Some? then Some(h[readAt].value.uid) else None)
    ensures readAt < seen
    ensures h[at].Some? ==> forall t :: 0 <= t <= readAt ==> !Shows(h[t], h[at].value.uid)
  {
    if h[at].Some? {
      var uid := h[at].value.uid;
      forall t | 0 <= t <= readAt ensures !Shows(h[t], uid) {
        if Shows(h[t], uid) && t < readAt {
          assert Shows(h[readAt], uid);
        }
        if Shows(h[readAt], uid) && seen < at {
          assert Shows(h[seen], uid);
        }
      }
    }
  }
}
