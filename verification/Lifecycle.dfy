/**
  The life of an admitted PipelineRun: started and stopped for Kueue, marked pending by the
  status reconciler, advanced by Tekton (internal/controller/pipelinerun_controller.go,
  internal/controller/pipelinerun_status_reconciler.go).
 */
module Lifecycle {
  import opened Prelude
  import opened Runs

  datatype Tristate = Yes | No | Unknown

  /** The Succeeded condition. */
  datatype Condition = Condition(status: Tristate, reason: string, message: string)

  /** What the controllers look at. */
  datatype Job = Job(status: string, condition: Option<Condition>, managedBy: Option<string>)

  const PENDING_CONDITION :=
    Condition(Unknown, "PipelineRunPending", "PipelineRun is pending, waiting for MultiKueue admission")

  /** Tekton's IsDone: an absent condition counts as unknown. */
  predicate IsDone(j: Job) {
    j.condition.Some? && j.condition.value.status != Unknown
  }

  predicate IsSuspended(j: Job) {
    j.status == PENDING
  }

  datatype Verdict = Verdict(message: string, success: bool, finished: bool)

  /** `Finished`. */
  function Finished(j: Job): Verdict {
    if j.condition.None? then Verdict("", false, false)
    else
      var c := j.condition.value;
      Verdict(c.message, c.reason == "Succeeded" || c.reason == "Completed", IsDone(j))
  }

  /** The object `Stop` writes, if it writes one. */
  function StopWrite(j: Job): Option<Job> {
    if IsDone(j) || !(j.status == RUNNING || j.status == PENDING) then None else Some(j.(status := STOPPED))
  }

  /** `RunWithPodSetsInfo`: clears the status, whatever it was. */
  function StartWrite(j: Job): Job {
    j.(status := RUNNING)
  }

  /** The predicate that selects events for the status reconciler. */
  predicate NeedsPendingStatus(j: Job) {
    j.managedBy == Some(MULTI_KUEUE) && j.status == PENDING
  }

  /** The object the status reconciler writes, if it writes one. */
  function PendingWrite(j: Job): Option<Job> {
    if j.managedBy != Some(MULTI_KUEUE) || j.status != PENDING || j.condition.Some? then None
    else Some(j.(condition := Some(PENDING_CONDITION)))
  }

  // ------------------------------------------------------------------------ whole runs

  /** One attempt by somebody; controllers act on version `basis`, which may be stale. */
  datatype Attempt =
    | TryStart(basis: nat)
    | TryStop(basis: nat)
    | TryPending(basis: nat)
    | Progress(condition: Condition)   // Tekton reports any condition at all
    | Touch                            // any change to other fields

  /** All versions of the object so far, the resource version being the index. */
  type History = seq<Job>

  function Push(h: History, basis: nat, next: Option<Job>): History {
    if basis + 1 == |h| && next.Some? then h + [next.value] else h
  }

  function After(h: History, a: Attempt): History
    requires h != []
  {
    match a
    case TryStart(b) => if b < |h| && IsSuspended(h[b]) then Push(h, b, Some(StartWrite(h[b]))) else h
    case TryStop(b) => if b < |h| then Push(h, b, StopWrite(h[b])) else h
    case TryPending(b) => if b < |h| then Push(h, b, PendingWrite(h[b])) else h
    case Progress(c) => h + [h[|h| - 1].(condition := Some(c))]
    case Touch => h + [h[|h| - 1]]
  }

  function Exec(h: History, attempts: seq<Attempt>): (r: History)
    requires h != []
    ensures |h| <= |r| && h == r[..|h|]
    decreases attempts
  {
    if attempts == [] then h else Exec(After(h, attempts[0]), attempts[1..])
  }

  function Last(h: History): Job
    requires h != []
  {
    h[|h| - 1]
  }

  function Rank(status: string): nat {
    if status == PENDING then 0 else if status == RUNNING then 1 else if status == STOPPED then 2 else 3
  }

  /** From one version to the next. */
  predicate StepOk(x: Job, y: Job) {
    && Rank(x.status) <= Rank(y.status) <= 2
    && y.managedBy == x.managedBy
    && (y.status == x.status || y.condition == x.condition)
    && (x.condition.Some? ==> y.condition.Some?)
  }

  predicate AllStepsOk(h: History) {
    forall i :: 0 < i < |h| ==> StepOk(h[i - 1], h[i])
  }

  lemma AfterKeepsSteps(h: History, a: Attempt)
    requires h != [] && AllStepsOk(h) && Rank(Last(h).status) <= 2
    ensures AllStepsOk(After(h, a)) && Rank(Last(After(h, a)).status) <= 2
  {
  }

  lemma {:induction false} ExecKeepsSteps(h: History, attempts: seq<Attempt>)
    requires h != [] && AllStepsOk(h) && Rank(Last(h).status) <= 2
    ensures AllStepsOk(Exec(h, attempts))
    decreases attempts
  {
    if attempts != [] {
      AfterKeepsSteps(h, attempts[0]);
      ExecKeepsSteps(After(h, attempts[0]), attempts[1..]);
    }
  }

  lemma {:induction false} RankGrows(h: History, i: nat, j: nat)
    requires AllStepsOk(h) && i <= j < |h|
    ensures Rank(h[i].status) <= Rank(h[j].status)
    ensures h[i].managedBy == h[j].managedBy
    ensures h[i].condition.Some? ==> h[j].condition.Some?
    decreases j
  {
    if i < j {
      RankGrows(h, i, j - 1);
      assert StepOk(h[j - 1], h[j]);
    }
  }

  /**
    Monotone lifecycle: whatever the interleaving and however stale the reads, the status of a run
    admitted as pending only moves from pending to running to stopped, a stopped run stays stopped,
    and no write undoes somebody else's change to the other field.
   */
  lemma LifecycleMonotone(job: Job, attempts: seq<Attempt>, i: nat, j: nat)
    requires IsSuspended(job) && i <= j < |Exec([job], attempts)|
    ensures var h := Exec([job], attempts);
            && h[j].status in {PENDING, RUNNING, STOPPED}
            && (h[j].status == PENDING ==> h[i].status == PENDING)
            && (h[i].status == STOPPED ==> h[j].status == STOPPED)
            && (h[i].status == RUNNING ==> h[j].status != PENDING)
            && h[j].managedBy == job.managedBy
            && (i + 1 == j ==> h[j].status == h[i].status || h[j].condition == h[i].condition)
  {
    var h := Exec([job], attempts);
    ExecKeepsSteps([job], attempts);
    assert h[..1] == [job];
    assert h[0] == h[..1][0];
    RankGrows(h, i, j);
    RankGrows(h, 0, j);
    assert j > 0 ==> StepOk(h[j - 1], h[j]);
  }

  /** Somebody at Tekton reported this very condition. */
  predicate Reported(attempts: seq<Attempt>, c: Condition) {
    exists i :: 0 <= i < |attempts| && attempts[i] == Progress(c)
  }

  predicate Explained(attempts: seq<Attempt>, j: Job) {
    j.condition.Some? ==> j.condition.value == PENDING_CONDITION || Reported(attempts, j.condition.value)
  }

  lemma {:induction false} ExecExplains(h: History, attempts: seq<Attempt>, done: seq<Attempt>, j: nat)
    requires h != [] && forall i :: 0 <= i < |h| ==> Explained(done, h[i])
    requires j < |Exec(h, attempts)|
    ensures Explained(done + attempts, Exec(h, attempts)[j])
    decreases attempts
  {
    if attempts == [] {
      assert done + attempts == done;
    } else {
      var a, h' := attempts[0], After(h, attempts[0]);
      var done' := done + [a];
      assert done' + attempts[1..] == done + attempts;
      forall i | 0 <= i < |h'| ensures Explained(done', h'[i]) {
        assert done'[|done|] == a;
        if i < |h| {
          assert h'[i] == h[i];
          assert forall n :: 0 <= n < |done| ==> done'[n] == done[n];
        } else {
          assert Explained(done, Last(h));
          assert forall n :: 0 <= n < |done| ==> done'[n] == done[n];
        }
      }
      ExecExplains(h', attempts[1..], done', j);
    }
  }

  /**
    `Finished` speaks for Tekton: it reports an end only with message and success of a final
    condition Tekton reported.
   */
  lemma FinishedSpeaksForTekton(job: Job, attempts: seq<Attempt>, j: nat)
    requires job.condition.None? && j < |Exec([job], attempts)|
    ensures var v := Finished(Exec([job], attempts)[j]);
            v.finished || v.success ==>
              exists c :: && Reported(attempts, c)
                          && v == Verdict(c.message, c.reason in {"Succeeded", "Completed"}, c.status != Unknown)
  {
    ExecExplains([job], attempts, [], j);
    assert [] + attempts == attempts;
    var x := Exec([job], attempts)[j];
    if x.condition.Some? && (Finished(x).finished || Finished(x).success) {
      assert x.condition.value != PENDING_CONDITION;
      assert Reported(attempts, x.condition.value);
    }
  }

  // ------------------------------------------------------------------- at most once

  /** The attempt is a `Stop` call that returns true. */
  predicate Stops(h: History, a: Attempt) {
    a.TryStop? && a.basis + 1 == |h| && StopWrite(h[a.basis]).Some?
  }

  predicate MarksPending(h: History, a: Attempt) {
    a.TryPending? && a.basis + 1 == |h| && PendingWrite(h[a.basis]).Some?
  }

  function CountStops(h: History, attempts: seq<Attempt>): nat
    requires h != []
    decreases attempts
  {
    if attempts == [] then 0
    else (if Stops(h, attempts[0]) then 1 else 0) + CountStops(After(h, attempts[0]), attempts[1..])
  }

  function CountPending(h: History, attempts: seq<Attempt>): nat
    requires h != []
    decreases attempts
  {
    if attempts == [] then 0
    else (if MarksPending(h, attempts[0]) then 1 else 0) + CountPending(After(h, attempts[0]), attempts[1..])
  }

  /** `Stop` returns true at most once in any run, and not at all once the run is stopped. */
  lemma {:induction false} StopsAtMostOnce(h: History, attempts: seq<Attempt>)
    requires h != [] && Rank(Last(h).status) <= 2
    ensures CountStops(h, attempts) <= if Last(h).status == STOPPED then 0 else 1
    decreases attempts
  {
    if attempts != [] {
      var h' := After(h, attempts[0]);
      assert Rank(Last(h').status) <= 2;
      StopsAtMostOnce(h', attempts[1..]);
    }
  }

  /** The status reconciler writes at most once in any run, and never when there is a condition already. */
  lemma {:induction false} PendingAtMostOnce(h: History, attempts: seq<Attempt>)
    requires h != []
    ensures CountPending(h, attempts) <= if Last(h).condition.Some? then 0 else 1
    decreases attempts
  {
    if attempts != [] {
      PendingAtMostOnce(After(h, attempts[0]), attempts[1..]);
    }
  }

  /**
    When `Stop` returns true the run was not done, and every version from then on is stopped,
    whatever anybody attempts.
   */
  lemma StopIsFinal(h: History, a: Attempt, later: seq<Attempt>, j: nat)
    requires h != [] && AllStepsOk(h) && Rank(Last(h).status) <= 2 && Stops(h, a)
    requires |h| <= j < |Exec(After(h, a), later)|
    ensures !IsDone(Last(h))
    ensures Exec(After(h, a), later)[j].status == STOPPED
  {
    var h' := After(h, a);
    var r := Exec(h', later);
    AfterKeepsSteps(h, a);
    ExecKeepsSteps(h', later);
    assert r[..|h'|] == h';
    assert r[|h|] == r[..|h'|][|h|] == Last(h');
    RankGrows(r, |h|, j);
    assert StepOk(r[j - 1], r[j]);
  }

  /**
    A pending mark lands on a current object the event filter admits, without a condition, and
    reports neither end nor success.
   */
  lemma PendingMarkIsSafe(h: History, a: Attempt)
    requires h != [] && MarksPending(h, a)
    ensures NeedsPendingStatus(Last(h)) && Last(h).condition.None?
    ensures var marked := Last(After(h, a));
            && marked == Last(h).(condition := Some(PENDING_CONDITION))
            && !Finished(marked).finished && !Finished(marked).success && !IsDone(marked)
  {
  }

  /** A start does exactly this: a run that is suspended and seen as it is loses its status and keeps the rest. */
  lemma StartAttempt(h: History, b: nat)
    requires h != []
    ensures After(h, TryStart(b)) ==
            if b + 1 == |h| && Last(h).status == "PipelineRunPending"
            then h + [Job("", Last(h).condition, Last(h).managedBy)] else h
  {
  }

  /** A stop succeeds, and stops, exactly a run seen as it is, pending or running, and without a final condition. */
  lemma StopAttempt(h: History, b: nat)
    requires h != []
    ensures var j := Last(h);
            var stops := && b + 1 == |h|
                         && (j.status == "" || j.status == "PipelineRunPending")
                         && (j.condition.None? || j.condition.value.status == Unknown);
            && (Stops(h, TryStop(b)) <==> stops)
            && After(h, TryStop(b)) == if stops then h + [Job("StoppedRunFinally", j.condition, j.managedBy)] else h
  {
  }

  /** The reconciler marks exactly a run seen as it is, selected by the event predicate and without a condition. */
  lemma PendingAttempt(h: History, b: nat)
    requires h != []
    ensures var j := Last(h);
            var mark := Condition(Unknown, "PipelineRunPending",
                                  "PipelineRun is pending, waiting for MultiKueue admission");
            var marks := b + 1 == |h| && NeedsPendingStatus(j) && j.condition.None?;
            && (NeedsPendingStatus(j) <==>
                  j.managedBy == Some("kueue.x-k8s.io/multikueue") && j.status == "PipelineRunPending")
            && (MarksPending(h, TryPending(b)) <==> marks)
            && After(h, TryPending(b)) == if marks then h + [Job(j.status, Some(mark), j.managedBy)] else h
  {
  }

  predicate NoProgress(attempts: seq<Attempt>) {
    forall i :: 0 <= i < |attempts| ==> !attempts[i].Progress?
  }

  lemma {:induction false} ConditionStays(h: History, attempts: seq<Attempt>)
    requires h != [] && Last(h).condition.Some? && NoProgress(attempts)
    ensures Last(Exec(h, attempts)).condition == Last(h).condition
    decreases attempts
  {
    if attempts != [] {
      assert !attempts[0].Progress?;
      ConditionStays(After(h, attempts[0]), attempts[1..]);
    }
  }

  /**
    What Tekton reports is what `Finished` says, with its message, finished exactly for a final
    status, success exactly for the two reasons, and it stays so until Tekton reports again.
   */
  lemma ReportIsFinished(h: History, c: Condition, later: seq<Attempt>)
    requires h != [] && NoProgress(later)
    ensures Finished(Last(Exec(After(h, Progress(c)), later))) ==
            Verdict(c.message, c.reason == "Succeeded" || c.reason == "Completed", c.status == Yes || c.status == No)
  {
    ConditionStays(After(h, Progress(c)), later);
  }

  /** Starting keeps the order of statuses exactly on pending or running runs, so Kueue's own check is needed. */
  lemma StartNeedsGuard(j: Job)
    ensures Rank(j.status) <= Rank(StartWrite(j).status) <==> j.status == PENDING || j.status == RUNNING
    ensures j.status == STOPPED ==> Rank(StartWrite(j).status) < Rank(j.status)
  {
  }

  // ------------------------------------------------------ the object on the API server

  /** An object as some controller read it, perhaps a while ago. */
  datatype Seen = Seen(job: Job, version: nat)

  datatype WriteResult = Written | Unneeded | Conflict

  /** The last attempt of a run comes after all the others. */
  lemma {:induction false} ExecSnoc(h: History, attempts: seq<Attempt>, a: Attempt)
    requires h != []
    ensures Exec(h, attempts + [a]) == After(Exec(h, attempts), a)
    decreases attempts
  {
    if attempts == [] {
      assert [] + [a] == [a] && [a][1..] == [];
    } else {
      assert (attempts + [a])[1..] == attempts[1..] + [a];
      ExecSnoc(After(h, attempts[0]), attempts[1..], a);
    }
  }

  /** One object with its resource version; `history` and `log` are what the runs above speak about. */
  class ApiObject {
    var job: Job
    var version: nat
    ghost var history: History
    ghost var log: seq<Attempt>

    /** The object is the latest version of the run that its log describes. */
    ghost predicate Valid()
      reads this
    {
      && history != []
      && |history| == version + 1
      && job == Last(history)
      && history == Exec([history[0]], log)
    }

    /** A read is genuine when the object had this value at this version. */
    ghost predicate Genuine(p: Seen)
      requires Valid()
      reads this
    {
      p.version < |history| && p.job == history[p.version]
    }

    constructor (j: Job)
      ensures Valid() && history == [j] && log == []
    {
      job, version, history, log := j, 0, [j], [];
    }

    method Get() returns (p: Seen)
      requires Valid()
      ensures Genuine(p) && p.version + 1 == |history|
    {
      return Seen(job, version);
    }

    /** A write carries the resource version it is based on and is refused when that is not current. */
    method Write(next: Job, basis: nat, ghost a: Attempt) returns (ok: bool)
      requires Valid()
      requires After(history, a) == Push(history, basis, Some(next))
      modifies this
      ensures Valid()
      ensures ok <==> basis + 1 == |old(history)|
      ensures history == After(old(history), a) && log == old(log) + [a]
    {
      ExecSnoc([history[0]], log, a);
      ok := basis == version;
      if ok {
        job, version := next, version + 1;
      }
      history, log := After(history, a), log + [a];
    }

    /** An attempt that decides not to write. */
    ghost method Skip(a: Attempt)
      requires Valid() && After(history, a) == history
      modifies `log
      ensures Valid() && log == old(log) + [a]
    {
      ExecSnoc([history[0]], log, a);
      log := log + [a];
    }

    method Stop(p: Seen) returns (r: WriteResult)
      requires Valid() && Genuine(p)
      modifies this
      ensures Valid()
      ensures history == After(old(history), TryStop(p.version)) && log == old(log) + [TryStop(p.version)]
      ensures r == Written <==> Stops(old(history), TryStop(p.version))
      ensures r == Written ==> job == Job("StoppedRunFinally", p.job.condition, p.job.managedBy)
      ensures r == Unneeded <==> StopWrite(p.job).None?
    {
      var pendingOrRunning := p.job.status == RUNNING || p.job.status == PENDING;
      if IsDone(p.job) || !pendingOrRunning {
        Skip(TryStop(p.version));
        return Unneeded;
      }
      var ok := Write(p.job.(status := STOPPED), p.version, TryStop(p.version));
      return if ok then Written else Conflict;
    }

    /** Kueue starts a job it sees suspended. */
    method Start(p: Seen) returns (r: WriteResult)
      requires Valid() && Genuine(p)
      modifies this
      ensures Valid()
      ensures history == After(old(history), TryStart(p.version)) && log == old(log) + [TryStart(p.version)]
      ensures r == Written <==> IsSuspended(p.job) && p.version + 1 == |old(history)|
      ensures r == Written ==> job == Job("", p.job.condition, p.job.managedBy)
      ensures r == Unneeded <==> !IsSuspended(p.job)
    {
      if !IsSuspended(p.job) {
        Skip(TryStart(p.version));
        return Unneeded;
      }
      var ok := Write(StartWrite(p.job), p.version, TryStart(p.version));
      return if ok then Written else Conflict;
    }

    /** `pipelineRunStatusReconciler.Reconcile` on the object it got. */
    method ReconcileStatus(p: Seen) returns (r: WriteResult)
      requires Valid() && Genuine(p)
      modifies this
      ensures Valid()
      ensures history == After(old(history), TryPending(p.version)) && log == old(log) + [TryPending(p.version)]
      ensures r == Written <==> MarksPending(old(history), TryPending(p.version))
      ensures r == Written ==> job == Job(p.job.status, Some(PENDING_CONDITION), p.job.managedBy)
      ensures r == Unneeded <==> PendingWrite(p.job).None?
    {
      if p.job.managedBy.None? || p.job.managedBy.value != MULTI_KUEUE {
        Skip(TryPending(p.version));
        return Unneeded;
      }
      if p.job.status != PENDING {
        Skip(TryPending(p.version));
        return Unneeded;
      }
      if p.job.condition.Some? {
        Skip(TryPending(p.version));
        return Unneeded;
      }
      var ok := Write(p.job.(condition := Some(PENDING_CONDITION)), p.version, TryPending(p.version));
      return if ok then Written else Conflict;
    }

    /** Tekton reports a condition. */
    method Report(c: Condition)
      requires Valid()
      modifies this
      ensures Valid()
      ensures history == After(old(history), Progress(c)) && log == old(log) + [Progress(c)]
    {
      var ok := Write(job.(condition := Some(c)), version, Progress(c));
    }

    /** Whatever calls it went through, an object created suspended has lived a monotone life. */
    lemma LivesMonotonely(i: nat, j: nat)
      requires Valid() && IsSuspended(history[0]) && i <= j < |history|
      ensures Rank(history[i].status) <= Rank(history[j].status) <= 2
      ensures history[i].status == STOPPED ==> history[j].status == STOPPED
      ensures history[j].managedBy == history[i].managedBy
      ensures CountStops([history[0]], log) <= 1 && CountPending([history[0]], log) <= 1
    {
      ExecKeepsSteps([history[0]], log);
      RankGrows(history, i, j);
      LifecycleMonotone(history[0], log, i, j);
      StopsAtMostOnce([history[0]], log);
      PendingAtMostOnce([history[0]], log);
    }
  }
}
