/**
 What the record of a finished job can say, and how early a deadline can finish it, over whole runs.
 */
module JobOutcomes {
  import opened Common
  import opened Jobs
  import opened JobRuns

  // ---- Status and exit code ------------------------------------------------------------------

  /** The code 124 stands for a timeout and for nothing else, and an error has the code -1. */
  predicate Consistent(j: Job) {
    && (!j.status.Running? ==> (j.status == Timeout <==> j.exitCode == 124))
    && (j.status == Error ==> j.exitCode == -1)
  }

  /** A job enters the store as Running. */
  lemma NewJobsRun(s: State, step: Step, id: JobId)
    requires Inv(s) && Enabled(s, step) && id !in s.jobs && id in Apply(s, step).jobs
    ensures RunningJob(Apply(s, step), id)
  {
    hide MakeJobId, IdsIssued, CurrentJobs, HeldJobs, Watches;
    if !IsSpecial(step) {
      hide Apply, Enabled, Inv;
      var d := MostStepsAreTame(s, step);
    }
  }

  lemma FinishedIsConsistent(s: State, step: Step, d: Driver, after: Job)
    requires d in s.current && FinishedBy(s, step, d, after)
    ensures Consistent(after)
  {}

  lemma StepKeepsConsistent(s: State, step: Step, id: JobId)
    requires Inv(s) && Enabled(s, step) && (id in s.jobs ==> Consistent(s.jobs[id]))
    ensures id in Apply(s, step).jobs ==> Consistent(Apply(s, step).jobs[id])
  {
    hide Apply, Enabled, Inv, FinishedBy, NotHeld;
    var s' := Apply(s, step);
    StepRespectsFinality(s, step, id);
    if RunningJob(s, id) && !RunningJob(s', id) {
      var d := OnlyItsOwnEventsFinishAJob(s, step, id);
      FinishedIsConsistent(s, step, d, s'.jobs[id]);
    } else if id !in s.jobs && id in s'.jobs {
      NewJobsRun(s, step, id);
    }
  }

  /** In every reachable state a job that has left Running timed out exactly if its exit code is 124, and ended in an
      error only with the code -1. */
  lemma {:induction false} CodesOverRuns(states: seq<State>, steps: seq<Step>, i: nat, id: JobId)
    requires Run(states, steps) && i < |states| && id in states[i].jobs
    ensures var job := states[i].jobs[id];
            && (!job.status.Running? ==> (job.status == Timeout <==> job.exitCode == 124))
            && (job.status == Error ==> job.exitCode == -1)
  {
    hide Inv, Apply, Enabled;
    if i > 0 {
      RunKeepsInv(states, steps, i - 1);
      if id in states[i - 1].jobs { CodesOverRuns(states, steps, i - 1, id); }
      assert Enabled(states[i - 1], steps[i - 1]) && states[i] == Apply(states[i - 1], steps[i - 1]);
      StepKeepsConsistent(states[i - 1], steps[i - 1], id);
    }
  }

  // ---- Deadlines -----------------------------------------------------------------------------

  /** Wherever the job is current, it is with this deadline, and no call is about to install it again. */
  ghost predicate Due(s: State, id: JobId, deadline: Option<nat>) {
    id in s.issued && NotHeld(s, id) && forall d | d in s.current && s.current[d].jobId == id ::
      s.current[d].deadline == deadline
  }

  lemma InstalledIsDue(s: State, t: Thread, timeout: nat)
    requires Inv(s) && Enabled(s, ExecInstall(t, timeout))
    ensures Due(Apply(s, ExecInstall(t, timeout)), s.execs[t].id, if timeout > 0 then Some(s.now + timeout) else None)
  {
    hide MakeJobId, IdsIssued, Watches;
    var s' := Apply(s, ExecInstall(t, timeout));
    assert Holding(s, t) && NotCurrent(s, HeldId(s, t));
    assert forall u | Holding(s', u) :: u != t && Holding(s, u) && HeldId(s', u) == HeldId(s, u);
  }

  lemma StepKeepsDue(s: State, step: Step, id: JobId, deadline: Option<nat>)
    requires Inv(s) && Enabled(s, step) && Due(s, id, deadline)
    ensures Due(Apply(s, step), id, deadline)
  {
    hide MakeJobId, IdsIssued;
    if IsSpecial(step) {
      FreshId(s);
      SpecialKeepsDue(s, step, id, deadline);
    } else {
      hide Apply, Enabled, CurrentJobs, HeldJobs, Watches;
      var d := MostStepsAreTame(s, step);
      var s' := Apply(s, step);
      assert forall t | Holding(s', t) :: Holding(s, t) && HeldId(s', t) == HeldId(s, t);
    }
  }

  lemma SpecialKeepsDue(s: State, step: Step, id: JobId, deadline: Option<nat>)
    requires Enabled(s, step) && Due(s, id, deadline) && IsSpecial(step)
    requires MakeJobId(s.now, s.counter) !in s.issued
    ensures Due(Apply(s, step), id, deadline)
  {
    hide MakeJobId;
    var s' := Apply(s, step);
    assert forall t | Holding(s', t) && !(step.ExecName? && t == step.t) ::
        Holding(s, t) && HeldId(s', t) == HeldId(s, t);
    if step.ExecInstall? { assert Holding(s, step.t); }
  }

  lemma {:induction false} DueOverRuns(states: seq<State>, steps: seq<Step>, i: nat, j: nat, id: JobId,
      deadline: Option<nat>)
    requires Run(states, steps) && i <= j < |states| && Due(states[i], id, deadline)
    ensures Due(states[j], id, deadline)
  {
    hide Inv, Apply, Enabled, Due;
    if i < j {
      RunKeepsInv(states, steps, j - 1);
      DueOverRuns(states, steps, i, j - 1, id, deadline);
      assert Enabled(states[j - 1], steps[j - 1]) && states[j] == Apply(states[j - 1], steps[j - 1]);
      StepKeepsDue(states[j - 1], steps[j - 1], id, deadline);
    }
  }

  /** A timeout thread finishes a job no earlier than the job's timeout after it was made current, and never a job
      without a timeout. */
  lemma NoEarlyTimeout(states: seq<State>, steps: seq<Step>, i: nat, j: nat, t: Thread, timeout: nat)
    requires Run(states, steps) && i < j < |steps|
    requires steps[i] == ExecInstall(t, timeout) && steps[j].WatchWakes?
    requires t in states[i].execs && states[i].execs[t].Registered?
    requires var id := states[i].execs[t].id; RunningJob(states[j], id) && !RunningJob(states[j + 1], id)
    ensures timeout > 0 && states[j].now >= states[i].now + timeout
  {
    hide Inv, Apply, Enabled;
    var id := states[i].execs[t].id;
    assert Enabled(states[i], steps[i]) && states[i + 1] == Apply(states[i], steps[i]);
    assert Enabled(states[j], steps[j]) && states[j + 1] == Apply(states[j], steps[j]);
    RunKeepsInv(states, steps, i);
    RunKeepsInv(states, steps, j);
    InstalledIsDue(states[i], t, timeout);
    DueOverRuns(states, steps, i + 1, j, id, if timeout > 0 then Some(states[i].now + timeout) else None);
    var d := OnlyItsOwnEventsFinishAJob(states[j], steps[j], id);
  }
}
