/**
 How a driver's shell, its timeout thread and close end, in all interleavings.
 */
module DriverLives {
  import opened Jobs
  import opened JobRuns

  ghost predicate Lives(s: State) {
    s.alive <= s.spawned && s.closing <= s.spawned && s.alive !! s.closing && s.ended <= s.stopped <= s.closing
  }

  /** What a step does to the shell of one driver. */
  lemma ShellStep(s: State, step: Step, d: Driver)
    requires Enabled(s, step)
    ensures d in Apply(s, step).alive <==> step == Spawn(d) || (d in s.alive && !Dies(s, step, d))
    ensures d in Apply(s, step).spawned <==> step == Spawn(d) || d in s.spawned
  {
    hide OnOutput, OnPid, OnEnd, Finalise, FinishLocked, Prune, MakeJobId;
  }

  /** What a step does to its close and to its timeout thread. */
  lemma CloseStep(s: State, step: Step, d: Driver)
    requires Enabled(s, step)
    ensures d in Apply(s, step).closing <==> d in s.closing || (step == CloseBegins(d) && d in s.alive)
    ensures d in Apply(s, step).stopped <==> d in s.stopped || step == CloseStopsWatch(d)
    ensures d in Apply(s, step).ended <==>
            d in s.ended || step == WatchExits(d) || (step == WatchWakes(d) && d in s.stopped)
  {
    hide OnOutput, OnPid, OnEnd, Finalise, FinishLocked, Prune, MakeJobId;
    EndStep(s, step, d);
  }

  lemma EndStep(s: State, step: Step, d: Driver)
    requires Enabled(s, step)
    ensures d in Apply(s, step).ended <==>
            d in s.ended || step == WatchExits(d) || (step == WatchWakes(d) && d in s.stopped)
  {
    hide OnOutput, OnPid, OnEnd, Finalise, FinishLocked, Prune, MakeJobId;
  }

  predicate Dies(s: State, step: Step, d: Driver) {
    || step == ReaderDies(d) || step == CloseBegins(d)
    || (step.ExecMarkDead? && step.t in s.execs && s.execs[step.t].d == d)
  }

  lemma StepKeepsLives(s: State, step: Step)
    requires Lives(s) && Enabled(s, step)
    ensures Lives(Apply(s, step))
  {
    var s' := Apply(s, step);
    forall d: Driver ensures
      && (d in s'.alive ==> d in s'.spawned && d !in s'.closing) && (d in s'.closing ==> d in s'.spawned)
      && (d in s'.ended ==> d in s'.stopped) && (d in s'.stopped ==> d in s'.closing)
    {
      ShellStep(s, step, d);
      CloseStep(s, step, d);
    }
    hide Apply;
  }

  lemma {:induction false} RunKeepsLives(states: seq<State>, steps: seq<Step>, i: nat)
    requires Run(states, steps) && i < |states|
    ensures Lives(states[i])
  {
    if i > 0 {
      hide Lives, Apply, Enabled;
      RunKeepsLives(states, steps, i - 1);
      assert Enabled(states[i - 1], steps[i - 1]) && states[i] == Apply(states[i - 1], steps[i - 1]);
      StepKeepsLives(states[i - 1], steps[i - 1]);
    } else {
      assert states[0] == Initial();
    }
  }

  /** In every run, close has told a driver's timeout thread to stop, or is about to, exactly if it once found the shell
      alive. */
  lemma {:induction false} ClosingIff(states: seq<State>, steps: seq<Step>, i: nat, d: Driver)
    requires Run(states, steps) && i < |states|
    ensures d in states[i].closing <==> exists k :: 0 <= k < i && steps[k] == CloseBegins(d) && d in states[k].alive
  {
    if i > 0 {
      hide Apply, Enabled;
      ClosingIff(states, steps, i - 1, d);
      assert Enabled(states[i - 1], steps[i - 1]) && states[i] == Apply(states[i - 1], steps[i - 1]);
      CloseStep(states[i - 1], steps[i - 1], d);
    } else {
      assert states[0] == Initial();
    }
  }

  /** Steps from `s` on. */
  ghost predicate Continues(s: State, states: seq<State>, steps: seq<Step>) {
    && |states| == |steps| + 1 && states[0] == s
    && forall i | 0 <= i < |steps| :: Enabled(states[i], steps[i]) && states[i + 1] == Apply(states[i], steps[i])
  }

  ghost predicate CanEnd(s: State, d: Driver) {
    exists states: seq<State>, steps: seq<Step> :: Continues(s, states, steps) && d in states[|steps|].ended
  }

  /** The shell died by itself, and close did not see it alive. */
  predicate Abandoned(s: State, d: Driver) {
    d in s.spawned && d !in s.alive && d !in s.closing && d !in s.stopped && d !in s.ended
  }

  lemma AbandonedKept(s: State, step: Step, d: Driver)
    requires Enabled(s, step) && Abandoned(s, d)
    ensures Abandoned(Apply(s, step), d)
  {
    assert step != Spawn(d) && step != CloseStopsWatch(d) && step != WatchExits(d);
    hide Apply, Enabled;
    ShellStep(s, step, d);
    CloseStep(s, step, d);
  }

  lemma {:induction false} AbandonedForever(s: State, states: seq<State>, steps: seq<Step>, i: nat, d: Driver)
    requires Continues(s, states, steps) && i < |states| && Abandoned(s, d)
    ensures Abandoned(states[i], d)
  {
    hide Apply, Enabled, Abandoned;
    if i > 0 {
      AbandonedForever(s, states, steps, i - 1, d);
      assert Enabled(states[i - 1], steps[i - 1]) && states[i] == Apply(states[i - 1], steps[i - 1]);
      AbandonedKept(states[i - 1], steps[i - 1], d);
    }
  }

  lemma Prolong(s: State, step: Step, d: Driver)
    requires Enabled(s, step) && CanEnd(Apply(s, step), d)
    ensures CanEnd(s, d)
  {
    hide Apply, Enabled;
    var states: seq<State>, steps: seq<Step> :| Continues(Apply(s, step), states, steps) && d in states[|steps|].ended;
    var states', steps' := [s] + states, [step] + steps;
    forall i | 0 <= i < |steps'|
      ensures Enabled(states'[i], steps'[i]) && states'[i + 1] == Apply(states'[i], steps'[i])
    {
      if i > 0 { assert Enabled(states[i - 1], steps[i - 1]) && states[i] == Apply(states[i - 1], steps[i - 1]); }
    }
    assert Continues(s, states', steps') && states'[|steps'|] == states[|steps|];
  }

  lemma EndedCanEnd(s: State, d: Driver)
    requires d in s.ended
    ensures CanEnd(s, d)
  {
    assert Continues(s, [s], []);
  }

  /** A stopped timeout thread ends with its next step. */
  lemma StoppedCanEnd(s: State, d: Driver)
    requires d in s.stopped
    ensures CanEnd(s, d)
  {
    hide CanEnd;
    if d in s.ended {
      EndedCanEnd(s, d);
    } else {
      var step := if d in s.watches then WatchWakes(d) else WatchExits(d);
      CloseStep(s, step, d);
      EndedCanEnd(Apply(s, step), d);
      Prolong(s, step, d);
    }
  }

  /** In every reachable state the timeout thread of a driver can still end exactly if its shell is alive or close found
      it alive: after a shell that died by itself, close waits for that thread for good. */
  lemma TimeoutThreadCanEndIff(states: seq<State>, steps: seq<Step>, i: nat, d: Driver)
    requires Run(states, steps) && i < |states| && d in states[i].spawned
    ensures CanEnd(states[i], d) <==> d in states[i].alive || d in states[i].closing
  {
    hide CanEnd, Apply;
    var s := states[i];
    RunKeepsLives(states, steps, i);
    if d in s.closing {
      ClosingCanEnd(s, d);
    } else if d in s.alive {
      CloseStep(s, CloseBegins(d), d);
      ClosingCanEnd(Apply(s, CloseBegins(d)), d);
      Prolong(s, CloseBegins(d), d);
    } else {
      AbandonedCannotEnd(s, d);
    }
  }

  lemma ClosingCanEnd(s: State, d: Driver)
    requires d in s.closing
    ensures CanEnd(s, d)
  {
    hide CanEnd;
    CloseStep(s, CloseStopsWatch(d), d);
    StoppedCanEnd(Apply(s, CloseStopsWatch(d)), d);
    Prolong(s, CloseStopsWatch(d), d);
  }

  lemma AbandonedCannotEnd(s: State, d: Driver)
    requires Abandoned(s, d)
    ensures !CanEnd(s, d)
  {
    hide Apply, Enabled;
    forall states: seq<State>, steps: seq<Step> | Continues(s, states, steps) ensures d !in states[|steps|].ended {
      AbandonedForever(s, states, steps, |steps|, d);
    }
  }
}
