/**
 All interleavings of callers, readers, timeout threads, closers and the pruning of the store,
 over any number of drivers that share one job store. A step is one critical section.
 */
module JobRuns {
  import opened Common
  import opened Jobs
  import opened Unsigned

  type Driver = nat
  type Thread = nat

  /** Where a call of exec stands. */
  datatype Phase =
    | Entered(d: Driver)               // saw the shell alive
    | Waited(d: Driver)                // saw the driver idle, and gave up the lock again
    | Named(d: Driver, id: JobId)      // made its job id
    | Registered(d: Driver, id: JobId) // put the job into the store
    | Installed(d: Driver, id: JobId)  // made it the current job
    | Broken(d: Driver)                // failed to write to the shell

  datatype State = State(
    jobs: Store,
    current: map<Driver, Pending>,
    alive: set<Driver>,
    execs: map<Thread, Phase>,
    watches: map<Driver, (JobId, nat)>,  // what a timeout thread sleeps on, and until when
    spawned: set<Driver>,
    closing: set<Driver>,                // close found the shell alive
    stopped: set<Driver>,                // timeout threads told to stop
    ended: set<Driver>,                  // timeout threads that have returned
    counter: nat,
    issued: set<JobId>,
    now: nat)

  datatype Step =
    | Tick(ms: nat)
    | Spawn(d: Driver)
    | ExecEnter(t: Thread, d: Driver)
    | ExecIdle(t: Thread)
    | ExecGiveUp(t: Thread)
    | ExecName(t: Thread)
    | ExecRegister(t: Thread)
    | ExecInstall(t: Thread, timeout: nat)
    | ExecWritten(t: Thread)
    | ExecWriteFails(t: Thread)
    | ExecMarkDead(t: Thread)
    | ReaderOutput(d: Driver, chunk: string)
    | ReaderPid(d: Driver, tokenMatches: bool, id: JobId, pid: int, pgid: int)
    | ReaderEnd(d: Driver, tokenMatches: bool, id: JobId, code: int)
    | ReaderDies(d: Driver)
    | ReaderFinalises(d: Driver)
    | WatchSleeps(d: Driver)
    | WatchWakes(d: Driver)
    | WatchExits(d: Driver)
    | CloseBegins(d: Driver)
    | CloseStopsWatch(d: Driver)
    | CloseFinalises(d: Driver)
    | PruneStore(clock: nat, maxAge: nat)

  function LocalOf(s: State, d: Driver): Local {
    Local(s.jobs, if d in s.current then Some(s.current[d]) else None)
  }

  function With(s: State, d: Driver, l: Local): State {
    s.(jobs := l.jobs, current := match l.current case Some(p) => s.current[d := p] case None => s.current - {d})
  }

  function Drop(s: State, t: Thread): State { s.(execs := s.execs - {t}) }

  predicate Enabled(s: State, step: Step) {
    match step
    case Tick(_) => true
    case Spawn(d) => d !in s.spawned
    case ExecEnter(t, d) => t !in s.execs && d in s.alive
    case ExecIdle(t) => t in s.execs && s.execs[t].Entered? && s.execs[t].d !in s.current
    case ExecGiveUp(t) => t in s.execs && s.execs[t].Entered?
    case ExecName(t) => t in s.execs && s.execs[t].Waited?
    case ExecRegister(t) => t in s.execs && s.execs[t].Named?
    case ExecInstall(t, _) => t in s.execs && s.execs[t].Registered?
    case ExecWritten(t) => t in s.execs && s.execs[t].Installed?
    case ExecWriteFails(t) => t in s.execs && s.execs[t].Installed?
    case ExecMarkDead(t) => t in s.execs && s.execs[t].Broken?
    case ReaderFinalises(d) => d !in s.alive
    case WatchSleeps(d) =>
      d !in s.stopped && d !in s.ended && d !in s.watches && d in s.current && s.current[d].deadline.Some?
    case WatchWakes(d) =>
      d in s.watches &&
      (d in s.stopped || d !in s.current || s.current[d].jobId != s.watches[d].0 || s.now >= s.watches[d].1)
    case WatchExits(d) => d in s.stopped && d !in s.watches && d !in s.ended
    case CloseBegins(d) => d in s.spawned
    case CloseStopsWatch(d) => d in s.closing
    case CloseFinalises(d) => d in s.closing && d in s.ended
    case PruneStore(clock, _) => clock <= s.now
    case _ => true
  }

  function Apply(s: State, step: Step): State
    requires Enabled(s, step)
  {
    match step
    case Tick(ms) => s.(now := s.now + ms)
    case Spawn(d) => s.(alive := s.alive + {d}, spawned := s.spawned + {d})
    case ExecEnter(t, d) => s.(execs := s.execs[t := Entered(d)])
    case ExecIdle(t) => s.(execs := s.execs[t := Waited(s.execs[t].d)])
    case ExecGiveUp(t) => Drop(s, t)
    case ExecName(t) =>
      var id := MakeJobId(s.now, s.counter);
      s.(execs := s.execs[t := Named(s.execs[t].d, id)], counter := s.counter + 1, issued := s.issued + {id})
    case ExecRegister(t) =>
      var p := s.execs[t];
      s.(execs := s.execs[t := Registered(p.d, p.id)], jobs := s.jobs[p.id := Job(Running, -1, "", 0)])
    case ExecInstall(t, timeout) =>
      var p := s.execs[t];
      var deadline := if timeout > 0 then Some(s.now + timeout) else None;
      s.(execs := s.execs[t := Installed(p.d, p.id)], current := s.current[p.d := Pending(p.id, deadline, -1)])
    case ExecWritten(t) => Drop(s, t)
    case ExecWriteFails(t) =>
      var p := s.execs[t];
      With(s, p.d, FinishLocked(LocalOf(s, p.d), p.id, Error, -1, s.now)).(execs := s.execs[t := Broken(p.d)])
    case ExecMarkDead(t) => Drop(s, t).(alive := s.alive - {s.execs[t].d})
    case ReaderOutput(d, chunk) => With(s, d, OnOutput(LocalOf(s, d), chunk))
    case ReaderPid(d, ok, id, pid, pgid) => With(s, d, OnPid(LocalOf(s, d), ok, id, pid, pgid))
    case ReaderEnd(d, ok, id, code) => With(s, d, OnEnd(LocalOf(s, d), ok, id, code, s.now))
    case ReaderDies(d) => s.(alive := s.alive - {d})
    case ReaderFinalises(d) => With(s, d, Finalise(LocalOf(s, d), s.now))
    case WatchSleeps(d) => s.(watches := s.watches[d := (s.current[d].jobId, s.current[d].deadline.value)])
    case WatchWakes(d) =>
      var s' := s.(watches := s.watches - {d});
      if d in s.stopped then s'.(ended := s.ended + {d})
      else With(s', d, FinishLocked(LocalOf(s, d), s.watches[d].0, Timeout, TIMEOUT_CODE, s.now))
    case WatchExits(d) => s.(ended := s.ended + {d})
    case CloseBegins(d) => if d in s.alive then s.(alive := s.alive - {d}, closing := s.closing + {d}) else s
    case CloseStopsWatch(d) => s.(stopped := s.stopped + {d})
    case CloseFinalises(d) => With(s, d, Finalise(LocalOf(s, d), s.now))
    case PruneStore(clock, maxAge) => s.(jobs := Prune(s.jobs, clock, maxAge))
  }

  function Initial(): State { State(map[], map[], {}, map[], map[], {}, {}, {}, {}, 0, {}, 0) }

  ghost predicate Run(states: seq<State>, steps: seq<Step>) {
    && |states| == |steps| + 1 && states[0] == Initial()
    && forall i | 0 <= i < |steps| :: Enabled(states[i], steps[i]) && states[i + 1] == Apply(states[i], steps[i])
  }

  // ---- The invariant ---------------------------------------------------------------------

  /** A call of exec that has made its job id and not yet made the job current. */
  predicate Holding(s: State, t: Thread) {
    t in s.execs && (s.execs[t].Named? || s.execs[t].Registered?)
  }

  function HeldId(s: State, t: Thread): JobId
    requires Holding(s, t)
  {
    s.execs[t].id
  }

  ghost predicate NotHeld(s: State, id: JobId) {
    forall t | Holding(s, t) :: HeldId(s, t) != id
  }

  predicate NotCurrent(s: State, id: JobId) {
    forall d | d in s.current :: s.current[d].jobId != id
  }

  predicate RunningJob(s: State, id: JobId) { id in s.jobs && s.jobs[id].status.Running? }

  /** Every id ever made carries a counter value below the counter. */
  ghost predicate IdsIssued(s: State) {
    forall id | id in s.issued :: exists ms: nat, n: nat :: n < s.counter && id == MakeJobId(ms, n)
  }

  ghost predicate CurrentJobs(s: State) {
    && (forall d | d in s.current :: RunningJob(s, s.current[d].jobId))
    && (forall d, e | d in s.current && e in s.current && s.current[d].jobId == s.current[e].jobId :: d == e)
  }

  ghost predicate HeldJobs(s: State) {
    && (forall t | Holding(s, t) :: HeldId(s, t) in s.issued && NotCurrent(s, HeldId(s, t)))
    && (forall t | Holding(s, t) ::
          if s.execs[t].Named? then HeldId(s, t) !in s.jobs else RunningJob(s, HeldId(s, t)))
    && (forall t, u | Holding(s, t) && Holding(s, u) && HeldId(s, t) == HeldId(s, u) :: t == u)
  }

  ghost predicate Watches(s: State) {
    && (forall d | d in s.watches :: s.watches[d].0 in s.issued && NotHeld(s, s.watches[d].0))
    && (forall d | d in s.current && d in s.watches && s.current[d].jobId == s.watches[d].0 ::
          s.current[d].deadline == Some(s.watches[d].1))
  }

  ghost predicate Inv(s: State) {
    && IdsIssued(s) && s.jobs.Keys <= s.issued
    && CurrentJobs(s) && HeldJobs(s) && Watches(s)
  }

  lemma FreshId(s: State)
    requires IdsIssued(s)
    ensures MakeJobId(s.now, s.counter) !in s.issued
  {
    var id := MakeJobId(s.now, s.counter);
    if id in s.issued {
      var ms: nat, n: nat :| n < s.counter && id == MakeJobId(ms, n);
      JobIdsDiffer(ms, n, s.now, s.counter);
    }
  }

  lemma NamingKeepsInv(s: State, t: Thread)
    requires Inv(s) && Enabled(s, ExecName(t))
    ensures Inv(Apply(s, ExecName(t)))
  {
    hide MakeJobId;
    FreshId(s);
    var s' := Apply(s, ExecName(t));
    var id := MakeJobId(s.now, s.counter);
    assert IdsIssued(s') by {
      forall x | x in s'.issued ensures exists ms: nat, n: nat :: n < s'.counter && x == MakeJobId(ms, n) {
        if x == id {
          assert s.counter < s'.counter && x == MakeJobId(s.now, s.counter);
        } else {
          var ms: nat, n: nat :| n < s.counter && x == MakeJobId(ms, n);
          assert n < s'.counter;
        }
      }
    }
    hide IdsIssued;
    assert forall u | u != t && Holding(s', u) :: Holding(s, u) && HeldId(s', u) == HeldId(s, u);
  }

  lemma StepKeepsInv(s: State, step: Step)
    requires Inv(s) && Enabled(s, step)
    ensures Inv(Apply(s, step))
  {
    if step.ExecName? {
      NamingKeepsInv(s, step.t);
    } else if IsSpecial(step) {
      SpecialKeepsInv(s, step);
    } else {
      hide Inv, Apply, Enabled;
      var d := MostStepsAreTame(s, step);
      TameKeepsInv(s, Apply(s, step), d);
    }
  }

  /** The steps that add jobs, hand them over, start a watch, or prune. */
  predicate IsSpecial(step: Step) {
    step.ExecName? || step.ExecRegister? || step.ExecInstall? || step.WatchSleeps? || step.PruneStore?
  }

  /** What all other steps have in common: at most the current job of driver `d` changes, and if it leaves
      Running then it is no longer current. */
  ghost predicate Tame(s: State, s': State, d: Driver) {
    && s'.issued == s.issued && s'.counter == s.counter && s'.jobs.Keys == s.jobs.Keys
    && (forall e | e in s'.current ::
          e in s.current && s'.current[e].jobId == s.current[e].jobId
              && s'.current[e].deadline == s.current[e].deadline)
    && (forall e | e in s.current && e != d :: e in s'.current)
    && (forall id | id in s.jobs && !(d in s.current && s.current[d].jobId == id) :: s'.jobs[id] == s.jobs[id])
    && (d in s.current ==>
          var id := s.current[d].jobId;
          id in s.jobs &&
          if d in s'.current then s'.jobs[id].status == s.jobs[id].status else !s'.jobs[id].status.Running?)
    && (forall t | Holding(s', t) :: t in s.execs && s.execs[t] == s'.execs[t])
    && (forall t | Holding(s, t) :: Holding(s', t))
    && (forall e | e in s'.watches :: e in s.watches && s'.watches[e] == s.watches[e])
  }

  predicate IsQuiet(step: Step) {
    step.Tick? || step.Spawn? || step.ExecEnter? || step.ExecIdle? || step.ExecGiveUp? || step.ExecWritten? ||
    step.ExecMarkDead? || step.ReaderDies? || step.WatchExits? || step.CloseBegins? || step.CloseStopsWatch?
  }

  /** The same for one driver's view. */
  predicate Tamed(l: Local, l': Local) {
    && l'.jobs.Keys == l.jobs.Keys
    && (l.current.None? ==> l' == l)
    && (l.current.Some? ==>
          var id := l.current.value.jobId;
          && (forall x | x in l.jobs && x != id :: l'.jobs[x] == l.jobs[x])
          && id in l.jobs
          && if l'.current.None? then !l'.jobs[id].status.Running?
             else l'.jobs[id].status == l.jobs[id].status &&
                  l'.current.value.jobId == id && l'.current.value.deadline == l.current.value.deadline)
  }

  lemma LocalStepsAreTamed(l: Local, chunk: string, ok: bool, id: JobId, status: Status, n: int, m: int, now: nat)
    requires l.current.Some? ==> l.current.value.jobId in l.jobs
    requires !status.Running?
    ensures Tamed(l, OnOutput(l, chunk)) && Tamed(l, OnPid(l, ok, id, n, m)) && Tamed(l, Finalise(l, now))
    ensures Tamed(l, FinishLocked(l, id, status, n, now)) && Tamed(l, OnEnd(l, ok, id, n, now))
  {}

  lemma TamedGivesTame(s: State, s0: State, d: Driver, l': Local)
    requires Tamed(LocalOf(s, d), l') && s0 == s.(watches := s0.watches, execs := s0.execs)
    requires forall e | e in s0.watches :: e in s.watches && s0.watches[e] == s.watches[e]
    requires forall t | Holding(s0, t) :: t in s.execs && s.execs[t] == s0.execs[t]
    requires forall t | Holding(s, t) :: Holding(s0, t)
    ensures Tame(s, With(s0, d, l'), d)
  {
    var s' := With(s0, d, l');
    assert forall t :: Holding(s', t) <==> Holding(s0, t);
    assert s'.execs == s0.execs;
  }

  /** Nothing but the clock, the shells and the progress of calls that hold no job. */
  lemma QuietIsTame(s: State, s': State)
    requires CurrentJobs(s)
    requires s' == s.(now := s'.now, alive := s'.alive, spawned := s'.spawned, closing := s'.closing,
                    stopped := s'.stopped, ended := s'.ended, execs := s'.execs)
    requires forall t | Holding(s', t) :: t in s.execs && s.execs[t] == s'.execs[t]
    requires forall t | Holding(s, t) :: Holding(s', t)
    ensures Tame(s, s', 0)
  {}

  lemma QuietStepsAreTame(s: State, step: Step)
    requires Enabled(s, step) && IsQuiet(step) && CurrentJobs(s)
    ensures Tame(s, Apply(s, step), 0)
  {
    hide Tame, CurrentJobs;
    QuietIsTame(s, Apply(s, step));
  }

  lemma MostStepsAreTame(s: State, step: Step) returns (d: Driver)
    requires Inv(s) && Enabled(s, step) && !IsSpecial(step)
    ensures Tame(s, Apply(s, step), d)
  {
    hide IdsIssued, HeldJobs, Watches, Tame, Tamed, OnOutput, OnPid, OnEnd, Finalise, FinishLocked, With;
    if IsQuiet(step) {
      d := 0;
      QuietStepsAreTame(s, step);
    } else {
      d := if step.ExecWriteFails? then s.execs[step.t].d else step.d;
      var l := LocalOf(s, d);
      match step
      case WatchWakes(_) =>
        var s0 := s.(watches := s.watches - {d});
        LocalStepsAreTamed(l, "", true, s.watches[d].0, Timeout, TIMEOUT_CODE, 0, s.now);
        if d in s.stopped {
          WatchDropIsTame(s, d);
        } else {
          TamedGivesTame(s, s0, d, FinishLocked(l, s.watches[d].0, Timeout, TIMEOUT_CODE, s.now));
        }
      case ExecWriteFails(t) =>
        var s0 := s.(execs := s.execs[t := Broken(d)]);
        LocalStepsAreTamed(l, "", true, s.execs[t].id, Error, -1, 0, s.now);
        TamedGivesTame(s, s0, d, FinishLocked(l, s.execs[t].id, Error, -1, s.now));
        WithKeepsExecs(s, d, FinishLocked(l, s.execs[t].id, Error, -1, s.now), s0.execs);
      case ReaderOutput(_, chunk) =>
        LocalStepsAreTamed(l, chunk, true, "", Error, 0, 0, s.now);
        TamedGivesTame(s, s, d, OnOutput(l, chunk));
      case ReaderPid(_, ok, id, pid, pgid) =>
        LocalStepsAreTamed(l, "", ok, id, Error, pid, pgid, s.now);
        TamedGivesTame(s, s, d, OnPid(l, ok, id, pid, pgid));
      case ReaderEnd(_, ok, id, code) =>
        LocalStepsAreTamed(l, "", ok, id, Error, code, 0, s.now);
        TamedGivesTame(s, s, d, OnEnd(l, ok, id, code, s.now));
      case _ =>
        LocalStepsAreTamed(l, "", true, "", Error, 0, 0, s.now);
        TamedGivesTame(s, s, d, Finalise(l, s.now));
    }
  }

  lemma WatchDropIsTame(s: State, d: Driver)
    requires CurrentJobs(s)
    ensures Tame(s, s.(watches := s.watches - {d}, ended := s.ended + {d}), d)
  {}

  lemma WithKeepsExecs(s: State, d: Driver, l: Local, execs: map<Thread, Phase>)
    ensures With(s, d, l).(execs := execs) == With(s.(execs := execs), d, l)
  {}

  lemma TameKeepsInv(s: State, s': State, d: Driver)
    requires Inv(s) && Tame(s, s', d)
    ensures Inv(s')
  {
    assert IdsIssued(s') by { IssuedUnchanged(s, s'); }
    hide IdsIssued, CurrentJobs, HeldJobs, Watches;
    TameKeepsCurrentJobs(s, s', d);
    TameKeepsHeldJobs(s, s', d);
    TameKeepsWatches(s, s', d);
  }

  lemma TameKeepsCurrentJobs(s: State, s': State, d: Driver)
    requires CurrentJobs(s) && Tame(s, s', d)
    ensures CurrentJobs(s')
  {}

  lemma TameKeepsWatches(s: State, s': State, d: Driver)
    requires Watches(s) && Tame(s, s', d)
    ensures Watches(s')
  {
    assert forall t | Holding(s', t) :: Holding(s, t) && HeldId(s', t) == HeldId(s, t);
  }

  lemma TameKeepsHeldJobs(s: State, s': State, d: Driver)
    requires CurrentJobs(s) && HeldJobs(s) && Tame(s, s', d)
    ensures HeldJobs(s')
  {
    assert forall t | Holding(s', t) :: Holding(s, t) && HeldId(s', t) == HeldId(s, t);
    forall t | Holding(s', t)
      ensures HeldId(s', t) in s'.issued && NotCurrent(s', HeldId(s', t))
      ensures if s'.execs[t].Named? then HeldId(s', t) !in s'.jobs else RunningJob(s', HeldId(s', t))
    {
      assert Holding(s, t) && NotCurrent(s, HeldId(s, t));
    }
  }

  lemma SpecialKeepsInv(s: State, step: Step)
    requires Inv(s) && Enabled(s, step) && IsSpecial(step) && !step.ExecName?
    ensures Inv(Apply(s, step))
  {
    var s' := Apply(s, step);
    assert IdsIssued(s') by { IssuedUnchanged(s, s'); }
    hide IdsIssued, CurrentJobs, HeldJobs, Watches;
    if step.ExecRegister? {
      RegisterKeepsInv(s, step.t);
    } else if step.ExecInstall? {
      InstallKeepsInv(s, step.t, step.timeout);
    } else if step.WatchSleeps? {
      WatchKeepsInv(s, step.d);
    } else {
      PruneKeepsInv(s, step.clock, step.maxAge);
    }
  }

  lemma RegisterKeepsInv(s: State, t: Thread)
    requires Inv(s) && Enabled(s, ExecRegister(t))
    ensures CurrentJobs(Apply(s, ExecRegister(t))) && HeldJobs(Apply(s, ExecRegister(t)))
            && Watches(Apply(s, ExecRegister(t)))
  {
    hide IdsIssued;
    var s' := Apply(s, ExecRegister(t));
    assert Holding(s, t) && NotCurrent(s, HeldId(s, t));
    assert forall u | Holding(s', u) :: Holding(s, u) && HeldId(s', u) == HeldId(s, u);
  }

  lemma InstallKeepsInv(s: State, t: Thread, timeout: nat)
    requires Inv(s) && Enabled(s, ExecInstall(t, timeout))
    ensures var s' := Apply(s, ExecInstall(t, timeout)); CurrentJobs(s') && HeldJobs(s') && Watches(s')
  {
    hide IdsIssued;
    var s' := Apply(s, ExecInstall(t, timeout));
    assert Holding(s, t) && NotCurrent(s, HeldId(s, t)) && RunningJob(s, HeldId(s, t));
    assert forall u | Holding(s', u) :: u != t && Holding(s, u) && HeldId(s', u) == HeldId(s, u);
  }

  lemma WatchKeepsInv(s: State, d: Driver)
    requires Inv(s) && Enabled(s, WatchSleeps(d))
    ensures var s' := Apply(s, WatchSleeps(d)); CurrentJobs(s') && HeldJobs(s') && Watches(s')
  {
    hide IdsIssued;
    var s' := Apply(s, WatchSleeps(d));
    assert forall u | Holding(s', u) :: Holding(s, u) && HeldId(s', u) == HeldId(s, u);
    assert forall u | Holding(s, u) :: NotCurrent(s, HeldId(s, u));
  }

  lemma PruneKeepsInv(s: State, clock: nat, maxAge: nat)
    requires Inv(s) && clock <= s.now
    ensures var s' := Apply(s, PruneStore(clock, maxAge)); CurrentJobs(s') && HeldJobs(s') && Watches(s')
  {
    hide IdsIssued;
    var s' := Apply(s, PruneStore(clock, maxAge));
    assert forall u | Holding(s', u) :: Holding(s, u) && HeldId(s', u) == HeldId(s, u);
  }

  lemma IssuedUnchanged(s: State, s': State)
    requires IdsIssued(s) && s'.issued == s.issued && s'.counter == s.counter
    ensures IdsIssued(s')
  {}

  lemma {:induction false} RunKeepsInv(states: seq<State>, steps: seq<Step>, i: nat)
    requires Run(states, steps) && i < |states|
    ensures Inv(states[i])
  {
    if i > 0 {
      RunKeepsInv(states, steps, i - 1);
      StepKeepsInv(states[i - 1], steps[i - 1]);
    }
  }

  // ---- Finality ------------------------------------------------------------------------------

  /** Whatever step comes next, the record of a job that has left Running stays as it is, or is pruned; a
      Running job stays in the store; and a pruned id never comes back. */
  lemma StepRespectsFinality(s: State, step: Step, id: JobId)
    requires Inv(s) && Enabled(s, step)
    ensures Respects(s, Apply(s, step), id)
  {
    hide MakeJobId, IdsIssued;
    if IsSpecial(step) {
      FreshId(s);
    } else {
      hide Apply, Enabled;
      var d := MostStepsAreTame(s, step);
      var s' := Apply(s, step);
      assert forall t | Holding(s', t) :: Holding(s, t) && HeldId(s', t) == HeldId(s, t);
    }
  }

  ghost predicate Respects(s: State, s': State, id: JobId) {
    && (RunningJob(s, id) ==> id in s'.jobs)
    && (id in s.jobs && !RunningJob(s, id) ==>
          if id in s'.jobs then s'.jobs[id] == s.jobs[id] else id in s'.issued && NotHeld(s', id))
    && (id in s.issued && id !in s.jobs && NotHeld(s, id) ==>
          id !in s'.jobs && id in s'.issued && NotHeld(s', id))
  }

  /** Over a whole run: once a job's status has left Running it is never changed again, and its record, output
      included, is the same in every later state that still has it. */
  lemma {:induction false} FinalityOverRuns(states: seq<State>, steps: seq<Step>, i: nat, j: nat, id: JobId)
    requires Run(states, steps) && i <= j < |states|
    requires id in states[i].jobs && !states[i].jobs[id].status.Running?
    ensures if id in states[j].jobs then states[j].jobs[id] == states[i].jobs[id]
            else id in states[j].issued && NotHeld(states[j], id)
  {
    hide Inv, Apply, Enabled;
    if i < j {
      RunKeepsInv(states, steps, j - 1);
      FinalityOverRuns(states, steps, i, j - 1, id);
      assert Enabled(states[j - 1], steps[j - 1]) && states[j] == Apply(states[j - 1], steps[j - 1]);
      StepRespectsFinality(states[j - 1], steps[j - 1], id);
    }
  }

  predicate FinishedBy(s: State, step: Step, d: Driver, after: Job)
    requires d in s.current
  {
    var id := s.current[d].jobId;
    after.finishedAt == s.now &&
    match step
    case ReaderEnd(e, ok, x, code) =>
      e == d && ok && x == id && after.exitCode == code && after.status == if code == 124 then Timeout else Finished
    case WatchWakes(e) =>
      && e == d && after.status == Timeout && after.exitCode == 124
      && s.current[d].deadline.Some? && s.now >= s.current[d].deadline.value
    case ExecWriteFails(t) =>
      t in s.execs && s.execs[t] == Installed(d, id) && after.status == Error && after.exitCode == -1
    case ReaderFinalises(e) => e == d && d !in s.alive && after.status == Error && after.exitCode == -1
    case CloseFinalises(e) => e == d && d in s.closing && d in s.ended && after.status == Error && after.exitCode == -1
    case _ => false
  }

  /** Why a job can leave Running, and what its record then says: only for the reasons of FinishedBy. */
  lemma OnlyItsOwnEventsFinishAJob(s: State, step: Step, id: JobId) returns (d: Driver)
    requires Inv(s) && Enabled(s, step)
    requires RunningJob(s, id) && !RunningJob(Apply(s, step), id)
    ensures d in s.current && s.current[d].jobId == id && d !in Apply(s, step).current
    ensures id in Apply(s, step).jobs && FinishedBy(s, step, d, Apply(s, step).jobs[id])
  {
    hide MakeJobId, IdsIssued, HeldJobs;
    if IsSpecial(step) || IsQuiet(step) {
      NotFinishedByOthers(s, step, id);
      assert false;
    } else if step.ExecWriteFails? {
      d := s.execs[step.t].d;
    } else if step.WatchWakes? {
      d := step.d;
    } else {
      d := FinishedByReader(s, step, id);
    }
  }

  lemma FinishedByReader(s: State, step: Step, id: JobId) returns (d: Driver)
    requires Inv(s) && Enabled(s, step)
    requires !IsSpecial(step) && !IsQuiet(step) && !step.WatchWakes? && !step.ExecWriteFails?
    requires RunningJob(s, id) && !RunningJob(Apply(s, step), id)
    ensures d in s.current && s.current[d].jobId == id && d !in Apply(s, step).current
    ensures id in Apply(s, step).jobs && FinishedBy(s, step, d, Apply(s, step).jobs[id])
  {
    hide MakeJobId, IdsIssued, HeldJobs, Watches;
    d := step.d;
  }

  lemma NotFinishedByOthers(s: State, step: Step, id: JobId)
    requires Inv(s) && Enabled(s, step) && RunningJob(s, id)
    requires IsSpecial(step) || IsQuiet(step)
    ensures RunningJob(Apply(s, step), id)
  {
    hide MakeJobId, IdsIssued;
  }

  /** A late or foreign END frame, with another id or another token, changes nothing at all. */
  lemma ForeignEndIsIgnored(s: State, d: Driver, tokenMatches: bool, id: JobId, code: int)
    ensures Apply(s, ReaderEnd(d, tokenMatches, id, code)) == s <==>
            !tokenMatches || d !in s.current || s.current[d].jobId != id
  {
    if d !in s.current { assert s.current - {d} == s.current; }
    else { assert s.current[d := s.current[d]] == s.current; }
  }

  // ---- Orphans -----------------------------------------------------------------------------------

  /** A running job that no driver is busy with and that no exec is about to install. */
  ghost predicate Orphan(s: State, id: JobId) {
    RunningJob(s, id) && NotCurrent(s, id) && NotHeld(s, id)
  }

  lemma OrphanKept(s: State, step: Step, id: JobId)
    requires Inv(s) && Enabled(s, step) && Orphan(s, id)
    ensures Orphan(Apply(s, step), id) && Apply(s, step).jobs[id] == s.jobs[id]
  {
    hide MakeJobId, IdsIssued;
    if IsSpecial(step) {
      OrphanKeptBySpecial(s, step, id);
    } else {
      hide Apply, Enabled;
      var s' := Apply(s, step);
      var d := MostStepsAreTame(s, step);
      assert forall t | Holding(s', t) :: Holding(s, t) && HeldId(s', t) == HeldId(s, t);
    }
  }

  lemma OrphanKeptBySpecial(s: State, step: Step, id: JobId)
    requires Inv(s) && Enabled(s, step) && Orphan(s, id) && IsSpecial(step)
    ensures Orphan(Apply(s, step), id) && Apply(s, step).jobs[id] == s.jobs[id]
  {
    hide MakeJobId, IdsIssued, Watches;
    FreshId(s);
    var s' := Apply(s, step);
    assert forall t | Holding(s', t) && !(step.ExecName? && t == step.t) ::
        Holding(s, t) && HeldId(s', t) == HeldId(s, t);
  }

  /** Nothing ever finishes, changes or removes an orphan. */
  lemma {:induction false} OrphanForever(states: seq<State>, steps: seq<Step>, i: nat, j: nat, id: JobId)
    requires Run(states, steps) && i <= j < |states| && Orphan(states[i], id)
    ensures Orphan(states[j], id) && states[j].jobs[id] == states[i].jobs[id]
  {
    hide Inv, Apply, Enabled, Orphan;
    if i < j {
      RunKeepsInv(states, steps, j - 1);
      OrphanForever(states, steps, i, j - 1, id);
      assert Enabled(states[j - 1], steps[j - 1]) && states[j] == Apply(states[j - 1], steps[j - 1]);
      OrphanKept(states[j - 1], steps[j - 1], id);
    }
  }

  ghost predicate NoOrphans(s: State) { forall id :: !Orphan(s, id) }

  /** A step makes an orphan exactly if it installs a job on a driver that is busy again: the price of waiting
      and installing in two lock scopes. */
  lemma OrphansComeFromBusyInstalls(s: State, step: Step)
    requires Inv(s) && Enabled(s, step) && NoOrphans(s)
    ensures NoOrphans(Apply(s, step)) <==> !(step.ExecInstall? && s.execs[step.t].d in s.current)
  {
    if step.ExecInstall? && s.execs[step.t].d in s.current {
      BusyInstallOrphans(s, step.t, step.timeout);
    } else {
      forall id ensures !Orphan(Apply(s, step), id) {
        assert !Orphan(s, id);
        NotOrphaned(s, step, id);
      }
    }
  }

  lemma BusyInstallOrphans(s: State, t: Thread, timeout: nat)
    requires Inv(s) && Enabled(s, ExecInstall(t, timeout)) && s.execs[t].d in s.current
    ensures Orphan(Apply(s, ExecInstall(t, timeout)), s.current[s.execs[t].d].jobId)
  {
    hide IdsIssued;
    var s' := Apply(s, ExecInstall(t, timeout));
    assert Holding(s, t) && NotCurrent(s, HeldId(s, t));
    assert forall u | Holding(s', u) :: Holding(s, u) && HeldId(s', u) == HeldId(s, u);
  }

  lemma NotOrphaned(s: State, step: Step, id: JobId)
    requires Inv(s) && Enabled(s, step) && !Orphan(s, id)
    requires !(step.ExecInstall? && s.execs[step.t].d in s.current)
    ensures !Orphan(Apply(s, step), id)
  {
    hide MakeJobId, IdsIssued;
    var s' := Apply(s, step);
    if IsSpecial(step) {
      SpecialDoesNotOrphan(s, step, id);
    } else {
      hide Apply, Enabled;
      var d := MostStepsAreTame(s, step);
      if RunningJob(s', id) && !NotCurrent(s, id) {
        var e :| e in s.current && s.current[e].jobId == id;
        assert e in s'.current && s'.current[e].jobId == id;
      } else if RunningJob(s', id) {
        var t :| Holding(s, t) && HeldId(s, t) == id;
        assert Holding(s', t) && HeldId(s', t) == id;
      }
    }
  }

  lemma SpecialDoesNotOrphan(s: State, step: Step, id: JobId)
    requires Inv(s) && Enabled(s, step) && !Orphan(s, id) && IsSpecial(step)
    requires !(step.ExecInstall? && s.execs[step.t].d in s.current)
    ensures !Orphan(Apply(s, step), id)
  {
    hide MakeJobId, IdsIssued;
    FreshId(s);
    var s' := Apply(s, step);
    if RunningJob(s', id) && !NotCurrent(s, id) {
      var e :| e in s.current && s.current[e].jobId == id;
      assert e in s'.current && s'.current[e].jobId == id;
    } else if RunningJob(s', id) && !NotHeld(s, id) {
      var t :| Holding(s, t) && HeldId(s, t) == id;
      if step.ExecInstall? && t == step.t {
        assert s'.current[s.execs[t].d].jobId == id;
      } else {
        assert Holding(s', t) && HeldId(s', t) == id;
      }
    }
  }

  const FIRST := MakeJobId(0, 0)
  const SECOND := MakeJobId(0, 1)
  const FRESH := Job(Running, -1, "", 0)

  function OneDriver(jobs: Store, current: map<Driver, Pending>, execs: map<Thread, Phase>, counter: nat,
                     issued: set<JobId>): State
  {
    State(jobs, current, {0}, execs, map[], {0}, {}, {}, {}, counter, issued, 0)
  }

  /** Two calls of exec on one driver that both see it idle before either installs its job. */
  function Race(i: nat): State
    requires i <= 11
  {
    match i
    case 0 => Initial()
    case 1 => OneDriver(map[], map[], map[], 0, {})
    case 2 => OneDriver(map[], map[], map[1 := Entered(0)], 0, {})
    case 3 => OneDriver(map[], map[], map[1 := Entered(0), 2 := Entered(0)], 0, {})
    case 4 => OneDriver(map[], map[], map[1 := Waited(0), 2 := Entered(0)], 0, {})
    case 5 => OneDriver(map[], map[], map[1 := Waited(0), 2 := Waited(0)], 0, {})
    case 6 => OneDriver(map[], map[], map[1 := Named(0, FIRST), 2 := Waited(0)], 1, {FIRST})
    case 7 => OneDriver(map[], map[], map[1 := Named(0, FIRST), 2 := Named(0, SECOND)], 2, {FIRST, SECOND})
    case 8 =>
      OneDriver(map[FIRST := FRESH], map[], map[1 := Registered(0, FIRST), 2 := Named(0, SECOND)], 2, {FIRST, SECOND})
    case 9 =>
      OneDriver(map[FIRST := FRESH, SECOND := FRESH], map[],
                map[1 := Registered(0, FIRST), 2 := Registered(0, SECOND)], 2, {FIRST, SECOND})
    case 10 =>
      OneDriver(map[FIRST := FRESH, SECOND := FRESH], map[0 := Pending(FIRST, None, -1)],
                map[1 := Installed(0, FIRST), 2 := Registered(0, SECOND)], 2, {FIRST, SECOND})
    case _ =>
      OneDriver(map[FIRST := FRESH, SECOND := FRESH], map[0 := Pending(SECOND, None, -1)],
                map[1 := Installed(0, FIRST), 2 := Installed(0, SECOND)], 2, {FIRST, SECOND})
  }

  function RaceStep(i: nat): Step
    requires i < 11
  {
    match i
    case 0 => Spawn(0)
    case 1 => ExecEnter(1, 0)
    case 2 => ExecEnter(2, 0)
    case 3 => ExecIdle(1)
    case 4 => ExecIdle(2)
    case 5 => ExecName(1)
    case 6 => ExecName(2)
    case 7 => ExecRegister(1)
    case 8 => ExecRegister(2)
    case 9 => ExecInstall(1, 0)
    case _ => ExecInstall(2, 0)
  }

  ghost predicate RaceGoes(i: nat)
    requires i < 11
  {
    Enabled(Race(i), RaceStep(i)) && Race(i + 1) == Apply(Race(i), RaceStep(i))
  }

  lemma RaceToIdle()
    ensures RaceGoes(0) && RaceGoes(1) && RaceGoes(2) && RaceGoes(3) && RaceGoes(4)
  {}

  lemma RaceToNamed()
    ensures RaceGoes(5) && RaceGoes(6)
  {
    hide MakeJobId;
    assert {} + {FIRST} == {FIRST} && {FIRST} + {SECOND} == {FIRST, SECOND};
  }

  lemma RaceToRegistered()
    ensures RaceGoes(7) && RaceGoes(8)
  {
    hide MakeJobId;
  }

  lemma RaceToInstalled()
    ensures RaceGoes(9) && RaceGoes(10)
  {
    hide MakeJobId;
  }

  lemma RaceRuns(i: nat)
    requires i < 11
    ensures RaceGoes(i)
  {
    hide RaceGoes;
    RaceToIdle();
    RaceToNamed();
    RaceToRegistered();
    RaceToInstalled();
  }

  lemma RaceOrphans()
    ensures Orphan(Race(11), FIRST)
  {
    if FIRST == SECOND { JobIdsDiffer(0, 0, 0, 1); }
    hide MakeJobId;
  }

  /** Two calls that both saw the driver idle: the first one's job is left Running for good. */
  lemma OrphanIsReachable() returns (states: seq<State>, steps: seq<Step>)
    ensures Run(states, steps) && Orphan(states[|steps|], FIRST)
  {
    states, steps := seq(12, i requires 0 <= i < 12 => Race(i)), seq(11, i requires 0 <= i < 11 => RaceStep(i));
    RaceOrphans();
    forall i | 0 <= i < 11 ensures RaceGoes(i) { RaceRuns(i); }
    hide Apply, Enabled, Orphan;
    forall i | 0 <= i < 11 ensures Enabled(states[i], steps[i]) && states[i + 1] == Apply(states[i], steps[i]) {
      assert RaceGoes(i);
    }
  }

  // ---- Pruning by an early clock -------------------------------------------------------------------

  /** Pruning takes exactly the finished jobs that look old at the clock it read; a job that finished after that reading
      looks old unless the clock is almost 2^64 milliseconds behind. */
  lemma PrunedIff(s: State, clock: nat, maxAge: nat, id: JobId)
    requires Enabled(s, PruneStore(clock, maxAge)) && id in s.jobs
    requires clock < UINT64 && s.jobs[id].finishedAt < UINT64
    ensures id !in Apply(s, PruneStore(clock, maxAge)).jobs <==>
            var at := s.jobs[id].finishedAt;
            && !s.jobs[id].status.Running?
            && if at <= clock then clock - at > maxAge else at - clock < UINT64 - maxAge
  {
    AgeExceedsIff(clock, s.jobs[id].finishedAt, maxAge);
  }

  /** A job that finishes between the pruner's reading of the clock and its lock is lost at once, result and all. */
  lemma JustFinishedIsLost(s: State, step: Step, id: JobId, clock: nat, maxAge: nat)
    requires Inv(s) && Enabled(s, step) && RunningJob(s, id) && !RunningJob(Apply(s, step), id)
    requires clock < s.now < UINT64
    ensures Enabled(Apply(s, step), PruneStore(clock, maxAge))
    ensures id !in Apply(Apply(s, step), PruneStore(clock, maxAge)).jobs <==> s.now - clock < UINT64 - maxAge
  {
    hide Inv;
    var d := OnlyItsOwnEventsFinishAJob(s, step, id);
    var s' := Apply(s, step);
    assert s'.jobs[id].finishedAt == s.now;
    assert s'.now == s.now by { ClockKept(s, step); }
    hide Apply;
    PrunedIff(s', clock, maxAge, id);
  }

  lemma ClockKept(s: State, step: Step)
    requires Enabled(s, step) && !step.Tick?
    ensures Apply(s, step).now == s.now
  {}
}
