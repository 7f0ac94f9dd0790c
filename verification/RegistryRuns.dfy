/**
 The registry under any interleaving of its callers: registrations, heartbeats, the engine's two
 unlocked stores, terminations, cleanup and the tree operations, one step each.
 */
module RegistryRuns {
  import opened Decimal
  import opened ProcessRegistry

  /** A step of some thread. The only tree created by name is the handler's; the clock is past zero. */
  datatype Event =
    | RegisterStep(treeId: TreeId, parent: Pid, status: ProcessStatus, isHandler: bool)
    | CreateHandlerTree
    | StoreStatus(pid: Pid, status: ProcessStatus)
    | StoreDead(pid: Pid)
    | TerminateStep(pid: Pid, now: nat)
    | CleanupStep(now: nat, retention: nat)
    | KillTreeStep(treeId: TreeId)
    | CompleteStep(treeId: TreeId)
    | FailStep(treeId: TreeId)

  predicate Possible(e: Event) { e.TerminateStep? ==> e.now > 0 }

  function Step(s: State, e: Event): State {
    match e
    case RegisterStep(treeId, parent, status, isHandler) => Register(s, treeId, parent, status, isHandler).0
    case CreateHandlerTree => CreateTree(s, HANDLER).0
    case StoreStatus(pid, status) => SetStatus(s, pid, status)
    case StoreDead(pid) => ClearAlive(s, pid)
    case TerminateStep(pid, now) => Terminate(s, pid, now)
    case CleanupStep(now, retention) => Cleanup(s, now, retention)
    case KillTreeStep(treeId) => KillTree(s, treeId)
    case CompleteStep(treeId) => CompleteIfDone(s, treeId)
    case FailStep(treeId) => MarkFailed(s, treeId)
  }

  function Run(s: State, events: seq<Event>): State
    decreases |events|
  {
    if events == [] then s else Run(Step(s, events[0]), events[1..])
  }

  predicate PossibleRun(events: seq<Event>) {
    forall i | 0 <= i < |events| :: Possible(events[i])
  }

  // ---- The invariant ------------------------------------------------------------------------

  /** In the table, in this tree, and never terminated. */
  predicate Unterminated(s: State, treeId: TreeId, pid: Pid) {
    pid in s.processes && s.processes[pid].treeId == treeId && s.processes[pid].terminationTime == 0
  }

  ghost predicate IndexExact(s: State) {
    && (forall t, pid :: pid in Indexed(s, t) <==> Unterminated(s, t, pid))
    && (forall t | t in s.index :: s.index[t] != {})
  }

  predicate AliveUnterminated(s: State) {
    forall pid | pid in s.processes && s.processes[pid].alive :: s.processes[pid].terminationTime == 0
  }

  predicate ChildrenLive(s: State) {
    forall p | p in s.children :: p > 0 && forall c | c in s.children[p] ::
      c in s.processes && s.processes[c].parent == p && s.processes[c].terminationTime == 0
  }

  ghost predicate Generated(treeId: TreeId, bound: nat) {
    exists n: nat :: n < bound && treeId == GeneratedId(n)
  }

  ghost predicate IdsFresh(s: State) {
    && (forall pid | pid in s.processes :: pid < s.nextPid)
    && (forall t | t in s.trees :: t == HANDLER || Generated(t, s.nextTree))
    && (forall pid | pid in s.processes :: s.processes[pid].treeId == HANDLER || s.processes[pid].treeId in s.trees)
  }

  predicate CompletedEmpty(s: State) {
    forall t | t in s.trees && s.trees[t].status == Completed :: t != HANDLER && Indexed(s, t) == {}
  }

  ghost predicate Invariant(s: State) {
    IndexExact(s) && AliveUnterminated(s) && ChildrenLive(s) && IdsFresh(s) && CompletedEmpty(s)
  }

  // ---- Generated ids are fresh ----------------------------------------------------------------

  lemma GeneratedIdsDiffer(m: nat, n: nat)
    ensures GeneratedId(m) != HANDLER
    ensures GeneratedId(m) == GeneratedId(n) ==> m == n
  {
    DigitsAreDigits(m);
    assert HANDLER[5] == 'H';
    assert GeneratedId(m)[5] == Digits(m)[0];
    assert GeneratedId(m)[5..] == Digits(m);
    assert GeneratedId(n)[5..] == Digits(n);
    if GeneratedId(m) == GeneratedId(n) { DigitsInjective(m, n); }
  }

  /** The next generated id names no tree, and no process belongs to it. */
  lemma NextIdFresh(s: State)
    requires IdsFresh(s)
    ensures GeneratedId(s.nextTree) !in s.trees && GeneratedId(s.nextTree) != HANDLER
    ensures forall pid | pid in s.processes :: s.processes[pid].treeId != GeneratedId(s.nextTree)
  {
    var id := GeneratedId(s.nextTree);
    GeneratedIdsDiffer(s.nextTree, 0);
    if id in s.trees {
      var n: nat :| n < s.nextTree && id == GeneratedId(n);
      GeneratedIdsDiffer(s.nextTree, n);
    }
  }

  // ---- Every step keeps the invariant ---------------------------------------------------------

  lemma CreateKeeps(s: State, explicitId: TreeId)
    requires Invariant(s) && (explicitId == "" || explicitId == HANDLER)
    ensures Invariant(CreateTree(s, explicitId).0)
  {
    var (s', id) := CreateTree(s, explicitId);
    NextIdFresh(s);
    assert forall t :: Indexed(s', t) == Indexed(s, t);
    forall t | t in s'.trees ensures t == HANDLER || Generated(t, s'.nextTree) {
      if t in s.trees && t != HANDLER {
        var n: nat :| n < s.nextTree && t == GeneratedId(n);
      }
    }
  }

  /** A process under a fresh pid, in a tree that is not Completed. */
  lemma AddKeeps(s: State, pid: Pid, treeId: TreeId, parent: Pid, status: ProcessStatus, isRoot: bool)
    requires Invariant(s) && pid !in s.processes && pid < s.nextPid
    requires treeId == HANDLER || (treeId in s.trees && s.trees[treeId].status != Completed)
    ensures Invariant(AddProcess(s, pid, treeId, parent, status, isRoot))
  {
    var s' := AddProcess(s, pid, treeId, parent, status, isRoot);
    assert forall t :: Indexed(s', t) == if t == treeId then Indexed(s, t) + {pid} else Indexed(s, t);
    assert pid in s'.index[treeId];
    assert s'.trees.Keys == s.trees.Keys;
    forall t | t in s'.trees && s'.trees[t].status == Completed ensures t != HANDLER && Indexed(s', t) == {} {
      assert s.trees[t].status == Completed;
    }
  }

  lemma RegisterKeeps(s: State, treeId: TreeId, parent: Pid, status: ProcessStatus, isHandler: bool)
    requires Invariant(s)
    ensures Invariant(Register(s, treeId, parent, status, isHandler).0)
  {
    hide AddProcess;
    var pid := s.nextPid;
    var t := s.(nextPid := s.nextPid + 1);
    assert Invariant(t) by { assert forall id :: Indexed(t, id) == Indexed(s, id); }
    if pid <= INT_MAX {
      if isHandler {
        AddKeeps(t, pid, HANDLER, parent, status, true);
      } else if treeId == "" {
        CreateKeeps(t, "");
        var (u, id) := CreateTree(t, "");
        AddKeeps(u, pid, id, parent, status, true);
      } else if treeId in s.trees && s.trees[treeId].status == Active {
        AddKeeps(t, pid, treeId, parent, status, false);
      }
    }
  }

  /** Stores to a process that leave its tree, parent and termination time alone and do not revive it. */
  lemma StoreKeeps(s: State, s': State)
    requires Invariant(s) && s' == s.(processes := s'.processes) && s'.processes.Keys == s.processes.Keys
    requires forall pid | pid in s.processes ::
               var p, p' := s.processes[pid], s'.processes[pid];
               && p'.treeId == p.treeId && p'.parent == p.parent && p'.terminationTime == p.terminationTime
               && (p'.alive ==> p.alive)
    ensures Invariant(s')
  {
    assert forall t :: Indexed(s', t) == Indexed(s, t);
    assert forall t, pid :: Unterminated(s', t, pid) == Unterminated(s, t, pid);
  }

  lemma TerminateKeeps(s: State, pid: Pid, now: nat)
    requires Invariant(s) && now > 0
    ensures Invariant(Terminate(s, pid, now))
  {
    if pid in s.processes && s.processes[pid].alive {
      var s' := Terminate(s, pid, now);
      var tree := s.processes[pid].treeId;
      assert forall t :: Indexed(s', t) == Indexed(s, t) - {pid} by {
        assert forall t | t != tree :: pid !in Indexed(s, t) by {
          assert forall t | t != tree :: !Unterminated(s, t, pid);
        }
        assert forall t | t != tree :: Indexed(s, t) - {pid} == Indexed(s, t);
      }
      assert forall t, q :: Unterminated(s', t, q) <==> Unterminated(s, t, q) && q != pid;
      TerminateKeepsChildren(s, pid, now);
    }
  }

  lemma TerminateKeepsChildren(s: State, pid: Pid, now: nat)
    requires ChildrenLive(s)
    ensures ChildrenLive(Terminate(s, pid, now))
  {
    if pid in s.processes && s.processes[pid].alive {
      var s' := Terminate(s, pid, now);
      forall p, c | p in s'.children && c in s'.children[p]
        ensures c in s'.processes && s'.processes[c].parent == p && s'.processes[c].terminationTime == 0
      {
        assert p in s.children && c in s.children[p];
      }
    }
  }

  lemma CleanupKeeps(s: State, now: nat, retention: nat)
    requires Invariant(s)
    ensures Invariant(Cleanup(s, now, retention))
  {
    var s' := Cleanup(s, now, retention);
    assert forall t :: Indexed(s', t) == Indexed(s, t);
    assert forall t, pid :: Unterminated(s', t, pid) == Unterminated(s, t, pid);
  }

  lemma TreeStatusKeeps(s: State, treeId: TreeId, status: TreeStatus)
    requires Invariant(s) && treeId in s.trees
    requires status == Completed ==> treeId != HANDLER && Indexed(s, treeId) == {}
    ensures Invariant(WithTreeStatus(s, treeId, status))
  {
    var s' := WithTreeStatus(s, treeId, status);
    assert forall t :: Indexed(s', t) == Indexed(s, t);
    assert forall t, pid :: Unterminated(s', t, pid) == Unterminated(s, t, pid);
    assert s'.trees.Keys == s.trees.Keys;
  }

  lemma KillTreeKeeps(s: State, treeId: TreeId)
    requires Invariant(s)
    ensures Invariant(KillTree(s, treeId))
  {
    var t := if treeId in s.trees then WithTreeStatus(s, treeId, TreeStatus.Killed) else s;
    if treeId in s.trees { TreeStatusKeeps(s, treeId, TreeStatus.Killed); }
    hide Invariant;
    StoreKeeps(t, KillTree(s, treeId));
  }

  lemma StepKeeps(s: State, e: Event)
    requires Invariant(s) && Possible(e)
    ensures Invariant(Step(s, e))
  {
    hide Invariant;
    if e.RegisterStep? { RegisterKeeps(s, e.treeId, e.parent, e.status, e.isHandler); }
    else if e.CreateHandlerTree? { CreateKeeps(s, HANDLER); }
    else if e.StoreStatus? { StoreKeeps(s, SetStatus(s, e.pid, e.status)); }
    else if e.StoreDead? { StoreKeeps(s, ClearAlive(s, e.pid)); }
    else if e.TerminateStep? { TerminateKeeps(s, e.pid, e.now); }
    else if e.CleanupStep? { CleanupKeeps(s, e.now, e.retention); }
    else if e.KillTreeStep? { KillTreeKeeps(s, e.treeId); }
    else if e.CompleteStep? { if CanComplete(s, e.treeId) { TreeStatusKeeps(s, e.treeId, Completed); } }
    else if e.treeId in s.trees { TreeStatusKeeps(s, e.treeId, Failed); }
  }

  lemma {:induction false} RunKeeps(s: State, events: seq<Event>)
    requires Invariant(s) && PossibleRun(events)
    ensures Invariant(Run(s, events))
    decreases |events|
  {
    hide Invariant, Step;
    if events != [] {
      StepKeeps(s, events[0]);
      RunKeeps(Step(s, events[0]), events[1..]);
    }
  }

  lemma InitialInvariant()
    ensures Invariant(Initial())
  {
    assert forall t :: Indexed(Initial(), t) == {};
    assert forall t, p :: !Unterminated(Initial(), t, p);
  }

  /** In every reachable state the index of a tree is exactly its processes never terminated: so it holds every
      living process of the tree and nothing outside the tree's part of the table. */
  lemma IndexIsExact(events: seq<Event>, treeId: TreeId, pid: Pid)
    requires PossibleRun(events)
    ensures var s := Run(Initial(), events);
            && (pid in Indexed(s, treeId) <==> Unterminated(s, treeId, pid))
            && (pid in s.processes && s.processes[pid].treeId == treeId && s.processes[pid].alive ==>
                pid in Indexed(s, treeId))
  {
    InitialInvariant();
    RunKeeps(Initial(), events);
  }

  // ---- A killed process stays ---------------------------------------------------------------

  lemma ZombieStep(s: State, pid: Pid, e: Event)
    requires Invariant(s) && Zombie(s, pid)
    ensures Zombie(Step(s, e), pid) && Step(s, e).processes[pid].treeId == s.processes[pid].treeId
  {
    assert Unterminated(s, s.processes[pid].treeId, pid);
    if e.RegisterStep? {
      assert pid != s.nextPid;
    }
  }

  /** Once dead without a termination time, a process keeps its place in the table and in the index of its tree
      for good: no cleanup drops it, and its tree never becomes Completed. */
  lemma {:induction false} ZombieForever(s: State, pid: Pid, events: seq<Event>)
    requires Invariant(s) && Zombie(s, pid) && PossibleRun(events)
    ensures var s', tree := Run(s, events), s.processes[pid].treeId;
            && Zombie(s', pid) && s'.processes[pid].treeId == tree && pid in Indexed(s', tree)
            && (tree in s'.trees ==> s'.trees[tree].status != Completed)
    decreases |events|
  {
    if events == [] {
      assert Unterminated(s, s.processes[pid].treeId, pid);
    } else {
      hide Step, Invariant;
      StepKeeps(s, events[0]);
      ZombieStep(s, pid, events[0]);
      ZombieForever(Step(s, events[0]), pid, events[1..]);
    }
  }

  lemma {:induction false} KillAllKeeps(s: State, pids: seq<Pid>, now: nat)
    requires Invariant(s)
    ensures Invariant(KillAll(s, pids, now))
  {
    if pids != [] {
      var t, pid := KillAll(s, pids[..|pids| - 1], now), pids[|pids| - 1];
      hide Invariant;
      KillAllKeeps(s, pids[..|pids| - 1], now);
      KillOneOnlyMarks(t, pid, now);
      StoreKeeps(t, SetStatus(t, pid, ProcessStatus.Killed));
      StoreKeeps(SetStatus(t, pid, ProcessStatus.Killed), MarkKilled(t, pid));
    }
  }

  /** Killing a living process through the engine keeps its tree from ever becoming Completed. */
  lemma KillingBlocksCompletion(s: State, targets: seq<Pid>, now: nat, pid: Pid, events: seq<Event>)
    requires Invariant(s) && PossibleRun(events)
    requires pid in targets && pid in s.processes && s.processes[pid].alive
    ensures var s', tree := Run(KillAll(s, targets, now), events), s.processes[pid].treeId;
            pid in Indexed(s', tree) && (tree in s'.trees ==> s'.trees[tree].status != Completed)
  {
    LivingTargetsBecomeZombies(s, targets, now, pid);
    KillAllKeepsIndex(s, targets, now);
    KillAllKeeps(s, targets, now);
    ZombieForever(KillAll(s, targets, now), pid, events);
  }

  // ---- The life of a tree -------------------------------------------------------------------------

  /** A generated tree that is no longer Active. */
  predicate LeftActive(s: State, treeId: TreeId) {
    treeId in s.trees && treeId != HANDLER && s.trees[treeId].status != Active
  }

  predicate Member(s: State, treeId: TreeId, pid: Pid) {
    pid in s.processes && s.processes[pid].treeId == treeId
  }

  /** No new member, none back to life, and a killed tree stays killed. */
  ghost predicate OnlyShrinks(s: State, s': State, treeId: TreeId)
    requires LeftActive(s, treeId)
  {
    && LeftActive(s', treeId)
    && (s.trees[treeId].status == TreeStatus.Killed ==> s'.trees[treeId].status == TreeStatus.Killed)
    && (forall pid | Member(s', treeId, pid) :: Member(s, treeId, pid))
    && (forall pid | Member(s', treeId, pid) && s'.processes[pid].alive :: s.processes[pid].alive)
  }

  lemma AddElsewhere(s: State, pid: Pid, treeId: TreeId, parent: Pid, status: ProcessStatus, isRoot: bool, t: TreeId)
    requires LeftActive(s, t) && t != treeId
    ensures OnlyShrinks(s, AddProcess(s, pid, treeId, parent, status, isRoot), t)
  {}

  lemma RegisterOnlyShrinks(s: State, treeId: TreeId, parent: Pid, status: ProcessStatus, isHandler: bool, t: TreeId)
    requires IdsFresh(s) && LeftActive(s, t)
    ensures OnlyShrinks(s, Register(s, treeId, parent, status, isHandler).0, t)
  {
    hide AddProcess;
    NextIdFresh(s);
    var pid, u := s.nextPid, s.(nextPid := s.nextPid + 1);
    if pid <= INT_MAX {
      if isHandler {
        AddElsewhere(u, pid, HANDLER, parent, status, true, t);
      } else if treeId == "" {
        AddElsewhere(CreateTree(u, "").0, pid, GeneratedId(s.nextTree), parent, status, true, t);
      } else if treeId in s.trees && s.trees[treeId].status == Active {
        AddElsewhere(u, pid, treeId, parent, status, false, t);
      }
    }
  }

  lemma StepOnlyShrinks(s: State, e: Event, t: TreeId)
    requires Invariant(s) && LeftActive(s, t)
    ensures OnlyShrinks(s, Step(s, e), t)
  {
    if e.RegisterStep? {
      RegisterOnlyShrinks(s, e.treeId, e.parent, e.status, e.isHandler, t);
    }
  }

  /** In every run a generated tree that left Active never returns to it and admits no process; being killed is
      final. */
  lemma {:induction false} TreeOnlyShrinks(s: State, events: seq<Event>, t: TreeId)
    requires Invariant(s) && PossibleRun(events) && LeftActive(s, t)
    ensures OnlyShrinks(s, Run(s, events), t)
    decreases |events|
  {
    hide Step, Invariant;
    if events != [] {
      StepKeeps(s, events[0]);
      StepOnlyShrinks(s, events[0], t);
      TreeOnlyShrinks(Step(s, events[0]), events[1..], t);
    }
  }

  /** A tree once Completed has no living process in that or any later state. */
  lemma CompletedStaysDead(s: State, events: seq<Event>, t: TreeId, pid: Pid)
    requires Invariant(s) && PossibleRun(events) && t in s.trees && s.trees[t].status == Completed
    ensures var s' := Run(s, events); Member(s', t, pid) ==> !s'.processes[pid].alive
  {
    TreeOnlyShrinks(s, events, t);
    assert pid in Indexed(s, t) <==> Unterminated(s, t, pid);
  }

  /** When completion happens: every process of the tree still in the table was terminated and reports a final
      status. */
  lemma CompletesIff(s: State, t: TreeId)
    requires Invariant(s)
    ensures CanComplete(s, t) <==>
            && t in s.trees && t != "TREE_HANDLER" && s.trees[t].status == Active
            && forall pid | pid in s.processes && s.processes[pid].treeId == t ::
                s.processes[pid].terminationTime > 0 &&
                s.processes[pid].status in {Finished, Errored, ProcessStatus.Killed}
  {
    if Indexed(s, t) == {} {
      forall pid | Member(s, t, pid) ensures s.processes[pid].terminationTime > 0 {
        assert pid !in Indexed(s, t);
        assert !Unterminated(s, t, pid);
      }
    } else {
      SomePid(Indexed(s, t));
      var pid :| pid in Indexed(s, t);
      assert Unterminated(s, t, pid);
    }
  }
}
