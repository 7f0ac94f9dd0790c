/**
 The supervisor's registry of processes and process trees, with the indexes derived from its
 tables, and the engine that kills processes through it.
 */
module ProcessRegistry {
  import opened Decimal
  import opened Unsigned

  type Pid = int
  type TreeId = string

  const INT_MAX: int := 0x7FFF_FFFF
  const HANDLER: TreeId := "TREE_HANDLER"

  datatype ProcessStatus = Starting | Running | WaitingLlm | WaitingExec | Finished | Errored | Killed

  datatype TreeStatus = Active | Completed | Failed | Killed

  /** `terminationTime` is 0 until the process is terminated. */
  datatype Process = Process(treeId: TreeId, parent: Pid, status: ProcessStatus, alive: bool, terminationTime: nat)

  datatype Tree = Tree(root: Pid, status: TreeStatus)

  datatype State = State(
    processes: map<Pid, Process>,
    trees: map<TreeId, Tree>,
    index: map<TreeId, set<Pid>>,
    children: map<Pid, set<Pid>>,
    nextPid: nat,
    nextTree: nat)

  // ---- Maps of sets ---------------------------------------------------------------------

  function Insert<K>(m: map<K, set<Pid>>, k: K, p: Pid): map<K, set<Pid>> {
    m[k := (if k in m then m[k] else {}) + {p}]
  }

  /** Removes `p` from the set at `k`, and the set with its last member. */
  function Remove<K>(m: map<K, set<Pid>>, k: K, p: Pid): map<K, set<Pid>> {
    if k !in m then m
    else if m[k] - {p} == {} then m - {k}
    else m[k := m[k] - {p}]
  }

  // ---- Operations -------------------------------------------------------------------------

  function GeneratedId(n: nat): TreeId { "TREE_" + Digits(n) }

  /** An existing tree of that id starts over as Active. */
  function CreateTree(s: State, explicitId: TreeId): (State, TreeId) {
    if explicitId != "" then
      (s.(trees := s.trees[explicitId := Tree(-1, Active)]), explicitId)
    else
      var id := GeneratedId(s.nextTree);
      (s.(trees := s.trees[id := Tree(-1, Active)], nextTree := s.nextTree + 1), id)
  }

  datatype Registration = Registered(pid: Pid, treeId: TreeId) | Refused(error: string)

  function AddProcess(s: State, pid: Pid, treeId: TreeId, parent: Pid, status: ProcessStatus, isRoot: bool): State {
    s.(processes := s.processes[pid := Process(treeId, parent, status, true, 0)],
       index := Insert(s.index, treeId, pid),
       children := if parent > 0 then Insert(s.children, parent, pid) else s.children,
       trees := if isRoot && treeId in s.trees then s.trees[treeId := s.trees[treeId].(root := pid)] else s.trees)
  }

  function Register(s: State, treeId: TreeId, parent: Pid, status: ProcessStatus, isHandler: bool)
    : (State, Registration)
  {
    var pid := s.nextPid;
    var t := s.(nextPid := s.nextPid + 1);
    if pid > INT_MAX then (t, Refused("pid space exhausted"))
    else if isHandler then (AddProcess(t, pid, HANDLER, parent, status, true), Registered(pid, HANDLER))
    else if treeId == "" then
      var (u, id) := CreateTree(t, "");
      (AddProcess(u, pid, id, parent, status, true), Registered(pid, id))
    else if treeId !in s.trees then (t, Refused("tree not found"))
    else if s.trees[treeId].status != Active then (t, Refused("tree is not active"))
    else (AddProcess(t, pid, treeId, parent, status, false), Registered(pid, treeId))
  }

  function SetStatus(s: State, pid: Pid, status: ProcessStatus): State {
    if pid in s.processes then s.(processes := s.processes[pid := s.processes[pid].(status := status)]) else s
  }

  function ClearAlive(s: State, pid: Pid): State {
    if pid in s.processes then s.(processes := s.processes[pid := s.processes[pid].(alive := false)]) else s
  }

  function MarkKilled(s: State, pid: Pid): State { ClearAlive(SetStatus(s, pid, ProcessStatus.Killed), pid) }

  function Terminate(s: State, pid: Pid, now: nat): State {
    if pid !in s.processes || !s.processes[pid].alive then s
    else
      var p := s.processes[pid];
      s.(processes := s.processes[pid := p.(alive := false, terminationTime := now)],
         index := Remove(s.index, p.treeId, pid),
         children := (if p.parent > 0 then Remove(s.children, p.parent, pid) else s.children) - {pid})
  }

  predicate Historical(p: Process, now: nat, retention: nat) {
    !p.alive && p.terminationTime > 0 && Age(now, p.terminationTime) > retention
  }

  function Cleanup(s: State, now: nat, retention: nat): State {
    s.(processes := map pid | pid in s.processes && !Historical(s.processes[pid], now, retention) :: s.processes[pid])
  }

  function Indexed(s: State, treeId: TreeId): set<Pid> {
    if treeId in s.index then s.index[treeId] else {}
  }

  function AliveIndexed(s: State, treeId: TreeId): set<Pid> {
    set pid | pid in Indexed(s, treeId) && pid in s.processes && s.processes[pid].alive
  }

  /** Marks the tree and the status of its living processes, and returns them. */
  function KillTree(s: State, treeId: TreeId): State {
    var pids := AliveIndexed(s, treeId);
    s.(trees := if treeId in s.trees then s.trees[treeId := s.trees[treeId].(status := TreeStatus.Killed)] else s.trees,
       processes := map pid | pid in s.processes ::
                      if pid in pids then s.processes[pid].(status := ProcessStatus.Killed) else s.processes[pid])
  }

  predicate Terminal(status: ProcessStatus) { status.Finished? || status.Killed? || status.Errored? }

  predicate CanComplete(s: State, treeId: TreeId) {
    && treeId in s.trees && treeId != HANDLER && s.trees[treeId].status == Active
    && Indexed(s, treeId) == {}
    && forall pid | pid in s.processes && s.processes[pid].treeId == treeId :: Terminal(s.processes[pid].status)
  }

  function WithTreeStatus(s: State, treeId: TreeId, status: TreeStatus): State
    requires treeId in s.trees
  {
    s.(trees := s.trees[treeId := s.trees[treeId].(status := status)])
  }

  function CompleteIfDone(s: State, treeId: TreeId): State {
    if CanComplete(s, treeId) then WithTreeStatus(s, treeId, Completed) else s
  }

  function MarkFailed(s: State, treeId: TreeId): State {
    if treeId in s.trees && s.trees[treeId].status == Active then WithTreeStatus(s, treeId, Failed) else s
  }

  /** kill_processes on one target: mark it killed, then terminate it. */
  function KillOne(s: State, pid: Pid, now: nat): State { Terminate(MarkKilled(s, pid), pid, now) }

  function KillAll(s: State, pids: seq<Pid>, now: nat): State {
    if pids == [] then s else KillOne(KillAll(s, pids[..|pids| - 1], now), pids[|pids| - 1], now)
  }

  lemma SomePid(pids: set<Pid>)
    requires pids != {}
    ensures exists pid :: pid in pids
  {
    assert (forall pid :: pid !in pids) ==> pids == {};
  }

  lemma SameTable(s: map<Pid, Process>, t: map<Pid, Process>)
    requires s.Keys == t.Keys
    requires forall pid | pid in s :: s[pid] == t[pid]
    ensures s == t
  {
    assert (forall pid :: pid in s ==> s[pid] == t[pid]) ==> s == t;
  }

  // ---- The registry ---------------------------------------------------------------------------

  class Registry {
    var processTable: map<Pid, Process>
    var treeTable: map<TreeId, Tree>
    var treeProcessIndex: map<TreeId, set<Pid>>
    var processChildren: map<Pid, set<Pid>>
    var processCounter: nat
    var treeCounter: nat

    ghost function View(): State
      reads this
    {
      State(processTable, treeTable, treeProcessIndex, processChildren, processCounter, treeCounter)
    }

    constructor ()
      ensures View() == Initial()
    {
      processTable, treeTable, treeProcessIndex, processChildren := map[], map[], map[], map[];
      processCounter, treeCounter := 1000, 1;
    }

    method CreateTreeLocked(explicitId: TreeId) returns (id: TreeId)
      modifies this
      ensures (View(), id) == CreateTree(old(View()), explicitId)
    {
      if explicitId != "" {
        id := explicitId;
      } else {
        id := GeneratedId(treeCounter);
        treeCounter := treeCounter + 1;
      }
      treeTable := treeTable[id := Tree(-1, Active)];
    }

    method RegisterProcess(treeId: TreeId, parent: Pid, status: ProcessStatus, isHandler: bool)
      returns (r: Registration)
      modifies this
      ensures (View(), r) == Register(old(View()), treeId, parent, status, isHandler)
    {
      var pid: int := processCounter;
      processCounter := processCounter + 1;
      if pid > INT_MAX { return Refused("pid space exhausted"); }
      var finalTree, isRoot := treeId, false;
      if isHandler {
        finalTree, isRoot := HANDLER, true;
      } else if treeId == "" {
        finalTree := CreateTreeLocked("");
        isRoot := true;
      } else if treeId !in treeTable {
        return Refused("tree not found");
      } else if treeTable[treeId].status != Active {
        return Refused("tree is not active");
      }
      processTable := processTable[pid := Process(finalTree, parent, status, true, 0)];
      OnProcessRegistered(finalTree, parent, pid);
      if isRoot && finalTree in treeTable {
        treeTable := treeTable[finalTree := treeTable[finalTree].(root := pid)];
      }
      r := Registered(pid, finalTree);
    }

    method OnProcessRegistered(treeId: TreeId, parent: Pid, pid: Pid)
      modifies this`treeProcessIndex, this`processChildren
      ensures treeProcessIndex == Insert(old(treeProcessIndex), treeId, pid)
      ensures processChildren == if parent > 0 then Insert(old(processChildren), parent, pid) else old(processChildren)
    {
      var pids := if treeId in treeProcessIndex then treeProcessIndex[treeId] else {};
      treeProcessIndex := treeProcessIndex[treeId := pids + {pid}];
      if parent > 0 {
        var siblings := if parent in processChildren then processChildren[parent] else {};
        processChildren := processChildren[parent := siblings + {pid}];
      }
    }

    method MarkProcessKilled(pid: Pid)
      modifies this`processTable
      ensures View() == MarkKilled(old(View()), pid)
    {
      if pid !in processTable { return; }
      processTable := processTable[pid := processTable[pid].(status := ProcessStatus.Killed)];
      processTable := processTable[pid := processTable[pid].(alive := false)];
    }

    /** Erases `pid` from the processes of its tree, and an emptied set from the index. */
    method EraseFromTree(treeId: TreeId, pid: Pid)
      modifies this`treeProcessIndex
      ensures treeProcessIndex == Remove(old(treeProcessIndex), treeId, pid)
    {
      if treeId in treeProcessIndex {
        var pids := treeProcessIndex[treeId] - {pid};
        if pids == {} {
          treeProcessIndex := treeProcessIndex - {treeId};
        } else {
          treeProcessIndex := treeProcessIndex[treeId := pids];
        }
      }
    }

    method EraseChild(parent: Pid, pid: Pid)
      modifies this`processChildren
      ensures processChildren == Remove(old(processChildren), parent, pid)
    {
      if parent in processChildren {
        var siblings := processChildren[parent] - {pid};
        if siblings == {} {
          processChildren := processChildren - {parent};
        } else {
          processChildren := processChildren[parent := siblings];
        }
      }
    }

    method TerminateProcess(pid: Pid, now: nat)
      modifies this
      ensures View() == Terminate(old(View()), pid, now)
    {
      hide Remove;
      if pid !in processTable { return; }
      var process := processTable[pid];
      if !process.alive { return; }
      processTable := processTable[pid := process.(alive := false)];
      EraseFromTree(process.treeId, pid);
      if process.parent > 0 { EraseChild(process.parent, pid); }
      processChildren := processChildren - {pid};
      processTable := processTable[pid := processTable[pid].(terminationTime := now)];
    }

    /** Visits every process once, in any order. */
    method CleanupHistoricalProcesses(now: nat, retention: nat)
      modifies this`processTable
      ensures View() == Cleanup(old(View()), now, retention)
    {
      hide Historical;
      var left := processTable.Keys;
      while left != {}
        invariant left <= processTable.Keys <= old(processTable).Keys
        invariant forall p | p in processTable :: processTable[p] == old(processTable)[p]
        invariant forall p | p in old(processTable) && p !in left ::
                    p in processTable <==> !Historical(old(processTable)[p], now, retention)
        decreases left
      {
        SomePid(left);
        var pid :| pid in left;
        left := left - {pid};
        if Historical(processTable[pid], now, retention) {
          processTable := processTable - {pid};
        }
      }
      assert forall p :: p !in left;
      ghost var kept := Cleanup(old(View()), now, retention).processes;
      assert forall p | p in processTable.Keys :: p in kept.Keys;
      assert forall p | p in kept.Keys :: p in processTable.Keys;
      assert processTable.Keys <= kept.Keys;
      assert kept.Keys <= processTable.Keys;
      SameTable(processTable, kept);
    }

    method KillTreeProcesses(treeId: TreeId) returns (pids: set<Pid>)
      modifies this
      ensures View() == KillTree(old(View()), treeId) && pids == AliveIndexed(old(View()), treeId)
    {
      if treeId in treeTable {
        treeTable := treeTable[treeId := treeTable[treeId].(status := TreeStatus.Killed)];
      }
      pids := {};
      var left := if treeId in treeProcessIndex then treeProcessIndex[treeId] else {};
      ghost var all := left;
      while left != {}
        invariant View() == KillTree(old(View()), treeId).(processes := processTable)
        invariant left <= all && processTable.Keys == old(processTable).Keys
        invariant pids == set p | p in all - left && p in old(processTable) && old(processTable)[p].alive
        invariant forall p | p in processTable ::
                    processTable[p] == if p in pids then old(processTable)[p].(status := ProcessStatus.Killed)
                                       else old(processTable)[p]
        decreases left
      {
        SomePid(left);
        var pid :| pid in left;
        left := left - {pid};
        if pid in processTable && processTable[pid].alive {
          pids := pids + {pid};
          processTable := processTable[pid := processTable[pid].(status := ProcessStatus.Killed)];
        }
      }
      assert all == Indexed(old(View()), treeId);
      assert forall p :: p in pids <==> p in AliveIndexed(old(View()), treeId);
      SameTable(processTable, KillTree(old(View()), treeId).processes);
    }

    method MarkTreeCompletedIfDone(treeId: TreeId) returns (completed: bool)
      modifies this
      ensures View() == CompleteIfDone(old(View()), treeId) && completed == CanComplete(old(View()), treeId)
    {
      if treeId !in treeTable { return false; }
      if treeId == HANDLER { return false; }
      var status := treeTable[treeId].status;
      if status == Completed || status == Failed || status == TreeStatus.Killed { return false; }
      if treeId in treeProcessIndex && treeProcessIndex[treeId] != {} { return false; }
      var left := processTable.Keys;
      while left != {}
        invariant View() == old(View()) && left <= processTable.Keys
        invariant forall p | p in processTable.Keys - left && processTable[p].treeId == treeId ::
                Terminal(processTable[p].status)
        decreases left
      {
        SomePid(left);
        var pid :| pid in left;
        left := left - {pid};
        if processTable[pid].treeId == treeId {
          var s := processTable[pid].status;
          if s != Finished && s != ProcessStatus.Killed && s != Errored { return false; }
        }
      }
      treeTable := treeTable[treeId := treeTable[treeId].(status := Completed)];
      completed := true;
    }

    method MarkTreeFailed(treeId: TreeId)
      modifies this
      ensures View() == MarkFailed(old(View()), treeId)
    {
      if treeId in treeTable {
        var current := treeTable[treeId].status;
        if current != TreeStatus.Killed && current != Completed && current != Failed {
          treeTable := treeTable[treeId := treeTable[treeId].(status := Failed)];
        }
      }
    }
  }

  /** The termination engine without its signals and notifications; the clock may move between targets, which
      plays no part since a target is never terminated by the engine. */
  method KillProcesses(registry: Registry, targets: seq<Pid>, now: nat)
    modifies registry
    ensures registry.View() == KillAll(old(registry.View()), targets, now)
  {
    for i := 0 to |targets|
      invariant registry.View() == KillAll(old(registry.View()), targets[..i], now)
    {
      assert targets[..i + 1][..i] == targets[..i];
      registry.MarkProcessKilled(targets[i]);
      registry.TerminateProcess(targets[i], now);
    }
    assert targets[..|targets|] == targets;
  }

  function Initial(): State { State(map[], map[], map[], map[], 1000, 1) }

  // ---- What the engine leaves behind -------------------------------------------------------------

  /** Killed but never terminated: dead, with no termination time. */
  predicate Zombie(s: State, pid: Pid) {
    pid in s.processes && !s.processes[pid].alive && s.processes[pid].terminationTime == 0
  }

  lemma KillOneOnlyMarks(s: State, pid: Pid, now: nat)
    ensures KillOne(s, pid, now) == MarkKilled(s, pid)
  {}

  /** Killing processes takes no pid out of the indexes, whatever the targets: every living target becomes a
      zombie. */
  lemma {:induction false} KillAllKeepsIndex(s: State, pids: seq<Pid>, now: nat)
    ensures var s' := KillAll(s, pids, now);
            && s'.index == s.index && s'.children == s.children && s'.trees == s.trees
            && s'.processes.Keys == s.processes.Keys
            && forall p | p in s.processes ::
                 && s'.processes[p].terminationTime == s.processes[p].terminationTime
                 && s'.processes[p].treeId == s.processes[p].treeId
                 && s'.processes[p].status == (if p in pids then ProcessStatus.Killed else s.processes[p].status)
                 && (s'.processes[p].alive <==> s.processes[p].alive && p !in pids)
  {
    if pids != [] {
      var init, last := pids[..|pids| - 1], pids[|pids| - 1];
      KillAllKeepsIndex(s, init, now);
      KillOneOnlyMarks(KillAll(s, init, now), last, now);
      assert pids == init + [last];
    }
  }

  lemma LivingTargetsBecomeZombies(s: State, pids: seq<Pid>, now: nat, pid: Pid)
    requires pid in pids && pid in s.processes && s.processes[pid].alive && s.processes[pid].terminationTime == 0
    ensures Zombie(KillAll(s, pids, now), pid)
  {
    KillAllKeepsIndex(s, pids, now);
  }
}
