/**
 What single operations of the process registry change and what they leave alone, read off the tables and indexes.
 */
module RegistryLaws {
  import opened Decimal
  import opened ProcessRegistry
  import opened Unsigned

  function Kids(s: State, pid: Pid): set<Pid> {
    if pid in s.children then s.children[pid] else {}
  }

  /** When a registration succeeds, under which pid and in which tree. */
  lemma RegisterIff(s: State, treeId: TreeId, parent: Pid, status: ProcessStatus, isHandler: bool)
    ensures var (t, r) := Register(s, treeId, parent, status, isHandler);
            && (r.Registered? <==>
                && s.nextPid <= 0x7FFF_FFFF
                && (isHandler || treeId == "" || (treeId in s.trees && s.trees[treeId].status == Active)))
            && (r.Registered? ==>
                r == Registered(s.nextPid, if isHandler then "TREE_HANDLER"
                                           else if treeId == "" then "TREE_" + Digits(s.nextTree) else treeId))
            && t.nextPid == s.nextPid + 1
            && (r.Refused? ==> t == s.(nextPid := s.nextPid + 1))
  {}

  /** A registered process is in the table, in the index of its tree and among its parent's children. */
  lemma RegisterAdds(s: State, treeId: TreeId, parent: Pid, status: ProcessStatus, isHandler: bool, x: TreeId, p: Pid)
    requires Register(s, treeId, parent, status, isHandler).1.Registered?
    ensures var (t, r) := Register(s, treeId, parent, status, isHandler);
            && t.processes == s.processes[r.pid := Process(r.treeId, parent, status, true, 0)]
            && Indexed(t, x) == Indexed(s, x) + (if x == r.treeId then {r.pid} else {})
            && Kids(t, p) == Kids(s, p) + (if p == parent && parent > 0 then {r.pid} else {})
  {
    hide GeneratedId, AddProcess, Indexed, Kids;
    var (t, r) := Register(s, treeId, parent, status, isHandler);
    var u := s.(nextPid := s.nextPid + 1);
    if !isHandler && treeId == "" { u := CreateTree(u, "").0; }
    AddAdds(u, r.pid, r.treeId, parent, status, isHandler || treeId == "", x, p);
    SameIndexes(s, u, x, p);
  }

  lemma AddAdds(s: State, pid: Pid, treeId: TreeId, parent: Pid, status: ProcessStatus, isRoot: bool, x: TreeId, p: Pid)
    ensures var t := AddProcess(s, pid, treeId, parent, status, isRoot);
            && t.processes == s.processes[pid := Process(treeId, parent, status, true, 0)]
            && Indexed(t, x) == Indexed(s, x) + (if x == treeId then {pid} else {})
            && Kids(t, p) == Kids(s, p) + (if p == parent && parent > 0 then {pid} else {})
            && t.nextPid == s.nextPid && t.nextTree == s.nextTree
  {}

  lemma SameIndexes(s: State, t: State, x: TreeId, p: Pid)
    requires t.index == s.index && t.children == s.children
    ensures Indexed(t, x) == Indexed(s, x) && Kids(t, p) == Kids(s, p)
  {}

  /** A new tree starts as Active with its first process as root; a process that joins a tree leaves it as it is; and
      the handler's process becomes the root of the handler's tree if there is one. */
  lemma RegisterRoots(s: State, treeId: TreeId, parent: Pid, status: ProcessStatus, isHandler: bool)
    requires Register(s, treeId, parent, status, isHandler).1.Registered?
    ensures var (t, r) := Register(s, treeId, parent, status, isHandler);
            if isHandler then
              if "TREE_HANDLER" in s.trees
              then t.trees == s.trees["TREE_HANDLER" := Tree(r.pid, s.trees["TREE_HANDLER"].status)]
              else t.trees == s.trees
            else if treeId == "" then
              t.trees == s.trees[r.treeId := Tree(r.pid, Active)] && t.nextTree == s.nextTree + 1
            else t.trees == s.trees && t.nextTree == s.nextTree
  {}

  lemma FirstRegistration(status: ProcessStatus)
    ensures Register(Initial(), "", -1, status, false).1 == Registered(1000, "TREE_1")
  {
    assert Digits(1) == "1";
  }

  /** A living process that is terminated leaves the index of its tree, the children of its parent, and its own list of
      children; its record says when. Nothing happens to the dead. */
  lemma TerminateLeaves(s: State, pid: Pid, now: nat, x: TreeId, p: Pid)
    ensures pid !in s.processes || !s.processes[pid].alive ==> Terminate(s, pid, now) == s
    ensures pid in s.processes && s.processes[pid].alive ==>
            var t, q := Terminate(s, pid, now), s.processes[pid];
            && t.processes == s.processes[pid := Process(q.treeId, q.parent, q.status, false, now)]
            && Indexed(t, x) == (if x == q.treeId then Indexed(s, x) - {pid} else Indexed(s, x))
            && Kids(t, p) == (if p == pid then {}
                              else if p == q.parent && p > 0 then Kids(s, p) - {pid}
                              else Kids(s, p))
            && t.trees == s.trees && t.nextPid == s.nextPid && t.nextTree == s.nextTree
  {}

  /** A cleanup drops exactly the processes that are dead, were terminated, and have been so for longer than the
      retention; a stamp ahead of the clock counts as long past. Nothing else changes. */
  lemma CleanupDropsIff(s: State, now: nat, retention: nat, pid: Pid)
    requires now < UINT64 && pid in s.processes && s.processes[pid].terminationTime < UINT64
    ensures var t, p := Cleanup(s, now, retention), s.processes[pid];
            && (pid !in t.processes <==>
                && !p.alive && p.terminationTime > 0
                && if p.terminationTime <= now then now - p.terminationTime > retention
                   else p.terminationTime - now < 0x1_0000_0000_0000_0000 - retention)
            && (pid in t.processes ==> t.processes[pid] == p)
            && t == s.(processes := t.processes)
  {
    AgeExceedsIff(now, s.processes[pid].terminationTime, retention);
  }

  /** Killing a tree marks the tree, and of the processes exactly those that are alive and in its index; it takes none
      out of the index and leaves them alive for the engine. */
  lemma KillTreeMarks(s: State, treeId: TreeId, x: TreeId, pid: Pid)
    ensures var t := KillTree(s, treeId);
            && (x in t.trees <==> x in s.trees)
            && (x in s.trees ==> t.trees[x] == Tree(s.trees[x].root, if x == treeId then TreeStatus.Killed
                                                                     else s.trees[x].status))
            && (pid in t.processes <==> pid in s.processes)
            && (pid in s.processes ==>
                  var p := s.processes[pid];
                  t.processes[pid] ==
                  if p.alive && treeId in s.index && pid in s.index[treeId]
                  then Process(p.treeId, p.parent, ProcessStatus.Killed, true, p.terminationTime) else p)
            && t == s.(trees := t.trees, processes := t.processes)
  {}

  /** A tree fails exactly if it was active. */
  lemma FailsIff(s: State, treeId: TreeId)
    requires treeId in s.trees
    ensures var t := MarkFailed(s, treeId);
            && t.trees == s.trees[treeId := Tree(s.trees[treeId].root,
                                                 if s.trees[treeId].status == Active then Failed
                                                 else s.trees[treeId].status)]
            && t == s.(trees := t.trees)
  {
    assert s.trees[treeId := s.trees[treeId]] == s.trees;
  }
}
