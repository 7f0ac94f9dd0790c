/**
 The ready queue of the LLM scheduler: one FIFO queue and one lock for each queue key, and a heap
 of candidates that is cleaned lazily, by versions.
 */
module Scheduler {
  import opened Unsigned

  const HANDLER_TREE: string := "TREE_HANDLER"

  type Key = string

  /** A pending request; `ticket` tells apart requests that are otherwise alike. */
  datatype Request = Request(ticket: nat, treeId: string, mode: string, userId: string, queueKey: Key,
                             basePriority: int, enqueuedAt: int)

  datatype TreeQueue = TreeQueue(requests: seq<Request>, hasActiveKey: bool, version: nat)

  datatype Candidate = Candidate(queueKey: Key, score: real, version: nat)

  datatype Ready = Ready(queues: map<Key, TreeQueue>, heap: multiset<Candidate>)

  /** A human user of the handler tree has a queue of their own; every other tree has one queue. */
  function QueueKey(treeId: string, mode: string, userId: string): Key {
    if treeId == HANDLER_TREE && mode == "user_conversation" && userId != "" then "user_" + userId else treeId
  }

  function Priority(r: Request, now: int): real {
    r.basePriority as real + (now - r.enqueuedAt) as real / 5000.0
  }

  function Next(version: nat): nat { (version + 1) % UINT64 }

  predicate Eligible(q: TreeQueue) { !q.hasActiveKey && q.requests != [] }

  /** A candidate the scheduler would accept if it came to the top now. */
  predicate Valid(s: Ready, c: Candidate) {
    c.queueKey in s.queues && s.queues[c.queueKey].version == c.version && Eligible(s.queues[c.queueKey])
  }

  function Enqueued(s: Ready, key: Key, now: int): Ready {
    if key in s.queues && Eligible(s.queues[key]) then
      var q := s.queues[key];
      s.(heap := s.heap + multiset{Candidate(key, Priority(q.requests[0], now), q.version)})
    else s
  }

  function Submitted(s: Ready, r: Request, now: int): Ready {
    var q := if r.queueKey in s.queues then s.queues[r.queueKey] else TreeQueue([], false, 0);
    var q' := TreeQueue(q.requests + [r], q.hasActiveKey, Next(q.version));
    Enqueued(s.(queues := s.queues[r.queueKey := q']), r.queueKey, now)
  }

  function Released(s: Ready, key: Key, now: int): Ready {
    if key !in s.queues then s
    else
      var q := s.queues[key];
      var q' := TreeQueue(q.requests, false, Next(q.version));
      if q.requests == [] then s.(queues := s.queues - {key})
      else Enqueued(s.(queues := s.queues[key := q']), key, now)
  }

  /** The queue after its front request is handed out. */
  function Taken(q: TreeQueue): TreeQueue
    requires q.requests != []
  {
    TreeQueue(q.requests[1..], true, Next(q.version))
  }

  /** `s'` comes from `s` by picking through `c`: a valid candidate of maximal score among the valid ones; what
      leaves the heap besides is invalid, and everything with a greater score leaves it. */
  ghost predicate PicksThrough(s: Ready, s': Ready, c: Candidate) {
    && c in s.heap && Valid(s, c)
    && (forall x | x in s.heap && Valid(s, x) :: x.score <= c.score)
    && s'.queues == s.queues[c.queueKey := Taken(s.queues[c.queueKey])]
    && s'.heap <= s.heap - multiset{c}
    && (forall x | x in s.heap - multiset{c} && Valid(s, x) :: s'.heap[x] == (s.heap - multiset{c})[x])
    && (forall x | x in s'.heap :: x.score <= c.score)
  }

  // ---- The service ----------------------------------------------------------------------

  lemma {:induction false} MaxOf(heap: multiset<Candidate>) returns (m: Candidate)
    requires heap != multiset{}
    ensures m in heap && forall x | x in heap :: x.score <= m.score
    decreases |heap|
  {
    var c :| c in heap;
    var rest := heap - multiset{c};
    assert heap == rest + multiset{c};
    if rest == multiset{} {
      m := c;
    } else {
      var d := MaxOf(rest);
      m := if c.score <= d.score then d else c;
      assert forall x | x in heap :: x == c || x in rest;
    }
  }

  /** What is left of the heap once only invalid candidates have been thrown away. */
  ghost predicate Sifted(s: Ready, heap: multiset<Candidate>) {
    heap <= s.heap && forall x | x in s.heap && Valid(s, x) :: heap[x] == s.heap[x]
  }

  lemma SiftInvalid(s: Ready, heap: multiset<Candidate>, c: Candidate)
    requires Sifted(s, heap) && !Valid(s, c)
    ensures Sifted(s, heap - multiset{c})
  {}

  lemma NothingLeft(s: Ready)
    requires Sifted(s, multiset{})
    ensures !exists c :: c in s.heap && Valid(s, c)
  {
    assert forall x | x in s.heap :: multiset{}[x] != s.heap[x];
  }

  lemma PickAfterSifting(s: Ready, heap: multiset<Candidate>, c: Candidate, s': Ready)
    requires Sifted(s, heap) && c in heap && Valid(s, c) && forall x | x in heap :: x.score <= c.score
    requires s' == Ready(s.queues[c.queueKey := Taken(s.queues[c.queueKey])], heap - multiset{c})
    ensures PicksThrough(s, s', c)
  {
    assert forall x | x in s.heap && Valid(s, x) :: x in heap;
  }

  class SchedulerService {
    var treeQueues: map<Key, TreeQueue>
    var readyTreeQueue: multiset<Candidate>

    ghost function View(): Ready
      reads this
    {
      Ready(treeQueues, readyTreeQueue)
    }

    constructor ()
      ensures View() == Ready(map[], multiset{})
    {
      treeQueues, readyTreeQueue := map[], multiset{};
    }

    method EnqueueTreeCandidateIfEligible(key: Key, now: int)
      modifies this
      ensures View() == Enqueued(old(View()), key, now)
    {
      if key !in treeQueues { return; }
      var queue := treeQueues[key];
      if queue.hasActiveKey || queue.requests == [] { return; }
      var score := Priority(queue.requests[0], now);
      readyTreeQueue := readyTreeQueue + multiset{Candidate(key, score, queue.version)};
    }

    method Submit(r: Request, now: int)
      modifies this
      ensures View() == Submitted(old(View()), r, now)
    {
      var queue := if r.queueKey in treeQueues then treeQueues[r.queueKey] else TreeQueue([], false, 0);
      queue := queue.(requests := queue.requests + [r]);
      queue := queue.(version := Next(queue.version));
      treeQueues := treeQueues[r.queueKey := queue];
      EnqueueTreeCandidateIfEligible(r.queueKey, now);
    }

    /** Pops until a valid candidate comes up; ties may come up in any order. */
    method PickNextRequest() returns (found: bool, out: Request)
      modifies this
      ensures found ==> exists c ::
              PicksThrough(old(View()), View(), c) && out == old(treeQueues)[c.queueKey].requests[0]
      ensures !found ==> treeQueues == old(treeQueues) && readyTreeQueue == multiset{}
      ensures found <==> exists c :: c in old(readyTreeQueue) && Valid(old(View()), c)
    {
      out := Request(0, "", "", "", "", 0, 0);
      ghost var s := View();
      while readyTreeQueue != multiset{}
        invariant treeQueues == s.queues && Sifted(s, readyTreeQueue)
        decreases |readyTreeQueue|
      {
        ghost var top := MaxOf(readyTreeQueue);
        var candidate :| candidate in readyTreeQueue && forall x | x in readyTreeQueue :: x.score <= candidate.score;
        ghost var before := readyTreeQueue;
        readyTreeQueue := readyTreeQueue - multiset{candidate};
        if !Valid(s, candidate) { SiftInvalid(s, before, candidate); }
        if candidate.queueKey !in treeQueues { continue; }
        var queue := treeQueues[candidate.queueKey];
        if queue.version != candidate.version { continue; }
        if queue.hasActiveKey || queue.requests == [] { continue; }
        out := queue.requests[0];
        queue := queue.(requests := queue.requests[1..]);
        queue := queue.(hasActiveKey := true);
        queue := queue.(version := Next(queue.version));
        treeQueues := treeQueues[candidate.queueKey := queue];
        PickAfterSifting(s, before, candidate, View());
        return true, out;
      }
      NothingLeft(s);
      found := false;
    }

    method ReleaseTreeKey(key: Key, now: int)
      modifies this
      ensures View() == Released(old(View()), key, now)
    {
      if key !in treeQueues { return; }
      var queue := treeQueues[key];
      queue := queue.(hasActiveKey := false);
      queue := queue.(version := Next(queue.version));
      treeQueues := treeQueues[key := queue];
      if queue.requests == [] {
        treeQueues := treeQueues - {key};
        assert treeQueues == old(treeQueues) - {key};
        return;
      }
      EnqueueTreeCandidateIfEligible(key, now);
    }
  }

  // ---- Work conservation ---------------------------------------------------------------------

  /** Every queue that is not locked has work, and a candidate with its current version. */
  ghost predicate Covered(s: Ready) {
    forall k | k in s.queues && !s.queues[k].hasActiveKey ::
      s.queues[k].requests != [] && HasCandidate(s, k)
  }

  ghost predicate HasCandidate(s: Ready, k: Key)
    requires k in s.queues
  {
    exists score :: Candidate(k, score, s.queues[k].version) in s.heap
  }

  lemma EnqueuedCovers(s: Ready, key: Key, now: int)
    requires key in s.queues && Eligible(s.queues[key])
    ensures HasCandidate(Enqueued(s, key, now), key)
  {
    var q := s.queues[key];
    assert Candidate(key, Priority(q.requests[0], now), q.version) in Enqueued(s, key, now).heap;
  }

  lemma CandidateKept(s: Ready, s': Ready, k: Key)
    requires k in s.queues && k in s'.queues && s.queues[k].version == s'.queues[k].version
    requires HasCandidate(s, k) && s.heap <= s'.heap
    ensures HasCandidate(s', k)
  {
    var score :| Candidate(k, score, s.queues[k].version) in s.heap;
    assert Candidate(k, score, s'.queues[k].version) in s'.heap;
  }

  lemma SubmitKeepsCovered(s: Ready, r: Request, now: int)
    requires Covered(s)
    ensures Covered(Submitted(s, r, now))
  {
    var s' := Submitted(s, r, now);
    forall k | k in s'.queues && !s'.queues[k].hasActiveKey
      ensures s'.queues[k].requests != [] && HasCandidate(s', k)
    {
      if k == r.queueKey {
        EnqueuedCovers(s.(queues := s'.queues), k, now);
      } else {
        CandidateKept(s, s', k);
      }
    }
  }

  lemma ReleaseKeepsCovered(s: Ready, key: Key, now: int)
    requires Covered(s)
    ensures Covered(Released(s, key, now))
  {
    var s' := Released(s, key, now);
    forall k | k in s'.queues && !s'.queues[k].hasActiveKey
      ensures s'.queues[k].requests != [] && HasCandidate(s', k)
    {
      if k == key {
        EnqueuedCovers(s.(queues := s'.queues), k, now);
      } else {
        CandidateKept(s, s', k);
      }
    }
  }

  /** Picking removes no valid candidate of another queue, so every other idle queue stays covered. */
  lemma PickKeepsCovered(s: Ready, s': Ready, c: Candidate)
    requires Covered(s) && PicksThrough(s, s', c)
    ensures Covered(s')
  {
    forall k | k in s'.queues && !s'.queues[k].hasActiveKey
      ensures s'.queues[k].requests != [] && HasCandidate(s', k)
    {
      assert k != c.queueKey;
      var score :| Candidate(k, score, s.queues[k].version) in s.heap;
      var x := Candidate(k, score, s.queues[k].version);
      assert x in s.heap - multiset{c} && Valid(s, x);
      assert x in s'.heap;
    }
  }

  /** In a covered state there is a valid candidate exactly if some queue has work and is not locked: a pick
      fails only when nothing could be picked. */
  lemma PickFailsOnlyWhenIdle(s: Ready)
    requires Covered(s)
    ensures (exists c :: c in s.heap && Valid(s, c)) <==> exists k :: k in s.queues && Eligible(s.queues[k])
  {
    if k :| k in s.queues && Eligible(s.queues[k]) {
      var score :| Candidate(k, score, s.queues[k].version) in s.heap;
      assert Valid(s, Candidate(k, score, s.queues[k].version));
    }
    if c :| c in s.heap && Valid(s, c) {
      assert c.queueKey in s.queues && Eligible(s.queues[c.queueKey]);
    }
  }
}
