/**
 All interleavings of clients that submit and workers that pick and complete. A step is one
 critical section under the queue mutex.
 */
module SchedulerRuns {
  import opened Scheduler

  type Worker = nat

  datatype State = State(
    ready: Ready,
    inFlight: map<Worker, Request>,
    submitted: seq<Request>,  // in the order of the submissions
    picked: seq<Request>,     // in the order of the picks
    completed: seq<Request>,
    now: int)

  datatype Step =
    | Tick(ms: nat)
    | Submit(treeId: string, mode: string, userId: string, priority: int, waited: nat)
    | Pick(w: Worker, c: Candidate)
    | PickNothing(w: Worker)
    | Complete(w: Worker)

  function NewRequest(s: State, step: Step): Request
    requires step.Submit?
  {
    Request(|s.submitted|, step.treeId, step.mode, step.userId, QueueKey(step.treeId, step.mode, step.userId),
            step.priority, s.now - step.waited)
  }

  ghost predicate Does(s: State, step: Step, s': State, workers: nat) {
    match step
    case Tick(ms) => s' == s.(now := s.now + ms)
    case Submit(_, _, _, _, _) =>
      var r := NewRequest(s, step);
      s' == s.(ready := Submitted(s.ready, r, s.now), submitted := s.submitted + [r])
    case Pick(w, c) =>
      && w < workers && w !in s.inFlight && PicksThrough(s.ready, s'.ready, c)
      && var r := s.ready.queues[c.queueKey].requests[0];
         s' == s.(ready := s'.ready, inFlight := s.inFlight[w := r], picked := s.picked + [r])
    case PickNothing(w) =>
      && w < workers && w !in s.inFlight && !(exists c :: c in s.ready.heap && Valid(s.ready, c))
      && s' == s.(ready := Ready(s.ready.queues, multiset{}))
    case Complete(w) =>
      && w in s.inFlight
      && var r := s.inFlight[w];
         s' == s.(ready := Released(s.ready, r.queueKey, s.now), inFlight := s.inFlight - {w},
                  completed := s.completed + [r])
  }

  ghost predicate Run(states: seq<State>, steps: seq<Step>, workers: nat) {
    && |states| == |steps| + 1 && states[0] == State(Ready(map[], multiset{}), map[], [], [], [], 0)
    && forall i | 0 <= i < |steps| :: Does(states[i], steps[i], states[i + 1], workers)
  }

  // ---- The invariant -----------------------------------------------------------------------

  /** The requests of one key, in order. */
  function OfKey(rs: seq<Request>, k: Key): seq<Request> {
    if rs == [] then []
    else
      var init, last := OfKey(rs[..|rs| - 1], k), rs[|rs| - 1];
      if last.queueKey == k then init + [last] else init
  }

  function QueueOf(s: Ready, k: Key): seq<Request> {
    if k in s.queues then s.queues[k].requests else []
  }

  predicate NoDuplicates(rs: seq<Request>) {
    forall i, j | 0 <= i < j < |rs| :: rs[i] != rs[j]
  }

  ghost predicate IsInFlight(s: State, r: Request) {
    exists w :: w in s.inFlight && s.inFlight[w] == r
  }

  /** A queue is locked exactly while one of its requests is in flight, and then only one is. */
  ghost predicate Locks(s: State) {
    && (forall w | w in s.inFlight ::
          s.inFlight[w].queueKey in s.ready.queues && s.ready.queues[s.inFlight[w].queueKey].hasActiveKey)
    && (forall k | k in s.ready.queues && s.ready.queues[k].hasActiveKey ::
          exists w :: w in s.inFlight && s.inFlight[w].queueKey == k)
    && (forall v, w | v in s.inFlight && w in s.inFlight && s.inFlight[v].queueKey == s.inFlight[w].queueKey :: v == w)
  }

  ghost predicate Fifo(s: State) {
    forall k :: OfKey(s.submitted, k) == OfKey(s.picked, k) + QueueOf(s.ready, k)
  }

  /** Every picked request is in flight or completed, never both, and completed once. */
  ghost predicate Accounted(s: State) {
    && (forall r :: r in s.picked <==> IsInFlight(s, r) || r in s.completed)
    && (forall w | w in s.inFlight :: s.inFlight[w] !in s.completed)
    && NoDuplicates(s.completed)
  }

  ghost predicate Tickets(s: State) {
    forall i | 0 <= i < |s.submitted| ::
      var r := s.submitted[i];
      r.ticket == i && r.queueKey == QueueKey(r.treeId, r.mode, r.userId)
  }

  ghost predicate Inv(s: State, workers: nat) {
    && Covered(s.ready) && Locks(s) && Fifo(s) && Accounted(s) && Tickets(s)
    && forall w | w in s.inFlight :: w < workers
  }

  lemma OfKeySnoc(rs: seq<Request>, r: Request, k: Key)
    ensures OfKey(rs + [r], k) == if r.queueKey == k then OfKey(rs, k) + [r] else OfKey(rs, k)
  {
    assert (rs + [r])[..|rs|] == rs;
  }

  lemma {:induction false} InOfKey(rs: seq<Request>, r: Request, k: Key)
    ensures r in OfKey(rs, k) <==> r in rs && r.queueKey == k
  {
    if rs != [] {
      var init := rs[..|rs| - 1];
      InOfKey(init, r, k);
      assert rs == init + [rs[|rs| - 1]];
    }
  }

  lemma {:induction false} OfKeyNoDuplicates(rs: seq<Request>, k: Key)
    requires NoDuplicates(rs)
    ensures NoDuplicates(OfKey(rs, k))
  {
    if rs != [] {
      var init, last := rs[..|rs| - 1], rs[|rs| - 1];
      OfKeyNoDuplicates(init, k);
      InOfKey(init, last, k);
    }
  }

  /** A queued request was submitted with that key and has not been picked. */
  lemma QueuedIsNotPicked(s: State, r: Request)
    requires Fifo(s) && Tickets(s) && r in QueueOf(s.ready, r.queueKey)
    ensures r in s.submitted && r !in s.picked
  {
    var k := r.queueKey;
    var all, front := OfKey(s.submitted, k), OfKey(s.picked, k);
    assert all == front + QueueOf(s.ready, k);
    InOfKey(s.submitted, r, k);
    InOfKey(s.picked, r, k);
    OfKeyNoDuplicates(s.submitted, k);
    var j :| 0 <= j < |QueueOf(s.ready, k)| && QueueOf(s.ready, k)[j] == r;
    assert all[|front| + j] == r;
    forall i | 0 <= i < |front| ensures front[i] != r {
      assert all[i] == front[i] && all[i] != all[|front| + j];
    }
  }

  lemma QueueKeysMatch(s: State, k: Key, r: Request)
    requires Fifo(s) && r in QueueOf(s.ready, k)
    ensures r.queueKey == k
  {
    InOfKey(s.submitted, r, k);
    assert r in OfKey(s.picked, k) + QueueOf(s.ready, k);
  }

  lemma SubmitKeepsInv(s: State, step: Step, s': State, workers: nat)
    requires Inv(s, workers) && step.Submit? && Does(s, step, s', workers)
    ensures Inv(s', workers)
  {
    var r := NewRequest(s, step);
    SubmitKeepsCovered(s.ready, r, s.now);
    SubmitKeepsFifo(s, step, s', workers);
    SubmitKeepsLocks(s, step, s', workers);
    hide Fifo, Covered, Locks, Submitted;
    assert forall q :: IsInFlight(s', q) <==> IsInFlight(s, q);
  }

  lemma SubmitKeepsLocks(s: State, step: Step, s': State, workers: nat)
    requires Locks(s) && step.Submit? && Does(s, step, s', workers)
    ensures Locks(s')
  {
    var r := NewRequest(s, step);
    assert s'.ready.queues.Keys == s.ready.queues.Keys + {r.queueKey};
    assert forall k | k in s'.ready.queues && s'.ready.queues[k].hasActiveKey ::
      k in s.ready.queues && s.ready.queues[k].hasActiveKey;
  }

  lemma SubmitKeepsFifo(s: State, step: Step, s': State, workers: nat)
    requires Fifo(s) && step.Submit? && Does(s, step, s', workers)
    ensures Fifo(s')
  {
    var r := NewRequest(s, step);
    forall k ensures OfKey(s'.submitted, k) == OfKey(s'.picked, k) + QueueOf(s'.ready, k) {
      OfKeySnoc(s.submitted, r, k);
      assert OfKey(s.submitted, k) == OfKey(s.picked, k) + QueueOf(s.ready, k);
      if r.queueKey == k {
        assert QueueOf(s'.ready, k) == QueueOf(s.ready, k) + [r];
      } else {
        assert QueueOf(s'.ready, k) == QueueOf(s.ready, k);
      }
    }
  }

  lemma PickKeepsInv(s: State, step: Step, s': State, workers: nat)
    requires Inv(s, workers) && step.Pick? && Does(s, step, s', workers)
    ensures Inv(s', workers)
  {
    var w, c, k := step.w, step.c, step.c.queueKey;
    var queue := s.ready.queues[k].requests;
    var r := queue[0];
    QueueKeysMatch(s, k, r);
    QueuedIsNotPicked(s, r);
    PickKeepsCovered(s.ready, s'.ready, c);
    PickKeepsFifo(s, s', r, k);
    assert Accounted(s') by {
      assert !IsInFlight(s, r) && r !in s.completed;
      forall q ensures q in s'.picked <==> IsInFlight(s', q) || q in s'.completed {
        if IsInFlight(s, q) {
          var v :| v in s.inFlight && s.inFlight[v] == q;
          assert v in s'.inFlight && s'.inFlight[v] == q;
        }
        if q == r { assert w in s'.inFlight && s'.inFlight[w] == q; }
      }
    }
    PickKeepsLocks(s, step, s', workers, r);
  }

  lemma PickKeepsFifo(s: State, s': State, r: Request, k: Key)
    requires Fifo(s) && k in s.ready.queues && s.ready.queues[k].requests != []
    requires r == s.ready.queues[k].requests[0] && r.queueKey == k
    requires s'.submitted == s.submitted && s'.picked == s.picked + [r]
    requires s'.ready.queues == s.ready.queues[k := Taken(s.ready.queues[k])]
    ensures Fifo(s')
  {
    forall x ensures OfKey(s'.submitted, x) == OfKey(s'.picked, x) + QueueOf(s'.ready, x) {
      OfKeySnoc(s.picked, r, x);
      assert OfKey(s.submitted, x) == OfKey(s.picked, x) + QueueOf(s.ready, x);
      if x == k { assert QueueOf(s.ready, k) == [r] + QueueOf(s'.ready, k); }
    }
  }

  lemma PickKeepsLocks(s: State, step: Step, s': State, workers: nat, r: Request)
    requires Locks(s) && step.Pick? && Does(s, step, s', workers)
    requires r == s.ready.queues[step.c.queueKey].requests[0] && r.queueKey == step.c.queueKey
    ensures Locks(s')
  {
    var w, k := step.w, step.c.queueKey;
    forall x | x in s'.ready.queues && s'.ready.queues[x].hasActiveKey
      ensures exists v :: v in s'.inFlight && s'.inFlight[v].queueKey == x
    {
      if x == k {
        assert w in s'.inFlight && s'.inFlight[w].queueKey == x;
      } else {
        var v :| v in s.inFlight && s.inFlight[v].queueKey == x;
        assert v in s'.inFlight && s'.inFlight[v].queueKey == x;
      }
    }
    forall v | v in s.inFlight ensures s.inFlight[v].queueKey != k {}
  }

  lemma CompleteKeepsInv(s: State, step: Step, s': State, workers: nat)
    requires Inv(s, workers) && step.Complete? && Does(s, step, s', workers)
    ensures Inv(s', workers)
  {
    var w := step.w;
    var r := s.inFlight[w];
    var k := r.queueKey;
    ReleaseKeepsCovered(s.ready, k, s.now);
    CompleteKeepsLocks(s, step, s', workers);
    CompleteKeepsAccounts(s, step, s', workers);
    assert Fifo(s') by {
      hide OfKey;
      forall x ensures QueueOf(s'.ready, x) == QueueOf(s.ready, x) {}
    }
    hide Covered, Locks, Accounted, Fifo;
  }

  lemma CompleteKeepsAccounts(s: State, step: Step, s': State, workers: nat)
    requires Locks(s) && Accounted(s) && step.Complete? && Does(s, step, s', workers)
    ensures Accounted(s')
  {
    hide Released;
    var r := s.inFlight[step.w];
    forall q ensures q in s'.picked <==> IsInFlight(s', q) || q in s'.completed {
      if IsInFlight(s, q) && q != r {
        var v :| v in s.inFlight && s.inFlight[v] == q;
        assert v in s'.inFlight && s'.inFlight[v] == q;
      }
      if q == r { assert IsInFlight(s, q); }
      if IsInFlight(s', q) { assert IsInFlight(s, q); }
    }
  }

  lemma CompleteKeepsLocks(s: State, step: Step, s': State, workers: nat)
    requires Locks(s) && step.Complete? && Does(s, step, s', workers)
    ensures Locks(s')
  {
    var w, k := step.w, s.inFlight[step.w].queueKey;
    forall x | x in s'.ready.queues && s'.ready.queues[x].hasActiveKey
      ensures exists v :: v in s'.inFlight && s'.inFlight[v].queueKey == x
    {
      var v :| v in s.inFlight && s.inFlight[v].queueKey == x;
      assert v in s'.inFlight && s'.inFlight[v].queueKey == x;
    }
  }

  lemma StepKeepsInv(s: State, step: Step, s': State, workers: nat)
    requires Inv(s, workers) && Does(s, step, s', workers)
    ensures Inv(s', workers)
  {
    match step
    case Submit(_, _, _, _, _) => SubmitKeepsInv(s, step, s', workers);
    case Pick(_, _) => PickKeepsInv(s, step, s', workers);
    case Complete(_) => CompleteKeepsInv(s, step, s', workers);
    case Tick(_) =>
      assert forall q :: IsInFlight(s', q) <==> IsInFlight(s, q);
      assert forall k :: QueueOf(s'.ready, k) == QueueOf(s.ready, k);
    case PickNothing(_) =>
      PickFailsOnlyWhenIdle(s.ready);
      assert forall q :: IsInFlight(s', q) <==> IsInFlight(s, q);
      assert forall k :: QueueOf(s'.ready, k) == QueueOf(s.ready, k);
      assert Covered(s'.ready) by {
        forall k | k in s.ready.queues ensures s.ready.queues[k].hasActiveKey { assert !Eligible(s.ready.queues[k]); }
      }
  }

  lemma {:induction false} RunKeepsInv(states: seq<State>, steps: seq<Step>, workers: nat, i: nat)
    requires Run(states, steps, workers) && i < |states|
    ensures Inv(states[i], workers)
  {
    if i > 0 {
      RunKeepsInv(states, steps, workers, i - 1);
      StepKeepsInv(states[i - 1], steps[i - 1], states[i], workers);
    }
  }

  // ---- What holds in every reachable state -----------------------------------------------------

  /** A key is locked exactly if one worker, and only one, has a request of that key in flight. */
  lemma LockedIffOneInFlight(states: seq<State>, steps: seq<Step>, workers: nat, i: nat, k: Key)
    requires Run(states, steps, workers) && i < |states|
    ensures var s := states[i];
            (k in s.ready.queues && s.ready.queues[k].hasActiveKey) <==>
            (exists w :: w in s.inFlight && s.inFlight[w].queueKey == k &&
               forall v | v in s.inFlight && s.inFlight[v].queueKey == k :: v == w)
  {
    RunKeepsInv(states, steps, workers, i);
    var s := states[i];
    if k in s.ready.queues && s.ready.queues[k].hasActiveKey {
      var w :| w in s.inFlight && s.inFlight[w].queueKey == k;
      assert forall v | v in s.inFlight && s.inFlight[v].queueKey == k :: v == w;
    }
  }

  /** Requests of one key are picked in the order of their submission; the rest of them is queued. */
  lemma PicksFollowSubmissions(states: seq<State>, steps: seq<Step>, workers: nat, i: nat, k: Key)
    requires Run(states, steps, workers) && i < |states|
    ensures var s := states[i]; OfKey(s.submitted, k) == OfKey(s.picked, k) + QueueOf(s.ready, k)
  {
    RunKeepsInv(states, steps, workers, i);
  }

  /** Every submitted request is queued, in flight or completed: exactly one of the three, and nothing else
      is; it completes once. */
  lemma EveryRequestHasOnePlace(states: seq<State>, steps: seq<Step>, workers: nat, i: nat, r: Request)
    requires Run(states, steps, workers) && i < |states|
    ensures var s := states[i];
            var queued := r in QueueOf(s.ready, r.queueKey);
            && (r in s.submitted <==> queued || IsInFlight(s, r) || r in s.completed)
            && !(queued && IsInFlight(s, r)) && !(queued && r in s.completed) && !(IsInFlight(s, r) && r in s.completed)
            && NoDuplicates(s.completed) && NoDuplicates(s.submitted)
  {
    RunKeepsInv(states, steps, workers, i);
    var s := states[i];
    InOfKey(s.submitted, r, r.queueKey);
    InOfKey(s.picked, r, r.queueKey);
    assert OfKey(s.submitted, r.queueKey) == OfKey(s.picked, r.queueKey) + QueueOf(s.ready, r.queueKey);
    if r in QueueOf(s.ready, r.queueKey) { QueuedIsNotPicked(s, r); }
  }

  lemma {:induction false} SmallSet(xs: set<nat>, n: nat)
    requires forall x | x in xs :: x < n
    ensures |xs| <= n
  {
    if n > 0 {
      SmallSet(xs - {n - 1}, n - 1);
    } else {
      assert xs == {};
    }
  }

  /** No more requests are in flight than there are workers, and no two of one tree other than the handler's. */
  lemma InFlightIsLimited(states: seq<State>, steps: seq<Step>, workers: nat, i: nat)
    requires Run(states, steps, workers) && i < |states|
    ensures var s := states[i];
            && |s.inFlight| <= workers
            && forall v, w | v in s.inFlight && w in s.inFlight && v != w ::
                 s.inFlight[v].treeId != s.inFlight[w].treeId || s.inFlight[v].treeId == HANDLER_TREE
  {
    RunKeepsInv(states, steps, workers, i);
    var s := states[i];
    SmallSet(s.inFlight.Keys, workers);
    forall v | v in s.inFlight && s.inFlight[v].treeId != HANDLER_TREE
      ensures s.inFlight[v].queueKey == s.inFlight[v].treeId
    {
      var r := s.inFlight[v];
      assert IsInFlight(s, r);
      EveryRequestHasOnePlace(states, steps, workers, i, r);
    }
  }

  /** A worker that looks for work finds some exactly if there is a queue with work that is not locked. */
  lemma WorkIsFoundIffThereIsSome(states: seq<State>, steps: seq<Step>, workers: nat, i: nat)
    requires Run(states, steps, workers) && i < |states|
    ensures var s := states[i].ready;
            (exists c :: c in s.heap && Valid(s, c)) <==> exists k :: k in s.queues && Eligible(s.queues[k])
  {
    RunKeepsInv(states, steps, workers, i);
    PickFailsOnlyWhenIdle(states[i].ready);
  }
}
