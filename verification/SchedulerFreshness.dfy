/**
 Whose score decides a pick. A candidate carries the priority its queue's front request had when it was
 pushed; it goes by that request as long as no erased queue has left candidates behind.
 */
module SchedulerFreshness {
  import opened Scheduler
  import opened SchedulerRuns
  import opened Unsigned

  /** A priority that `r` had at some time since it was enqueued. */
  ghost predicate Frozen(score: real, r: Request, now: int) {
    exists t :: r.enqueuedAt <= t <= now && score == Priority(r, t)
  }

  /** Every candidate belongs to a queue and is not ahead of its version, and a valid one carries a priority of
      the queue's front request. */
  ghost predicate Fresh(s: Ready, now: int) {
    forall c | c in s.heap ::
      && c.queueKey in s.queues && c.version <= s.queues[c.queueKey].version
      && (Valid(s, c) ==> Frozen(c.score, s.queues[c.queueKey].requests[0], now))
  }

  predicate Timely(s: Ready, now: int) {
    forall k | k in s.queues :: forall r | r in s.queues[k].requests :: r.enqueuedAt <= now
  }

  /** The next version of this queue is 0 again. */
  predicate Wraps(s: Ready, k: Key) {
    k in s.queues && s.queues[k].version + 1 >= UINT64
  }

  /** The release of `k` erases its queue while candidates of it are left in the heap. */
  ghost predicate LeavesStale(s: Ready, k: Key) {
    k in s.queues && s.queues[k].requests == [] && exists c :: c in s.heap && c.queueKey == k
  }

  // ---- The critical sections ------------------------------------------------------------------

  lemma FrozenLonger(score: real, r: Request, now: int, later: int)
    requires Frozen(score, r, now) && now <= later
    ensures Frozen(score, r, later)
  {
    var t :| r.enqueuedAt <= t <= now && score == Priority(r, t);
    assert t <= later;
  }

  lemma TickKeepsFresh(s: Ready, now: int, later: int)
    requires Fresh(s, now) && Timely(s, now) && now <= later
    ensures Fresh(s, later) && Timely(s, later)
  {
    forall c | c in s.heap && Valid(s, c) ensures Frozen(c.score, s.queues[c.queueKey].requests[0], later) {
      FrozenLonger(c.score, s.queues[c.queueKey].requests[0], now, later);
    }
  }

  /** A queue gets a new version, and its new candidate, if it gets one, the priority of its front request. */
  lemma RenewalKeepsFresh(s: Ready, k: Key, q: TreeQueue, now: int)
    requires Fresh(s, now)
    requires k in s.queues ==> q.version > s.queues[k].version
    requires forall r | r in q.requests :: r.enqueuedAt <= now
    ensures Fresh(Enqueued(s.(queues := s.queues[k := q]), k, now), now)
  {
    var t := s.(queues := s.queues[k := q]);
    var s' := Enqueued(t, k, now);
    forall c | c in s'.heap
      ensures c.queueKey in s'.queues && c.version <= s'.queues[c.queueKey].version
      ensures Valid(s', c) ==> Frozen(c.score, s'.queues[c.queueKey].requests[0], now)
    {
      if c in s.heap {
        assert Valid(s', c) ==> c.queueKey != k && Valid(s, c);
      } else {
        assert c == Candidate(k, Priority(q.requests[0], now), q.version);
        assert q.requests[0] in q.requests;
      }
    }
  }

  lemma SubmitKeepsFresh(s: Ready, r: Request, now: int)
    requires Fresh(s, now) && Timely(s, now) && r.enqueuedAt <= now && !Wraps(s, r.queueKey)
    ensures Fresh(Submitted(s, r, now), now) && Timely(Submitted(s, r, now), now)
  {
    hide Fresh;
    var q := if r.queueKey in s.queues then s.queues[r.queueKey] else TreeQueue([], false, 0);
    RenewalKeepsFresh(s, r.queueKey, TreeQueue(q.requests + [r], q.hasActiveKey, Next(q.version)), now);
  }

  lemma PickKeepsFresh(s: Ready, s': Ready, c: Candidate, now: int)
    requires Fresh(s, now) && Timely(s, now) && PicksThrough(s, s', c) && !Wraps(s, c.queueKey)
    ensures Fresh(s', now) && Timely(s', now)
  {
    forall x | x in s'.heap
      ensures x.queueKey in s'.queues && x.version <= s'.queues[x.queueKey].version
      ensures Valid(s', x) ==> Frozen(x.score, s'.queues[x.queueKey].requests[0], now)
    {
      assert x in s.heap;
      assert Valid(s', x) ==> x.queueKey != c.queueKey && Valid(s, x);
    }
  }

  /** A release keeps the heap fresh exactly if it does not erase a queue that has candidates left. */
  lemma ReleaseFreshIff(s: Ready, k: Key, now: int)
    requires Fresh(s, now) && Timely(s, now) && !Wraps(s, k)
    ensures Fresh(Released(s, k, now), now) <==> !LeavesStale(s, k)
    ensures Timely(Released(s, k, now), now)
  {
    if k in s.queues && s.queues[k].requests == [] {
      var s' := Released(s, k, now);
      if c :| c in s.heap && c.queueKey == k {
        assert c in s'.heap && c.queueKey !in s'.queues;
      } else {
        forall c | c in s'.heap ensures c.queueKey in s'.queues && (Valid(s', c) ==> Valid(s, c)) {
          assert c in s.heap && c.queueKey != k;
        }
      }
    } else if k in s.queues {
      RenewalKeepsFresh(s, k, TreeQueue(s.queues[k].requests, false, Next(s.queues[k].version)), now);
    }
  }

  /** The other way to lose freshness: a version that starts over leaves older candidates ahead of it. */
  lemma WrapLosesFresh(s: Ready, r: Request, now: int, c: Candidate)
    requires r.queueKey in s.queues && s.queues[r.queueKey].version + 1 == UINT64
    requires c in s.heap && c.queueKey == r.queueKey && c.version > 0
    ensures !Fresh(Submitted(s, r, now), now)
  {
    assert c in Submitted(s, r, now).heap;
  }

  // ---- Runs -------------------------------------------------------------------------------------

  ghost predicate StepLeavesStale(s: State, step: Step) {
    step.Complete? && step.w in s.inFlight && LeavesStale(s.ready, s.inFlight[step.w].queueKey)
  }

  predicate StepWraps(s: State, step: Step) {
    match step
    case Submit(_, _, _, _, _) => Wraps(s.ready, NewRequest(s, step).queueKey)
    case Pick(_, c) => Wraps(s.ready, c.queueKey)
    case Complete(w) => w in s.inFlight && Wraps(s.ready, s.inFlight[w].queueKey)
    case _ => false
  }

  /** The only step after which a candidate can decide that carries no priority of the request it hands out. */
  lemma StepFreshIff(s: State, step: Step, s': State, workers: nat)
    requires Fresh(s.ready, s.now) && Timely(s.ready, s.now) && Does(s, step, s', workers) && !StepWraps(s, step)
    ensures Fresh(s'.ready, s'.now) <==> !StepLeavesStale(s, step)
    ensures Timely(s'.ready, s'.now)
  {
    hide Fresh, Timely, PicksThrough, Submitted, Released;
    match step
    case Tick(_) => TickKeepsFresh(s.ready, s.now, s'.now);
    case Submit(_, _, _, _, _) => SubmitKeepsFresh(s.ready, NewRequest(s, step), s.now);
    case Pick(_, c) => PickKeepsFresh(s.ready, s'.ready, c, s.now);
    case PickNothing(_) => EmptyHeapIsFresh(s.ready, s.now);
    case Complete(w) => ReleaseFreshIff(s.ready, s.inFlight[w].queueKey, s.now);
  }

  lemma EmptyHeapIsFresh(s: Ready, now: int)
    ensures Fresh(Ready(s.queues, multiset{}), now)
    ensures Timely(s, now) ==> Timely(Ready(s.queues, multiset{}), now)
  {}

  /** Nothing so far has left stale candidates behind or wrapped a version. */
  ghost predicate CleanUntil(states: seq<State>, steps: seq<Step>, i: nat)
    requires i <= |steps| < |states|
  {
    forall j | 0 <= j < i :: !StepLeavesStale(states[j], steps[j]) && !StepWraps(states[j], steps[j])
  }

  lemma {:induction false} RunIsFresh(states: seq<State>, steps: seq<Step>, workers: nat, i: nat)
    requires Run(states, steps, workers) && i < |states| && CleanUntil(states, steps, i)
    ensures Fresh(states[i].ready, states[i].now) && Timely(states[i].ready, states[i].now)
  {
    if i > 0 {
      hide Fresh, Timely, Does, StepLeavesStale, StepWraps;
      RunIsFresh(states, steps, workers, i - 1);
      StepFreshIff(states[i - 1], steps[i - 1], states[i], workers);
    }
  }

  /** Until a queue is erased with candidates left, every pick goes by a priority that the request it hands out
      has had, and no other valid candidate's is greater. */
  lemma PicksGoByTheirRequest(states: seq<State>, steps: seq<Step>, workers: nat, i: nat)
    requires Run(states, steps, workers) && i < |steps| && steps[i].Pick? && CleanUntil(states, steps, i)
    ensures var s, c := states[i], steps[i].c;
            && c.queueKey in s.ready.queues && s.ready.queues[c.queueKey].requests != []
            && states[i + 1].picked == s.picked + [s.ready.queues[c.queueKey].requests[0]]
            && Frozen(c.score, s.ready.queues[c.queueKey].requests[0], s.now)
            && forall x | x in s.ready.heap && Valid(s.ready, x) ::
                 x.score <= c.score && Frozen(x.score, s.ready.queues[x.queueKey].requests[0], s.now)
  {
    RunIsFresh(states, steps, workers, i);
    assert Does(states[i], steps[i], states[i + 1], workers);
  }

  lemma SubmitCountsOnce(s: Ready, r: Request, now: int, n: nat, k: Key)
    requires n + 1 < UINT64 && (k in s.queues ==> s.queues[k].version <= n) && k in Submitted(s, r, now).queues
    ensures Submitted(s, r, now).queues[k].version <= n + 1
  {
    assert k != r.queueKey ==> k in s.queues;
  }

  lemma ReleaseCountsOnce(s: Ready, key: Key, now: int, n: nat, k: Key)
    requires n + 1 < UINT64 && (k in s.queues ==> s.queues[k].version <= n) && k in Released(s, key, now).queues
    ensures Released(s, key, now).queues[k].version <= n + 1
  {
    assert k in s.queues;
  }

  lemma StepCountsOnce(s: State, step: Step, s': State, workers: nat, n: nat, k: Key)
    requires Does(s, step, s', workers) && n + 1 < UINT64 && k in s'.ready.queues
    requires k in s.ready.queues ==> s.ready.queues[k].version <= n
    ensures s'.ready.queues[k].version <= n + 1
  {
    hide Submitted, Released;
    if step.Submit? { SubmitCountsOnce(s.ready, NewRequest(s, step), s.now, n, k); }
    else if step.Complete? { ReleaseCountsOnce(s.ready, s.inFlight[step.w].queueKey, s.now, n, k); }
  }

  /** A version counts at most the steps taken, so nothing wraps in the first 2^64 - 1 steps. */
  lemma {:induction false} VersionsCountSteps(states: seq<State>, steps: seq<Step>, workers: nat, i: nat, k: Key)
    requires Run(states, steps, workers) && i < |states| && i < UINT64 && k in states[i].ready.queues
    ensures states[i].ready.queues[k].version <= i
  {
    if i > 0 {
      assert Does(states[i - 1], steps[i - 1], states[i], workers);
      hide Does;
      if k in states[i - 1].ready.queues { VersionsCountSteps(states, steps, workers, i - 1, k); }
      StepCountsOnce(states[i - 1], steps[i - 1], states[i], workers, i - 1, k);
    }
  }

  lemma NoWrapSoon(states: seq<State>, steps: seq<Step>, workers: nat, i: nat)
    requires Run(states, steps, workers) && i < |steps| && i + 1 < UINT64
    ensures !StepWraps(states[i], steps[i])
  {
    var s, step := states[i], steps[i];
    forall k | k in s.ready.queues ensures !Wraps(s.ready, k) {
      VersionsCountSteps(states, steps, workers, i, k);
    }
  }

  // ---- Stale candidates decide ----------------------------------------------------------------------

  const R1 := Request(0, "a", "simple", "", "a", 1, 0)
  const R2 := Request(1, "a", "simple", "", "a", 10, 0)
  const R3 := Request(2, "a", "simple", "", "a", 0, 5000)
  const STALE := Candidate("a", 1.0, 1)

  /** One worker, three requests of one key: the queue of the first two is erased before the third arrives. */
  function Trace(i: nat): State
    requires i <= 9
  {
    match i
    case 0 => State(Ready(map[], multiset{}), map[], [], [], [], 0)
    case 1 => State(One([R1], false, 1, multiset{STALE}), map[], [R1], [], [], 0)
    case 2 => State(One([R1], false, 1, multiset{STALE}), map[], [R1], [], [], 5000)
    case 3 => State(One([R1, R2], false, 2, multiset{STALE, Later(2.0, 2)}), map[], [R1, R2], [], [], 5000)
    case 4 => State(One([R2], true, 3, multiset{STALE}), map[0 := R1], [R1, R2], [R1], [], 5000)
    case 5 => State(One([R2], false, 4, multiset{STALE, Later(11.0, 4)}), map[], [R1, R2], [R1], [R1], 5000)
    case 6 => State(One([], true, 5, multiset{STALE}), map[0 := R2], [R1, R2], [R1, R2], [R1], 5000)
    case 7 => State(Ready(map[], multiset{STALE}), map[], [R1, R2], [R1, R2], [R1, R2], 5000)
    case 8 => State(One([R3], false, 1, multiset{Later(0.0, 1), STALE}), map[], [R1, R2, R3], [R1, R2], [R1, R2], 5000)
    case _ => State(One([], true, 2, multiset{Later(0.0, 1)}), map[0 := R3], [R1, R2, R3], [R1, R2, R3], [R1, R2], 5000)
  }

  function Later(score: real, version: nat): Candidate { Candidate("a", score, version) }

  function Plan(i: nat): Step
    requires i < 9
  {
    match i
    case 0 => Submit("a", "simple", "", 1, 0)
    case 1 => Tick(5000)
    case 2 => Submit("a", "simple", "", 10, 5000)
    case 3 => Pick(0, Later(2.0, 2))
    case 4 => Complete(0)
    case 5 => Pick(0, Later(11.0, 4))
    case 6 => Complete(0)
    case 7 => Submit("a", "simple", "", 0, 0)
    case _ => Pick(0, STALE)
  }

  lemma KeyOfA()
    ensures QueueKey("a", "simple", "") == "a"
  {
    assert |"a"| != |HANDLER_TREE|;
  }

  lemma FirstSubmit()
    ensures Does(Trace(0), Plan(0), Trace(1), 1)
  {
    KeyOfA();
    SubmitVeryFirst();
    hide Submitted, QueueKey, One;
    assert [] + [R1] == [R1];
  }

  lemma SubmitVeryFirst()
    ensures Submitted(Ready(map[], multiset{}), R1, 0) == One([R1], false, 1, multiset{STALE})
  {
    SubmitFirst(R1, 0, multiset{});
    hide Submitted, One;
    NothingPlus(multiset{STALE});
  }

  lemma NothingPlus<T>(x: multiset<T>)
    ensures multiset{} + x == x
  {}

  lemma SecondSubmit()
    ensures Does(Trace(2), Plan(2), Trace(3), 1)
  {
    KeyOfA();
    SubmitMore([R1], 1, multiset{STALE}, R2, 5000);
    hide Submitted, QueueKey, One;
    assert multiset{STALE} + multiset{Later(2.0, 2)} == multiset{STALE, Later(2.0, 2)} && [R1] + [R2] == [R1, R2];
  }

  lemma ThirdSubmit()
    ensures Does(Trace(7), Plan(7), Trace(8), 1)
  {
    KeyOfA();
    SubmitFirst(R3, 5000, multiset{STALE});
    hide Submitted, QueueKey, One;
    assert multiset{STALE} + multiset{Later(0.0, 1)} == multiset{Later(0.0, 1), STALE};
    assert [R1, R2] + [R3] == [R1, R2, R3];
  }

  lemma PickStep(i: nat)
    requires i == 3 || i == 5 || i == 8
    ensures Does(Trace(i), Plan(i), Trace(i + 1), 1)
  {
    hide PicksThrough;
    PickFrom([R1, R2], 2, STALE, Later(2.0, 2));
    PickFrom([R2], 4, STALE, Later(11.0, 4));
    PickFrom([R3], 1, Later(0.0, 1), STALE);
    assert [R1, R2][1..] == [R2] && [R2][1..] == [] && [R3][1..] == [];
    assert [] + [R1] == [R1] && [R1] + [R2] == [R1, R2] && [R1, R2] + [R3] == [R1, R2, R3];
  }

  lemma CompleteStep(i: nat)
    requires i == 4 || i == 6
    ensures Does(Trace(i), Plan(i), Trace(i + 1), 1)
  {
    hide Released;
    ReleaseMore([R2], 3, multiset{STALE}, 5000);
    ReleaseLast(5, multiset{STALE}, 5000);
    assert multiset{STALE} + multiset{Later(11.0, 4)} == multiset{STALE, Later(11.0, 4)};
    assert map[0 := R1] - {0} == map[] && map[0 := R2] - {0} == map[];
    assert [] + [R1] == [R1] && [R1] + [R2] == [R1, R2];
  }

  /** A run of one worker in which the candidate of the first request outlives its queue and decides the pick of the
      third: a score that request has never had, not even by now. */
  lemma StaleCandidateDecides() returns (states: seq<State>, steps: seq<Step>)
    ensures Run(states, steps, 1) && |steps| == 9 && steps[8] == Pick(0, STALE)
    ensures QueueOf(states[8].ready, "a") == [R3] && !Frozen(STALE.score, R3, states[8].now)
    ensures StepLeavesStale(states[6], steps[6])
  {
    states, steps := seq(10, i requires 0 <= i < 10 => Trace(i)), seq(9, i requires 0 <= i < 9 => Plan(i));
    forall i | 0 <= i < 9 ensures Does(states[i], steps[i], states[i + 1], 1) {
      hide Does;
      if i == 0 { FirstSubmit(); }
      else if i == 2 { SecondSubmit(); }
      else if i == 7 { ThirdSubmit(); }
      else if i == 3 || i == 5 || i == 8 { PickStep(i); }
      else if i == 4 || i == 6 { CompleteStep(i); }
      else { TickStep(); }
    }
    hide Does;
    forall t | R3.enqueuedAt <= t <= 5000 ensures STALE.score != Priority(R3, t) {}
    assert STALE in Trace(6).ready.heap;
  }

  lemma TickStep()
    ensures Does(Trace(1), Plan(1), Trace(2), 1)
  {}

  /** A scheduler whose only queue is "a". */
  function One(rs: seq<Request>, locked: bool, version: nat, heap: multiset<Candidate>): Ready {
    Ready(map["a" := TreeQueue(rs, locked, version)], heap)
  }

  lemma SubmitFirst(r: Request, now: int, heap: multiset<Candidate>)
    requires r.queueKey == "a"
    ensures Submitted(Ready(map[], heap), r, now) ==
            One([r], false, 1, heap + multiset{Candidate("a", Priority(r, now), 1)})
  {
    assert [] + [r] == [r];
  }

  lemma SubmitMore(rs: seq<Request>, v: nat, heap: multiset<Candidate>, r: Request, now: int)
    requires r.queueKey == "a" && rs != []
    ensures Submitted(One(rs, false, v, heap), r, now) ==
            One(rs + [r], false, Next(v), heap + multiset{Candidate("a", Priority(rs[0], now), Next(v))})
  {
    var q := TreeQueue(rs + [r], false, Next(v));
    assert map["a" := TreeQueue(rs, false, v)]["a" := q] == map["a" := q];
  }

  lemma PickFrom(rs: seq<Request>, v: nat, x: Candidate, y: Candidate)
    requires rs != [] && y.queueKey == "a" && y.version == v && x.score <= y.score
    ensures PicksThrough(One(rs, false, v, multiset{x, y}), One(rs[1..], true, Next(v), multiset{x}), y)
  {
    var q := TreeQueue(rs[1..], true, Next(v));
    assert map["a" := TreeQueue(rs, false, v)]["a" := q] == map["a" := q];
    assert multiset{x, y} - multiset{y} == multiset{x};
  }

  lemma ReleaseMore(rs: seq<Request>, v: nat, heap: multiset<Candidate>, now: int)
    requires rs != []
    ensures Released(One(rs, true, v, heap), "a", now) ==
            One(rs, false, Next(v), heap + multiset{Candidate("a", Priority(rs[0], now), Next(v))})
  {
    var q := TreeQueue(rs, false, Next(v));
    assert map["a" := TreeQueue(rs, true, v)]["a" := q] == map["a" := q];
  }

  lemma ReleaseLast(v: nat, heap: multiset<Candidate>, now: int)
    ensures Released(One([], true, v, heap), "a", now) == Ready(map[], heap)
  {
    assert map["a" := TreeQueue([], true, v)] - {"a"} == map[];
  }
}
