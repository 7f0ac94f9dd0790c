/**
 Which requests wait for each other, in terms of the trees and users they come from.
 */
module SchedulerUsers {
  import opened Scheduler
  import opened SchedulerRuns

  /** A conversation of a known human user through the handler. */
  predicate Conversation(r: Request) {
    r.treeId == "TREE_HANDLER" && r.mode == "user_conversation" && r.userId != ""
  }

  /** The requests that are served one after the other: those of one human user, and those of one tree. A tree that is
      named like a user's queue gets in the way of that user. */
  predicate OneByOne(r: Request, q: Request) {
    if Conversation(r) then
      if Conversation(q) then r.userId == q.userId else q.treeId == "user_" + r.userId
    else
      if Conversation(q) then r.treeId == "user_" + q.userId else r.treeId == q.treeId
  }

  lemma PrefixedEqual(x: string, y: string)
    ensures "user_" + x == "user_" + y <==> x == y
  {
    if "user_" + x == "user_" + y {
      assert x == ("user_" + x)[5..] && y == ("user_" + y)[5..];
    }
  }

  /** In every reachable state two submitted requests have one queue exactly if they are served one by one. */
  lemma SameQueueIff(states: seq<State>, steps: seq<Step>, workers: nat, i: nat, r: Request, q: Request)
    requires Run(states, steps, workers) && i < |states| && r in states[i].submitted && q in states[i].submitted
    ensures r.queueKey == q.queueKey <==> OneByOne(r, q)
  {
    hide Covered, Locks, Fifo, Accounted, Run;
    RunKeepsInv(states, steps, workers, i);
    PrefixedEqual(r.userId, q.userId);
  }

  /** No two requests that are served one by one are in flight together. */
  lemma OneByOneInFlight(states: seq<State>, steps: seq<Step>, workers: nat, i: nat, v: Worker, w: Worker)
    requires Run(states, steps, workers) && i < |states|
    requires v in states[i].inFlight && w in states[i].inFlight && v != w
    ensures !OneByOne(states[i].inFlight[v], states[i].inFlight[w])
  {
    hide Covered, Fifo, Accounted, Tickets, Run, OneByOne;
    var s := states[i];
    var r, q := s.inFlight[v], s.inFlight[w];
    RunKeepsInv(states, steps, workers, i);
    assert IsInFlight(s, r) && IsInFlight(s, q);
    EveryRequestHasOnePlace(states, steps, workers, i, r);
    EveryRequestHasOnePlace(states, steps, workers, i, q);
    SameQueueIff(states, steps, workers, i, r, q);
  }

  /** A request that is neither in flight nor completed waits only for those: unless one that is served one by one with
      it is in flight, a worker that looks for work finds a candidate of its queue. */
  lemma OnlyItsOwnBlockARequest(states: seq<State>, steps: seq<Step>, workers: nat, i: nat, r: Request)
    requires Run(states, steps, workers) && i < |states| && r in states[i].submitted
    requires !IsInFlight(states[i], r) && r !in states[i].completed
    ensures var s := states[i];
            (exists w :: w in s.inFlight && OneByOne(r, s.inFlight[w])) ||
            exists c :: c in s.ready.heap && Valid(s.ready, c) && c.queueKey == r.queueKey
  {
    hide Run, OneByOne, Accounted, Tickets, Fifo;
    var s := states[i];
    var k := r.queueKey;
    RunKeepsInv(states, steps, workers, i);
    EveryRequestHasOnePlace(states, steps, workers, i, r);
    assert k in s.ready.queues && s.ready.queues[k].requests != [];
    if s.ready.queues[k].hasActiveKey {
      var w :| w in s.inFlight && s.inFlight[w].queueKey == k;
      assert IsInFlight(s, s.inFlight[w]);
      EveryRequestHasOnePlace(states, steps, workers, i, s.inFlight[w]);
      SameQueueIff(states, steps, workers, i, r, s.inFlight[w]);
    } else {
      assert HasCandidate(s.ready, k);
      var score :| Candidate(k, score, s.ready.queues[k].version) in s.ready.heap;
      assert Valid(s.ready, Candidate(k, score, s.ready.queues[k].version));
    }
  }

  /** Two users of the handler never wait for each other, unless a tree is named like the queue of one. */
  lemma UsersDoNotBlockEachOther(states: seq<State>, steps: seq<Step>, workers: nat, i: nat, r: Request)
    requires Run(states, steps, workers) && i < |states| && r in states[i].submitted && Conversation(r)
    requires !IsInFlight(states[i], r) && r !in states[i].completed
    requires forall w | w in states[i].inFlight ::
               states[i].inFlight[w].userId != r.userId && states[i].inFlight[w].treeId != "user_" + r.userId
    ensures var s := states[i];
            exists c :: c in s.ready.heap && Valid(s.ready, c) && c.queueKey == r.queueKey
  {
    hide Run, Valid;
    OnlyItsOwnBlockARequest(states, steps, workers, i, r);
  }

  /** A point of base priority weighs as much as five seconds of waiting. */
  lemma PriorityAges(r: Request, now: int, points: nat)
    ensures Priority(r, r.enqueuedAt) == r.basePriority as real
    ensures Priority(r, now + 5000 * points) == Priority(r.(basePriority := r.basePriority + points), now)
  {}
}
