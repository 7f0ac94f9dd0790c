/**
 All requests together: entering, settling, erasing and the end of a wait are separate steps of
 their threads, in any order.
 */
module CoalescerRuns {
  import opened PrepareCoalescer

  type ThreadId = nat

  /** A leader has its verdict and its reply from settling on, a follower its reply from the end of its wait. */
  datatype Thread =
    | Leading(slot: SlotId)
    | Erasing(slot: SlotId, verdict: SlotState, reply: Reply)
    | Led(slot: SlotId, verdict: SlotState, reply: Reply)
    | Waiting(slot: SlotId)
    | Followed(slot: SlotId, timedOut: bool, reply: Reply)

  datatype Machine = Machine(shared: State, threads: map<ThreadId, Thread>)

  datatype Event =
    | EnterStep(thread: ThreadId, key: Key)
    | SettleStep(thread: ThreadId, verdict: SlotState, reply: Reply)
    | EraseStep(thread: ThreadId)
    | WakeStep(thread: ThreadId)
    | TimeoutStep(thread: ThreadId)

  function Initial(): Machine { Machine(State(map[], []), map[]) }

  predicate SlotExists(m: Machine, t: ThreadId) {
    t in m.threads && m.threads[t].slot < |m.shared.slots|
  }

  predicate Enabled(m: Machine, e: Event) {
    match e
    case EnterStep(t, _) => t !in m.threads
    case SettleStep(t, verdict, reply) =>
      && SlotExists(m, t) && m.threads[t].Leading? && verdict != Preparing
      && (reply == Launch <==> verdict == Ready) && (verdict.Failed? ==> Reports(reply, verdict.error))
    case EraseStep(t) => SlotExists(m, t) && m.threads[t].Erasing?
    case WakeStep(t) =>
      SlotExists(m, t) && m.threads[t].Waiting? && m.shared.slots[m.threads[t].slot].state != Preparing
    case TimeoutStep(t) =>
      SlotExists(m, t) && m.threads[t].Waiting? && m.shared.slots[m.threads[t].slot].state == Preparing
  }

  function Step(m: Machine, e: Event): Machine
    requires Enabled(m, e)
  {
    if e.EnterStep? then
      var (shared, slot, isLeader) := Enter(m.shared, e.key);
      Machine(shared, m.threads[e.thread := if isLeader then Leading(slot) else Waiting(slot)])
    else
      var slot := m.threads[e.thread].slot;
      if e.SettleStep? then
        Machine(Settle(m.shared, slot, e.verdict), m.threads[e.thread := Erasing(slot, e.verdict, e.reply)])
      else if e.EraseStep? then
        var t := m.threads[e.thread];
        Machine(Erase(m.shared, m.shared.slots[slot].key), m.threads[e.thread := Led(slot, t.verdict, t.reply)])
      else
        var reply := FollowerReply(m.shared.slots[slot].state);
        m.(threads := m.threads[e.thread := Followed(slot, e.TimeoutStep?, reply)])
  }

  predicate RunFrom(m: Machine, events: seq<Event>)
    decreases |events|
  {
    events == [] || (Enabled(m, events[0]) && RunFrom(Step(m, events[0]), events[1..]))
  }

  function Final(m: Machine, events: seq<Event>): Machine
    requires RunFrom(m, events)
    decreases |events|
  {
    if events == [] then m else Final(Step(m, events[0]), events[1..])
  }

  // ---- The invariant -------------------------------------------------------------------------

  predicate Leads(m: Machine, t: ThreadId, slot: SlotId) {
    t in m.threads && (m.threads[t].Leading? || m.threads[t].Erasing? || m.threads[t].Led?) && m.threads[t].slot == slot
  }

  predicate InFlight(m: Machine, t: ThreadId) {
    t in m.threads && (m.threads[t].Leading? || m.threads[t].Erasing?)
  }

  ghost predicate SlotsExist(m: Machine) {
    && (forall t | t in m.threads :: SlotExists(m, t))
    && (forall k | k in m.shared.current :: m.shared.current[k] < |m.shared.slots|
                                            && m.shared.slots[m.shared.current[k]].key == k)
  }

  ghost predicate OneLeaderPerSlot(m: Machine) {
    forall t, u
      | t in m.threads && u in m.threads && Leads(m, t, m.threads[t].slot) && Leads(m, u, m.threads[t].slot)
      :: t == u
  }

  /** A leader that has not erased yet owns the map's entry for its key. */
  ghost predicate LeadersRegistered(m: Machine)
    requires SlotsExist(m)
  {
    forall t | InFlight(m, t) ::
      var slot := m.threads[t].slot;
      var key := m.shared.slots[slot].key;
      key in m.shared.current && m.shared.current[key] == slot
  }

  ghost predicate EntryAlive(m: Machine, slot: SlotId) {
    exists t :: InFlight(m, t) && m.threads[t].slot == slot
  }

  ghost predicate PreparingAlive(m: Machine, slot: SlotId) {
    exists t :: t in m.threads && m.threads[t] == Leading(slot)
  }

  /** What the verdict invariant says of one thread. */
  predicate VerdictKept(thread: Thread, state: SlotState) {
    match thread
    case Leading(_) => state == Preparing
    case Waiting(_) => true
    case Followed(_, timedOut, reply) =>
      if timedOut then reply == ErrorReply("prepare_failed_by_peer: " + "prepare_peer_timeout")
      else state != Preparing && reply == FollowerReply(state)
    case _ =>
      && state == thread.verdict && state != Preparing
      && (thread.reply == Launch <==> state == Ready) && (state.Failed? ==> Reports(thread.reply, state.error))
  }

  /** Every entry of the map, and every slot still preparing, has a leader at work. */
  ghost predicate LeadersAlive(m: Machine)
    requires SlotsExist(m)
  {
    && (forall k | k in m.shared.current :: EntryAlive(m, m.shared.current[k]))
    && (forall i | 0 <= i < |m.shared.slots| && m.shared.slots[i].state == Preparing :: PreparingAlive(m, i))
  }

  ghost predicate VerdictsKept(m: Machine)
    requires SlotsExist(m)
  {
    forall t | t in m.threads :: VerdictKept(m.threads[t], m.shared.slots[m.threads[t].slot].state)
  }

  ghost predicate Invariant(m: Machine) {
    SlotsExist(m) && OneLeaderPerSlot(m) && LeadersRegistered(m) && LeadersAlive(m) && VerdictsKept(m)
  }

  lemma SlotsExistKept(m: Machine, e: Event)
    requires SlotsExist(m) && Enabled(m, e)
    ensures SlotsExist(Step(m, e))
  {}

  lemma OneLeaderKept(m: Machine, e: Event)
    requires SlotsExist(m) && OneLeaderPerSlot(m) && Enabled(m, e)
    ensures OneLeaderPerSlot(Step(m, e))
  {
    var m' := Step(m, e);
    assert forall t, i | t in m.threads :: Leads(m', t, i) <==> Leads(m, t, i);
    assert e.EnterStep? ==> forall t | t in m.threads :: m.threads[t].slot != |m.shared.slots|;
  }

  lemma LeadersRegisteredKept(m: Machine, e: Event)
    requires SlotsExist(m) && OneLeaderPerSlot(m) && LeadersRegistered(m) && Enabled(m, e)
    ensures SlotsExist(Step(m, e)) && LeadersRegistered(Step(m, e))
  {
    var m' := Step(m, e);
    SlotsExistKept(m, e);
    forall t | InFlight(m', t)
      ensures var slot := m'.threads[t].slot;
              var key := m'.shared.slots[slot].key;
              key in m'.shared.current && m'.shared.current[key] == slot
    {
      if t in m.threads {
        assert InFlight(m, t) && m'.threads[t].slot == m.threads[t].slot;
        if e.EraseStep? {
          assert InFlight(m, e.thread) && t != e.thread;
          assert Leads(m, t, m.threads[t].slot) && Leads(m, e.thread, m.threads[e.thread].slot);
        }
      }
    }
  }

  lemma EntriesAliveKept(m: Machine, e: Event)
    requires SlotsExist(m) && OneLeaderPerSlot(m) && Enabled(m, e)
    requires forall k | k in m.shared.current :: EntryAlive(m, m.shared.current[k])
    ensures forall k | k in Step(m, e).shared.current :: EntryAlive(Step(m, e), Step(m, e).shared.current[k])
  {
    var m' := Step(m, e);
    forall k | k in m'.shared.current ensures EntryAlive(m', m'.shared.current[k]) {
      if k in m.shared.current {
        var t :| InFlight(m, t) && m.threads[t].slot == m.shared.current[k];
        if e.EraseStep? { assert t != e.thread; }
        assert InFlight(m', t) && m'.threads[t].slot == m'.shared.current[k];
      } else {
        assert InFlight(m', e.thread);
      }
    }
  }

  lemma PreparingAliveKept(m: Machine, e: Event)
    requires SlotsExist(m) && Enabled(m, e)
    requires forall i | 0 <= i < |m.shared.slots| && m.shared.slots[i].state == Preparing :: PreparingAlive(m, i)
    ensures var m' := Step(m, e);
            forall i | 0 <= i < |m'.shared.slots| && m'.shared.slots[i].state == Preparing :: PreparingAlive(m', i)
  {
    var m' := Step(m, e);
    forall i | 0 <= i < |m'.shared.slots| && m'.shared.slots[i].state == Preparing ensures PreparingAlive(m', i) {
      if i < |m.shared.slots| {
        assert m.shared.slots[i].state == Preparing;
        var t :| t in m.threads && m.threads[t] == Leading(i);
        assert m'.threads[t] == Leading(i);
      } else {
        assert m'.threads[e.thread] == Leading(i);
      }
    }
  }

  lemma VerdictsKeptKept(m: Machine, e: Event)
    requires SlotsExist(m) && OneLeaderPerSlot(m) && VerdictsKept(m) && Enabled(m, e) && SlotsExist(Step(m, e))
    ensures VerdictsKept(Step(m, e))
  {
    var m' := Step(m, e);
    forall t | t in m'.threads ensures VerdictKept(m'.threads[t], m'.shared.slots[m'.threads[t].slot].state) {
      if t in m.threads && t != e.thread {
        assert VerdictKept(m.threads[t], m.shared.slots[m.threads[t].slot].state);
        if e.SettleStep? {
          assert Leads(m, e.thread, m.threads[e.thread].slot);
          assert !Leads(m, t, m.threads[e.thread].slot);
        }
      }
    }
  }

  lemma StepKeeps(m: Machine, e: Event)
    requires Invariant(m) && Enabled(m, e)
    ensures Invariant(Step(m, e))
  {
    SlotsExistKept(m, e);
    OneLeaderKept(m, e);
    LeadersRegisteredKept(m, e);
    EntriesAliveKept(m, e);
    PreparingAliveKept(m, e);
    VerdictsKeptKept(m, e);
  }

  lemma {:induction false} RunKeeps(m: Machine, events: seq<Event>)
    requires Invariant(m) && RunFrom(m, events)
    ensures Invariant(Final(m, events))
    decreases |events|
  {
    hide Invariant, Step, Enabled;
    if events != [] {
      StepKeeps(m, events[0]);
      RunKeeps(Step(m, events[0]), events[1..]);
    }
  }

  // ---- Single flight --------------------------------------------------------------------------------

  /** In every reachable state at most one leader of a key is between its entry and its erase. */
  lemma OneLeaderPerKey(events: seq<Event>, t: ThreadId, u: ThreadId)
    requires RunFrom(Initial(), events)
    requires var m := Final(Initial(), events);
             InFlight(m, t) && InFlight(m, u) && SlotExists(m, t) && SlotExists(m, u)
             && m.shared.slots[m.threads[t].slot].key == m.shared.slots[m.threads[u].slot].key
    ensures t == u
  {
    RunKeeps(Initial(), events);
    var m := Final(Initial(), events);
    assert Leads(m, t, m.threads[t].slot) && Leads(m, u, m.threads[u].slot);
  }

  /** The erase of a leader removes the entry of its own slot, and no other. */
  lemma EraseRemovesOwnSlot(m: Machine, t: ThreadId, key: Key)
    requires Invariant(m) && Enabled(m, EraseStep(t))
    ensures var current, current' := m.shared.current, Step(m, EraseStep(t)).shared.current;
            key in current && key !in current' <==> key in current && current[key] == m.threads[t].slot
  {
    assert InFlight(m, t);
  }

  /** A verdict, once given, is final: settled slots never change. */
  lemma {:induction false} VerdictIsFinal(m: Machine, events: seq<Event>, slot: SlotId)
    requires Invariant(m) && RunFrom(m, events) && slot < |m.shared.slots| && m.shared.slots[slot].state != Preparing
    ensures slot < |Final(m, events).shared.slots| && Final(m, events).shared.slots[slot] == m.shared.slots[slot]
    decreases |events|
  {
    if events != [] {
      StepKeeps(m, events[0]);
      assert VerdictsKept(m);
      VerdictIsFinal(Step(m, events[0]), events[1..], slot);
    }
  }

  /** A follower that did not time out goes on to launch exactly if its leader does; otherwise it reports the error its
      leader settled, which is the one the leader reports. */
  lemma FollowersAgreeWithLeader(events: seq<Event>, follower: ThreadId, leader: ThreadId)
    requires RunFrom(Initial(), events)
    requires var m := Final(Initial(), events);
             && follower in m.threads && m.threads[follower].Followed? && !m.threads[follower].timedOut
             && Leads(m, leader, m.threads[follower].slot)
    ensures var m := Final(Initial(), events);
            && !m.threads[leader].Leading?
            && (m.threads[follower].reply == Launch <==> m.threads[leader].reply == Launch)
            && (m.threads[leader].verdict == Ready <==> m.threads[leader].reply == Launch)
            && (m.threads[leader].verdict.Failed? ==>
                  && m.threads[follower].reply ==
                     ErrorReply("prepare_failed_by_peer: " + m.threads[leader].verdict.error)
                  && Reports(m.threads[leader].reply, m.threads[leader].verdict.error))
  {
    RunKeeps(Initial(), events);
  }

  /** A follower that timed out never launches. */
  lemma TimedOutFollowersReportIt(events: seq<Event>, follower: ThreadId)
    requires RunFrom(Initial(), events)
    requires var m := Final(Initial(), events);
             follower in m.threads && m.threads[follower].Followed? && m.threads[follower].timedOut
    ensures Final(Initial(), events).threads[follower].reply ==
            ErrorReply("prepare_failed_by_peer: " + "prepare_peer_timeout")
  {
    RunKeeps(Initial(), events);
  }

  lemma TimeoutOnlyWhileLeading(events: seq<Event>, t: ThreadId)
    requires RunFrom(Initial(), events) && Enabled(Final(Initial(), events), TimeoutStep(t))
    ensures var m := Final(Initial(), events);
            PreparingAlive(m, m.threads[t].slot)
  {
    RunKeeps(Initial(), events);
  }

  /** When no leader is left at work, every key is free and every slot settled: nobody can wait in vain. */
  lemma IdleIsClean(events: seq<Event>)
    requires RunFrom(Initial(), events)
    requires forall t :: !InFlight(Final(Initial(), events), t)
    ensures var m := Final(Initial(), events);
            && (forall k :: k !in m.shared.current)
            && (forall i | 0 <= i < |m.shared.slots| :: m.shared.slots[i].state != Preparing)
  {
    RunKeeps(Initial(), events);
    var m := Final(Initial(), events);
    assert forall t | t in m.threads :: m.threads[t].Leading? ==> InFlight(m, t);
  }
}
