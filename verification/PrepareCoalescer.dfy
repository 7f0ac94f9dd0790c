/**
 Single-flight preparation of package caches: concurrent requests for one cache key elect a leader
 that prepares, and the others wait for its verdict.
 */
module PrepareCoalescer {

  type Key = string
  type SlotId = nat

  datatype SlotState = Preparing | Ready | Failed(error: string)

  datatype Slot = Slot(key: Key, state: SlotState)

  /** `slots` holds every slot ever made; a shared pointer to a slot is its position. */
  datatype State = State(current: map<Key, SlotId>, slots: seq<Slot>)

  // ---- The critical sections ------------------------------------------------------------------

  function Enter(s: State, key: Key): (State, SlotId, bool) {
    if key in s.current then (s, s.current[key], false)
    else (State(s.current[key := |s.slots|], s.slots + [Slot(key, Preparing)]), |s.slots|, true)
  }

  function Settle(s: State, slot: SlotId, verdict: SlotState): State
    requires slot < |s.slots|
  {
    s.(slots := s.slots[slot := s.slots[slot].(state := verdict)])
  }

  function Erase(s: State, key: Key): State { s.(current := s.current - {key}) }

  // ---- The leader ---------------------------------------------------------------------------------

  datatype Outcome<+T> = Done(value: T) | Threw(what: string)

  datatype CacheStatus = Missing | Holds(status: string) | Corrupt

  /** What the world answers the leader: its directories, its two turns at the status file, its prepare steps. */
  datatype World = World(
    directories: Outcome<()>,
    statusRead: Outcome<CacheStatus>,
    statusWrite: Outcome<()>,
    prepared: Outcome<Prepared>)

  datatype Prepared = PreparedOk | PrepareFailed(reason: string)

  datatype Reply = Launch | ErrorReply(error: string) | PrepareReply(reason: string)

  /** A reply that carries this error. */
  predicate Reports(reply: Reply, error: string) {
    || reply == ErrorReply(error)
    || reply == ErrorReply("prepare_cache_failed: " + error)
    || reply == PrepareReply(error)
  }

  /** What a follower replies whose wait ends, at a signal or at its deadline, in this state. */
  function FollowerReply(state: SlotState): Reply {
    match state
    case Preparing => ErrorReply("prepare_failed_by_peer: " + "prepare_peer_timeout")
    case Ready => Launch
    case Failed(error) => ErrorReply("prepare_failed_by_peer: " + error)
  }

  class Coalescer {
    var current: map<Key, SlotId>
    var slots: seq<Slot>

    ghost function View(): State
      reads this
    {
      State(current, slots)
    }

    constructor ()
      ensures View() == State(map[], [])
    {
      current, slots := map[], [];
    }

    method EnterKey(key: Key) returns (slot: SlotId, isLeader: bool)
      modifies this
      ensures (View(), slot, isLeader) == Enter(old(View()), key)
    {
      if key in current { return current[key], false; }
      slot := |slots|;
      slots := slots + [Slot(key, Preparing)];
      current := current[key := slot];
      isLeader := true;
    }

    method EraseKey(key: Key)
      modifies this`current
      ensures View() == Erase(old(View()), key)
    {
      current := current - {key};
    }

    method Finish(key: Key, slot: SlotId)
      requires slot < |slots|
      modifies this
      ensures View() == Erase(Settle(old(View()), slot, Ready), key)
    {
      slots := slots[slot := slots[slot].(state := Ready)];
      EraseKey(key);
    }

    method Fail(key: Key, slot: SlotId, error: string)
      requires slot < |slots|
      modifies this
      ensures View() == Erase(Settle(old(View()), slot, Failed(error)), key)
    {
      slots := slots[slot := slots[slot].(state := Failed(error))];
      EraseKey(key);
    }

    /** The end of a wait, at a signal or at the deadline. */
    method Wait(slot: SlotId) returns (ready: bool, error: string)
      requires slot < |slots|
      ensures ready <==> slots[slot].state == Ready
      ensures slots[slot].state.Failed? ==> error == slots[slot].state.error
      ensures slots[slot].state == Preparing ==> error == "prepare_peer_timeout"
    {
      if slots[slot].state == Preparing { return false, "prepare_peer_timeout"; }
      if slots[slot].state.Failed? { return false, slots[slot].state.error; }
      return true, "";
    }

    method Follow(slot: SlotId) returns (reply: Reply)
      requires slot < |slots|
      ensures reply == FollowerReply(slots[slot].state)
    {
      var ready, error := Wait(slot);
      if !ready { return ErrorReply("prepare_failed_by_peer: " + error); }
      return Launch;
    }

    /** A leader that was handed `slot` for `key`. Whatever the world answers, it settles its slot once, frees the
        key, touches no other slot or key, and goes on to launch exactly when it settled the slot as ready, which is
        exactly when the cache is usable: found ready and not refused, or prepared without a failure on the way. */
    method Lead(key: Key, slot: SlotId, forceRefresh: bool, world: World) returns (reply: Reply)
      requires slot < |slots| && slots[slot] == Slot(key, Preparing)
      modifies this
      ensures exists verdict :: verdict != Preparing && View() == Erase(Settle(old(View()), slot, verdict), key)
                                && (reply == Launch <==> verdict == Ready)
                                && (verdict.Failed? ==> Reports(reply, verdict.error))
      ensures reply == Launch <==>
              && world.directories.Done?
              && (|| (!forceRefresh && world.statusRead == Done(Holds("ready")))
                  || (&& (forceRefresh || world.statusRead.Done?)
                      && world.statusWrite.Done? && world.prepared == Done(PreparedOk)))
    {
      if world.directories.Threw? {
        Fail(key, slot, world.directories.what);
        return ErrorReply("prepare_cache_failed: " + world.directories.what);
      }
      var cacheReady := false;
      if !forceRefresh {
        if world.statusRead.Threw? {
          var reason := "status_lock_failed: " + world.statusRead.what;
          Fail(key, slot, reason);
          return ErrorReply(reason);
        }
        if world.statusRead.value.Holds? && world.statusRead.value.status == "ready" {
          cacheReady := true;
        }
      }
      if !cacheReady {
        if world.statusWrite.Threw? {
          var reason := "status_write_failed: " + world.statusWrite.what;
          Fail(key, slot, reason);
          return ErrorReply(reason);
        }
        if world.prepared.Threw? {
          Fail(key, slot, world.prepared.what);
          return ErrorReply("prepare_cache_failed: " + world.prepared.what);
        }
        if world.prepared.value.PrepareFailed? {
          Fail(key, slot, world.prepared.value.reason);
          return PrepareReply(world.prepared.value.reason);
        }
      }
      Finish(key, slot);
      return Launch;
    }
  }
}
