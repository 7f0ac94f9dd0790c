/**
 What single operations of the session registry do, in terms of the sessions themselves.
 */
module TerminalLaws {
  import opened TerminalRegistry
  import opened Unsigned

  /** A session without a name is the user's default session. */
  lemma KeyIs(user: User, name: string)
    ensures SessionKey(user, "") == user + ":" + "default"
    ensures name != "" ==> SessionKey(user, name) == user + ":" + name
  {}

  /** When a session is granted, and what it is. */
  lemma GrantIff(s: State, limits: Limits, user: User, name: string, alive: set<Driver>, spawns: bool, now: nat)
    ensures var (t, granted) := GetOrCreate(s, limits, user, name, alive, spawns, now);
            var id := user + ":" + if name == "" then "default" else name;
            var others := s.sessions - {id};
            var active := set i | i in others && others[i].user == user && others[i].status == Active;
            if user == "" then granted == Refused(EmptyUser) && t == s
            else if id in s.sessions && s.sessions[id].status == Active && s.sessions[id].driver in alive then
              granted == Existing(id) && t == s
            else if |others| < limits.total && |active| < limits.perUser && spawns then
              granted == Created(id) && t == State(others[id := Session(user, Active, s.made, now)], s.made + 1)
            else
              && t == State(others, s.made)
              && granted == Refused(if |others| >= limits.total then TotalLimit
                                    else if |active| >= limits.perUser then UserLimit else SpawnFailed)
  {
    KeyIs(user, name);
    hide SessionKey;
    var t := Extract(s, {SessionKey(user, name)});
    assert ActiveIds(t, user) ==
           set i | i in t.sessions && t.sessions[i].user == user && t.sessions[i].status == Active;
  }

  /** Killing takes the one session of that name, or, without a name, exactly the sessions of that user. */
  lemma KillTakes(s: State, user: User, name: string, id: SessionId)
    ensures id in KillTargets(s, user, name) <==>
            id in s.sessions && if name == "" then s.sessions[id].user == user else id == user + ":" + name
  {
    if name != "" { KeyIs(user, name); }
  }

  /** What leaves the map: neither active nor used within the idle timeout. A session used after the clock was read
      counts as idle unless the timeout is longer than almost all of the range. */
  lemma EvictTakes(s: State, limits: Limits, now: nat, id: SessionId)
    requires id in s.sessions && now < UINT64 && s.sessions[id].lastUsed < UINT64
    ensures var session := s.sessions[id];
            id in Evictable(s, limits, now) <==>
            || session.status == Dead || session.status == Error
            || (if session.lastUsed <= now then now - session.lastUsed > limits.idleTimeout
                else session.lastUsed - now < 0x1_0000_0000_0000_0000 - limits.idleTimeout)
  {
    IdleIff(s.sessions[id], limits, now);
  }

  /** A scan finds exactly the active sessions without a living driver, and a mark changes only the status. */
  lemma ScanAndMark(s: State, alive: set<Driver>, ids: set<SessionId>, id: SessionId)
    ensures id in ScanDead(s, alive) <==>
            id in s.sessions && s.sessions[id].status == Active && s.sessions[id].driver !in alive
    ensures id in MarkDead(s, ids).sessions <==> id in s.sessions
    ensures id in s.sessions ==>
              var session := s.sessions[id];
              MarkDead(s, ids).sessions[id] ==
              if id in ids then Session(session.user, Dead, session.driver, session.lastUsed) else session
  {}

  /** What is extracted leaves the map, the rest stays, and the drivers handed over are those of the extracted. */
  lemma ExtractMoves(s: State, ids: set<SessionId>, id: SessionId, d: Driver)
    ensures id in Extract(s, ids).sessions <==> id in s.sessions && id !in ids
    ensures id in Extract(s, ids).sessions ==> Extract(s, ids).sessions[id] == s.sessions[id]
    ensures d in DriversOf(s, ids) <==> exists i :: i in ids && i in s.sessions && s.sessions[i].driver == d
    ensures Extract(s, ids).made == s.made
  {}
}
