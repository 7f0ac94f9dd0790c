/**
 The registry of terminal sessions: its limits, and who owns a session's driver once the session
 leaves the map. Drivers are numbered in the order they are made; which of them are alive is an input.
 */
module TerminalRegistry {
  import opened Unsigned

  type User = string
  type SessionId = string
  type Driver = nat

  datatype SessionStatus = Active | Dead | Error

  datatype Session = Session(user: User, status: SessionStatus, driver: Driver, lastUsed: nat)

  datatype Limits = Limits(total: int, perUser: int, idleTimeout: nat)

  /** `made` is the number of drivers made so far. */
  datatype State = State(sessions: map<SessionId, Session>, made: nat)

  // ---- Session ids --------------------------------------------------------------------------

  function Normalize(name: string): string { if name == "" then "default" else name }

  function SessionKey(user: User, name: string): SessionId { user + ":" + Normalize(name) }

  /** A user name with a colon shares each of its session ids with the shorter user before the colon. */
  lemma ColonUsersShare(user: User, name: string, i: nat)
    requires i < |user| && user[i] == ':'
    ensures SessionKey(user, name) == SessionKey(user[..i], user[i + 1..] + ":" + Normalize(name))
  {
    assert user == user[..i] + ":" + user[i + 1..];
    assert Normalize(user[i + 1..] + ":" + Normalize(name)) == user[i + 1..] + ":" + Normalize(name);
    assert SessionKey(user, name) == user[..i] + ":" + (user[i + 1..] + ":" + Normalize(name));
  }

  /** One user name, followed by a colon, starts the other. */
  predicate Nested(user: User, user': User) { user + ":" <= user' || user' + ":" <= user }

  ghost predicate ShareId(user: User, user': User) {
    exists name, name' :: SessionKey(user, name) == SessionKey(user', name')
  }

  /** Two different users can have a session id in common exactly if one of their names, followed by a colon, starts
      the other. */
  lemma UsersShareIdsIff(user: User, user': User)
    ensures ShareId(user, user') <==> user == user' || Nested(user, user')
  {
    if ShareId(user, user') {
      var name, name' :| SessionKey(user, name) == SessionKey(user', name');
      SharedKeyNests(user, name, user', name');
    }
    if user + ":" <= user' { NestedShare(user, user'); }
    if user' + ":" <= user { NestedShare(user', user); }
    hide SessionKey;
    if user == user' { assert SessionKey(user, "") == SessionKey(user', ""); }
  }

  lemma NestedShare(user: User, longer: User)
    requires user + ":" <= longer
    ensures ShareId(user, longer) && ShareId(longer, user)
  {
    var i := |user|;
    assert longer[i] == (user + ":")[i] && longer[..i] == user;
    ColonUsersShare(longer, "", i);
    hide SessionKey;
    assert SessionKey(user, longer[i + 1..] + ":" + Normalize("")) == SessionKey(longer, "");
  }

  lemma SharedKeyNests(user: User, name: string, user': User, name': string)
    requires SessionKey(user, name) == SessionKey(user', name')
    ensures user == user' || Nested(user, user')
  {
    var key := SessionKey(user, name);
    assert user + ":" == key[..|user| + 1] && user' + ":" == key[..|user'| + 1];
    assert user == key[..|user|] && user' == key[..|user'|];
    if |user| < |user'| {
      assert user + ":" == user'[..|user| + 1];
    } else if |user'| < |user| {
      assert user' + ":" == user[..|user'| + 1];
    }
  }

  /** Between users whose names do not nest so, the id determines the user and the name. */
  lemma KeysInjective(user: User, name: string, user': User, name': string)
    requires !Nested(user, user') && SessionKey(user, name) == SessionKey(user', name')
    ensures user == user' && Normalize(name) == Normalize(name')
  {
    SharedKeyNests(user, name, user', name');
    var key := SessionKey(user, name);
    assert key[|user| + 1..] == Normalize(name) && key[|user'| + 1..] == Normalize(name');
  }

  // ---- The critical sections --------------------------------------------------------------------

  predicate Healthy(s: State, id: SessionId, alive: set<Driver>) {
    id in s.sessions && s.sessions[id].status == Active && s.sessions[id].driver in alive
  }

  function ActiveIds(s: State, user: User): set<SessionId> {
    set id | id in s.sessions && s.sessions[id].user == user && s.sessions[id].status == Active
  }

  function DriversOf(s: State, ids: set<SessionId>): set<Driver> {
    set id | id in ids && id in s.sessions :: s.sessions[id].driver
  }

  function Extract(s: State, ids: set<SessionId>): State { s.(sessions := s.sessions - ids) }

  datatype Granted = Existing(id: SessionId) | Created(id: SessionId) | Refused(reason: Refusal)

  datatype Refusal = EmptyUser | TotalLimit | UserLimit | SpawnFailed

  /** The write path of get_or_create: an unhealthy session of that id is extracted whatever follows. */
  function GetOrCreate(s: State, limits: Limits, user: User, name: string, alive: set<Driver>, spawns: bool,
                       now: nat): (State, Granted)
  {
    var id := SessionKey(user, name);
    if user == "" then (s, Refused(EmptyUser))
    else if Healthy(s, id, alive) then (s, Existing(id))
    else
      var t := Extract(s, {id});
      if |t.sessions| >= limits.total then (t, Refused(TotalLimit))
      else if |ActiveIds(t, user)| >= limits.perUser then (t, Refused(UserLimit))
      else if !spawns then (t, Refused(SpawnFailed))
      else (State(t.sessions[id := Session(user, Active, t.made, now)], t.made + 1), Created(id))
  }

  /** The sessions kill_session takes: one of a name, or all of a user for the empty name. */
  function KillTargets(s: State, user: User, name: string): set<SessionId> {
    if name == "" then set id | id in s.sessions && s.sessions[id].user == user
    else if SessionKey(user, name) in s.sessions then {SessionKey(user, name)}
    else {}
  }

  function ScanDead(s: State, alive: set<Driver>): set<SessionId> {
    set id | id in s.sessions && s.sessions[id].status == Active && s.sessions[id].driver !in alive
  }

  /** The second phase of detect_dead_sessions; `ids` may be stale. */
  function MarkDead(s: State, ids: set<SessionId>): State {
    s.(sessions := map id | id in s.sessions ::
                     if id in ids then s.sessions[id].(status := Dead) else s.sessions[id])
  }

  predicate Idle(session: Session, limits: Limits, now: nat) {
    Age(now, session.lastUsed) > limits.idleTimeout
  }

  function Evictable(s: State, limits: Limits, now: nat): set<SessionId> {
    set id | id in s.sessions && (s.sessions[id].status != Active || Idle(s.sessions[id], limits, now))
  }

  function Touch(s: State, id: SessionId, now: nat): State {
    if id in s.sessions then s.(sessions := s.sessions[id := s.sessions[id].(lastUsed := now)]) else s
  }

  // ---- The registry --------------------------------------------------------------------------------

  lemma SameSessions(s: map<SessionId, Session>, t: map<SessionId, Session>)
    requires s.Keys == t.Keys && forall id | id in s :: s[id] == t[id]
    ensures s == t
  {
    assert (forall id :: id in s ==> s[id] == t[id]) ==> s == t;
  }

  class Registry {
    const limits: Limits
    var sessions: map<SessionId, Session>
    var made: nat

    ghost function View(): State
      reads this
    {
      State(sessions, made)
    }

    constructor (limits: Limits)
      ensures View() == State(map[], 0) && this.limits == limits
    {
      this.limits := limits;
      sessions, made := map[], 0;
    }

    /** The fast path. */
    method FindHealthy(id: SessionId, alive: set<Driver>) returns (found: bool)
      ensures found == Healthy(View(), id, alive)
    {
      if id !in sessions { return false; }
      var s := sessions[id];
      return s.status == Active && s.driver in alive;
    }

    /** Takes a session out of the map; its driver is the caller's to close. */
    method ExtractLocked(id: SessionId) returns (driver: set<Driver>)
      modifies this`sessions
      ensures View() == Extract(old(View()), {id}) && driver == DriversOf(old(View()), {id})
    {
      driver := {};
      if id in sessions { driver := {sessions[id].driver}; }
      sessions := sessions - {id};
    }

    method CountActive(user: User) returns (count: nat)
      ensures count == |ActiveIds(View(), user)|
    {
      count := 0;
      var left := sessions.Keys;
      ghost var counted: set<SessionId> := {};
      while left != {}
        invariant left <= sessions.Keys && count == |counted|
        invariant counted == set id | id in sessions.Keys - left && sessions[id].user == user
                && sessions[id].status == Active
        decreases left
      {
        var id :| id in left;
        left := left - {id};
        if sessions[id].user == user && sessions[id].status == Active {
          count := count + 1;
          counted := counted + {id};
        }
      }
      assert counted == ActiveIds(View(), user);
    }

    /** `toClose` is closed by the caller after the lock is released. */
    method GetOrCreateSession(user: User, name: string, alive: set<Driver>, spawns: bool, now: nat)
        returns (granted: Granted, toClose: set<Driver>)
      modifies this
      ensures (View(), granted) == GetOrCreate(old(View()), limits, user, name, alive, spawns, now)
      ensures toClose == if granted.Existing? || granted == Refused(EmptyUser) then {}
                         else DriversOf(old(View()), {SessionKey(user, name)})
    {
      toClose := {};
      if user == "" { return Refused(EmptyUser), {}; }
      var id := SessionKey(user, name);
      var found := FindHealthy(id, alive);
      if found { return Existing(id), {}; }
      toClose := ExtractLocked(id);
      if |sessions| >= limits.total { return Refused(TotalLimit), toClose; }
      var count := CountActive(user);
      if count >= limits.perUser { return Refused(UserLimit), toClose; }
      if !spawns { return Refused(SpawnFailed), toClose; }
      sessions := sessions[id := Session(user, Active, made, now)];
      made := made + 1;
      granted := Created(id);
    }

    method ExtractAll(ids: set<SessionId>) returns (toClose: set<Driver>)
      requires ids <= sessions.Keys
      modifies this`sessions
      ensures View() == Extract(old(View()), ids) && toClose == DriversOf(old(View()), ids)
    {
      toClose := {};
      var left := ids;
      while left != {}
        invariant left <= ids && View() == Extract(old(View()), ids - left)
        invariant toClose == DriversOf(old(View()), ids - left)
        decreases left
      {
        var id :| id in left;
        var driver := ExtractLocked(id);
        ExtractOneMore(old(View()), ids - left, id);
        left := left - {id};
        assert ids - left == ids - (left + {id}) + {id};
        toClose := toClose + driver;
      }
      assert ids - left == ids;
    }

    method KillSession(user: User, name: string) returns (toClose: set<Driver>)
      modifies this`sessions
      ensures var targets := KillTargets(old(View()), user, name);
              View() == Extract(old(View()), targets) && toClose == DriversOf(old(View()), targets)
    {
      if name == "" {
        var keys := set id | id in sessions && sessions[id].user == user;
        toClose := ExtractAll(keys);
      } else {
        toClose := ExtractLocked(SessionKey(user, name));
        assert sessions == old(sessions) - KillTargets(old(View()), user, name);
      }
    }

    method DetectDeadScan(alive: set<Driver>) returns (ids: set<SessionId>)
      ensures ids == ScanDead(View(), alive)
    {
      ids := {};
      var left := sessions.Keys;
      while left != {}
        invariant left <= sessions.Keys
        invariant ids == set id | id in sessions.Keys - left && sessions[id].status == Active
                && sessions[id].driver !in alive
        decreases left
      {
        var id :| id in left;
        left := left - {id};
        if sessions[id].status == Active && sessions[id].driver !in alive { ids := ids + {id}; }
      }
    }

    method DetectDeadMark(ids: set<SessionId>)
      modifies this`sessions
      ensures View() == MarkDead(old(View()), ids)
    {
      var left := ids;
      while left != {}
        invariant left <= ids && sessions.Keys == old(sessions).Keys
        invariant forall id | id in sessions ::
                    sessions[id] == if id in ids - left then old(sessions)[id].(status := Dead) else old(sessions)[id]
        decreases left
      {
        var id :| id in left;
        left := left - {id};
        if id in sessions { sessions := sessions[id := sessions[id].(status := Dead)]; }
      }
      SameSessions(sessions, MarkDead(old(View()), ids).sessions);
    }

    /** `now` was read before the lock was taken. */
    method EvictDeadAndIdle(now: nat) returns (toClose: set<Driver>)
      modifies this`sessions
      ensures var targets := Evictable(old(View()), limits, now);
              View() == Extract(old(View()), targets) && toClose == DriversOf(old(View()), targets)
    {
      var ids := set id | id in sessions && (sessions[id].status != Active || Idle(sessions[id], limits, now));
      toClose := ExtractAll(ids);
    }
  }

  lemma ExtractOneMore(s: State, ids: set<SessionId>, id: SessionId)
    requires id !in ids
    ensures Extract(Extract(s, ids), {id}) == Extract(s, ids + {id})
    ensures DriversOf(s, ids) + DriversOf(Extract(s, ids), {id}) == DriversOf(s, ids + {id})
  {
    assert s.sessions - ids - {id} == s.sessions - (ids + {id});
  }

  // ---- What the sections mean -----------------------------------------------------------------------

  /** A grant leaves a healthy or newly made session of that id; after a refusal there is none, except that an
      empty user is refused outright. */
  lemma GrantMeansHealthy(s: State, limits: Limits, user: User, name: string, alive: set<Driver>, spawns: bool,
      now: nat)
    ensures var (s', granted), id := GetOrCreate(s, limits, user, name, alive, spawns, now), SessionKey(user, name);
            && (!granted.Refused? ==> granted.id == id && Healthy(s', id, alive + {s.made}))
            && (granted.Refused? && user != "" ==> id !in s'.sessions)
            && (granted.Created? <==> s'.made == s.made + 1)
            && s'.sessions - {id} == s.sessions - {id}
  {}

  /** Idleness is measured modulo 2^64, so a session used after the watchdog read its clock counts as idle for ages. */
  lemma IdleIff(session: Session, limits: Limits, now: nat)
    requires now < UINT64 && session.lastUsed < UINT64
    ensures Idle(session, limits, now) <==>
            if session.lastUsed <= now then now - session.lastUsed > limits.idleTimeout
            else session.lastUsed - now < UINT64 - limits.idleTimeout
  {
    AgeExceedsIff(now, session.lastUsed, limits.idleTimeout);
  }
}
