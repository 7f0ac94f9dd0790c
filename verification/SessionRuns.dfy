/**
 All callers together. Each critical section is one step; the drivers it extracts are in the hands of
 its caller until that caller closes them, one step each.
 */
module SessionRuns {
  import opened TerminalRegistry

  type Caller = nat

  datatype Machine = Machine(reg: State, held: set<(Caller, Driver)>, closed: multiset<Driver>)

  datatype Event =
    | GetOrCreateStep(caller: Caller, user: User, name: string, alive: set<Driver>, spawns: bool, now: nat)
    | KillStep(caller: Caller, user: User, name: string)
    | KillByIdStep(caller: Caller, id: SessionId)
    | MarkDeadStep(ids: set<SessionId>)
    | EvictStep(caller: Caller, now: nat)
    | TouchStep(id: SessionId, now: nat)
    | CloseStep(caller: Caller, driver: Driver)

  function Initial(): Machine { Machine(State(map[], 0), {}, multiset{}) }

  predicate Enabled(m: Machine, e: Event) { e.CloseStep? ==> (e.caller, e.driver) in m.held }

  function Hand(caller: Caller, drivers: set<Driver>): set<(Caller, Driver)> {
    set d | d in drivers :: (caller, d)
  }

  /** `ids` leave the map and their drivers go to `caller`. */
  function Take(m: Machine, caller: Caller, ids: set<SessionId>): Machine {
    m.(reg := Extract(m.reg, ids), held := m.held + Hand(caller, DriversOf(m.reg, ids)))
  }

  function Step(m: Machine, limits: Limits, e: Event): Machine {
    match e
    case GetOrCreateStep(caller, user, name, alive, spawns, now) =>
      var (reg, granted) := GetOrCreate(m.reg, limits, user, name, alive, spawns, now);
      if granted.Existing? || user == "" then m
      else Take(m, caller, {SessionKey(user, name)}).(reg := reg)
    case KillStep(caller, user, name) => Take(m, caller, KillTargets(m.reg, user, name))
    case KillByIdStep(caller, id) => Take(m, caller, {id})
    case MarkDeadStep(ids) => m.(reg := MarkDead(m.reg, ids))
    case EvictStep(caller, now) => Take(m, caller, Evictable(m.reg, limits, now))
    case TouchStep(id, now) => m.(reg := Touch(m.reg, id, now))
    case CloseStep(caller, driver) =>
      m.(held := m.held - {(caller, driver)}, closed := m.closed + multiset{driver})
  }

  predicate RunFrom(m: Machine, limits: Limits, events: seq<Event>)
    decreases |events|
  {
    events == [] || (Enabled(m, events[0]) && RunFrom(Step(m, limits, events[0]), limits, events[1..]))
  }

  function Final(m: Machine, limits: Limits, events: seq<Event>): Machine
    decreases |events|
  {
    if events == [] then m else Final(Step(m, limits, events[0]), limits, events[1..])
  }

  // ---- Limits -------------------------------------------------------------------------------------

  predicate WithinLimits(s: State, limits: Limits, user: User) {
    && |s.sessions| <= (if limits.total > 0 then limits.total else 0)
    && |ActiveIds(s, user)| <= (if limits.perUser > 0 then limits.perUser else 0)
  }

  lemma {:induction false} SubsetSize<T>(a: set<T>, b: set<T>)
    requires a <= b
    ensures |a| <= |b|
  {
    if a != {} {
      var x :| x in a;
      SubsetSize(a - {x}, b - {x});
    }
  }

  /** Fewer sessions, none newly active for the user. */
  lemma ShrinkKeepsLimits(s: State, s': State, limits: Limits, user: User)
    requires WithinLimits(s, limits, user)
    requires s'.sessions.Keys <= s.sessions.Keys && ActiveIds(s', user) <= ActiveIds(s, user)
    ensures WithinLimits(s', limits, user)
  {
    SubsetSize(s'.sessions.Keys, s.sessions.Keys);
    SubsetSize(ActiveIds(s', user), ActiveIds(s, user));
    assert |s.sessions| == |s.sessions.Keys| && |s'.sessions| == |s'.sessions.Keys|;
  }

  /** A new active session where both limits leave room. */
  lemma InsertKeepsLimits(s: State, id: SessionId, session: Session, limits: Limits, user: User)
    requires WithinLimits(s, limits, user) && id !in s.sessions && session.status == Active
    requires |s.sessions| < limits.total && |ActiveIds(s, session.user)| < limits.perUser
    ensures WithinLimits(State(s.sessions[id := session], s.made + 1), limits, user)
  {
    var s' := State(s.sessions[id := session], s.made + 1);
    assert s'.sessions.Keys == s.sessions.Keys + {id};
    assert ActiveIds(s', user) == if session.user == user then ActiveIds(s, user) + {id} else ActiveIds(s, user);
  }

  lemma CreateKeepsLimits(s: State, limits: Limits, user: User, name: string, alive: set<Driver>, spawns: bool,
      now: nat, u: User)
    requires WithinLimits(s, limits, u)
    ensures WithinLimits(GetOrCreate(s, limits, user, name, alive, spawns, now).0, limits, u)
  {
    hide WithinLimits;
    var id := SessionKey(user, name);
    var t := Extract(s, {id});
    ShrinkKeepsLimits(s, t, limits, u);
    if GetOrCreate(s, limits, user, name, alive, spawns, now).1.Created? {
      InsertKeepsLimits(t, id, Session(user, Active, t.made, now), limits, u);
    }
  }

  lemma StepKeepsLimits(m: Machine, limits: Limits, e: Event, user: User)
    requires WithinLimits(m.reg, limits, user)
    ensures WithinLimits(Step(m, limits, e).reg, limits, user)
  {
    hide WithinLimits;
    if e.GetOrCreateStep? {
      CreateKeepsLimits(m.reg, limits, e.user, e.name, e.alive, e.spawns, e.now, user);
    } else {
      ShrinkKeepsLimits(m.reg, Step(m, limits, e).reg, limits, user);
    }
  }

  lemma {:induction false} RunKeepsLimits(m: Machine, limits: Limits, events: seq<Event>, user: User)
    requires WithinLimits(m.reg, limits, user)
    ensures WithinLimits(Final(m, limits, events).reg, limits, user)
    decreases |events|
  {
    hide WithinLimits, Step;
    if events != [] {
      StepKeepsLimits(m, limits, events[0], user);
      RunKeepsLimits(Step(m, limits, events[0]), limits, events[1..], user);
    }
  }

  /** In every run, the sessions stay within the total limit and each user's active ones within the user limit. */
  lemma LimitsHold(limits: Limits, events: seq<Event>, user: User)
    ensures var sessions := Final(Initial(), limits, events).reg.sessions;
            var active := set id | id in sessions && sessions[id].user == user && sessions[id].status == Active;
            && |sessions| <= (if limits.total > 0 then limits.total else 0)
            && |active| <= (if limits.perUser > 0 then limits.perUser else 0)
  {
    assert ActiveIds(Initial().reg, user) == {};
    RunKeepsLimits(Initial(), limits, events, user);
  }

  // ---- Driver ownership --------------------------------------------------------------------------------

  ghost predicate InMap(m: Machine, d: Driver) { exists id :: id in m.reg.sessions && m.reg.sessions[id].driver == d }

  ghost predicate InHands(m: Machine, d: Driver) { exists c: Caller :: (c, d) in m.held }

  /** The three places of a driver exclude each other, and have room for it once. */
  ghost predicate OwnedAtMostOnce(m: Machine) {
    && (forall i, j | i in m.reg.sessions && j in m.reg.sessions ::
          m.reg.sessions[i].driver == m.reg.sessions[j].driver ==> i == j)
    && (forall c: Caller, c': Caller, d: Driver | (c, d) in m.held && (c', d) in m.held :: c == c')
    && (forall i, c: Caller | i in m.reg.sessions :: (c, m.reg.sessions[i].driver) !in m.held)
    && (forall i | i in m.reg.sessions :: m.closed[m.reg.sessions[i].driver] == 0)
    && (forall c: Caller, d: Driver | (c, d) in m.held :: m.closed[d] == 0)
    && (forall d: Driver :: m.closed[d] <= 1)
  }

  ghost predicate OnlyMade(m: Machine) {
    && (forall i | i in m.reg.sessions :: m.reg.sessions[i].driver < m.reg.made)
    && (forall c: Caller, d: Driver | (c, d) in m.held :: d < m.reg.made)
    && (forall d: Driver | m.closed[d] > 0 :: d < m.reg.made)
  }

  ghost predicate AllOwned(m: Machine) {
    forall d: Driver | d < m.reg.made :: InMap(m, d) || InHands(m, d) || m.closed[d] == 1
  }

  ghost predicate Owned(m: Machine) { OwnedAtMostOnce(m) && OnlyMade(m) && AllOwned(m) }

  lemma TakeKeepsOwned(m: Machine, caller: Caller, ids: set<SessionId>)
    requires Owned(m)
    ensures Owned(Take(m, caller, ids))
  {
    var m' := Take(m, caller, ids);
    forall c: Caller, d: Driver | (c, d) in m'.held && (c, d) !in m.held
      ensures c == caller && exists id :: id in ids && id in m.reg.sessions && m.reg.sessions[id].driver == d
    {
      assert d in DriversOf(m.reg, ids);
    }
    forall d: Driver | d < m'.reg.made ensures InMap(m', d) || InHands(m', d) || m'.closed[d] == 1 {
      if InMap(m, d) {
        var id :| id in m.reg.sessions && m.reg.sessions[id].driver == d;
        if id in ids {
          assert d in DriversOf(m.reg, ids);
          assert (caller, d) in m'.held;
        } else {
          assert id in m'.reg.sessions;
        }
      } else if InHands(m, d) {
        var c: Caller :| (c, d) in m.held;
        assert (c, d) in m'.held;
      }
    }
  }

  function Make(m: Machine, id: SessionId, user: User, now: nat): Machine {
    m.(reg := State(m.reg.sessions[id := Session(user, Active, m.reg.made, now)], m.reg.made + 1))
  }

  lemma MakeOwnsOnce(m: Machine, id: SessionId, user: User, now: nat)
    requires OwnedAtMostOnce(m) && OnlyMade(m) && id !in m.reg.sessions
    ensures OwnedAtMostOnce(Make(m, id, user, now)) && OnlyMade(Make(m, id, user, now))
  {
    assert m.closed[m.reg.made] == 0;
  }

  lemma MakeLosesNone(m: Machine, id: SessionId, user: User, now: nat)
    requires AllOwned(m) && id !in m.reg.sessions
    ensures AllOwned(Make(m, id, user, now))
  {
    var m' := Make(m, id, user, now);
    forall d: Driver | d < m'.reg.made ensures InMap(m', d) || InHands(m', d) || m'.closed[d] == 1 {
      if d == m.reg.made {
        assert id in m'.reg.sessions;
      } else if InMap(m, d) {
        var i :| i in m.reg.sessions && m.reg.sessions[i].driver == d;
        assert i in m'.reg.sessions && m'.reg.sessions[i].driver == d;
      } else if InHands(m, d) {
        var c: Caller :| (c, d) in m.held;
        assert (c, d) in m'.held;
      }
    }
  }

  /** A session made with the next driver, under an id not in the map. */
  lemma MakeKeepsOwned(m: Machine, id: SessionId, user: User, now: nat)
    requires Owned(m) && id !in m.reg.sessions
    ensures Owned(Make(m, id, user, now))
  {
    hide OwnedAtMostOnce, OnlyMade, AllOwned, Make;
    MakeOwnsOnce(m, id, user, now);
    MakeLosesNone(m, id, user, now);
  }

  /** Sessions marked or touched keep their drivers. */
  lemma RelabelKeepsOwned(m: Machine, reg: State)
    requires Owned(m) && reg.made == m.reg.made && reg.sessions.Keys == m.reg.sessions.Keys
    requires forall id | id in reg.sessions :: reg.sessions[id].driver == m.reg.sessions[id].driver
    ensures Owned(m.(reg := reg))
  {
    var m' := m.(reg := reg);
    forall d: Driver | d < m'.reg.made ensures InMap(m', d) || InHands(m', d) || m'.closed[d] == 1 {
      if InMap(m, d) {
        var i :| i in m.reg.sessions && m.reg.sessions[i].driver == d;
        assert i in m'.reg.sessions && m'.reg.sessions[i].driver == d;
      } else if InHands(m, d) {
        var c: Caller :| (c, d) in m.held;
        assert (c, d) in m'.held;
      }
    }
  }

  lemma CloseKeepsOwned(m: Machine, caller: Caller, driver: Driver)
    requires Owned(m) && (caller, driver) in m.held
    ensures Owned(m.(held := m.held - {(caller, driver)}, closed := m.closed + multiset{driver}))
  {
    var m' := m.(held := m.held - {(caller, driver)}, closed := m.closed + multiset{driver});
    forall d: Driver | d < m'.reg.made ensures InMap(m', d) || InHands(m', d) || m'.closed[d] == 1 {
      if InMap(m, d) {
        var i :| i in m.reg.sessions && m.reg.sessions[i].driver == d;
        assert i in m'.reg.sessions && m'.reg.sessions[i].driver == d;
      } else if d != driver && InHands(m, d) {
        var c: Caller :| (c, d) in m.held;
        assert (c, d) in m'.held;
      }
    }
  }

  lemma StepKeepsOwned(m: Machine, limits: Limits, e: Event)
    requires Owned(m) && Enabled(m, e)
    ensures Owned(Step(m, limits, e))
  {
    hide Owned;
    if e.GetOrCreateStep? {
      var id := SessionKey(e.user, e.name);
      TakeKeepsOwned(m, e.caller, {id});
      if GetOrCreate(m.reg, limits, e.user, e.name, e.alive, e.spawns, e.now).1.Created? {
        MakeKeepsOwned(Take(m, e.caller, {id}), id, e.user, e.now);
      }
    }
    else if e.KillStep? { TakeKeepsOwned(m, e.caller, KillTargets(m.reg, e.user, e.name)); }
    else if e.KillByIdStep? { TakeKeepsOwned(m, e.caller, {e.id}); }
    else if e.MarkDeadStep? { RelabelKeepsOwned(m, MarkDead(m.reg, e.ids)); }
    else if e.EvictStep? { TakeKeepsOwned(m, e.caller, Evictable(m.reg, limits, e.now)); }
    else if e.TouchStep? { RelabelKeepsOwned(m, Touch(m.reg, e.id, e.now)); }
    else { CloseKeepsOwned(m, e.caller, e.driver); }
  }

  lemma {:induction false} RunKeepsOwned(m: Machine, limits: Limits, events: seq<Event>)
    requires Owned(m) && RunFrom(m, limits, events)
    ensures Owned(Final(m, limits, events))
    decreases |events|
  {
    hide Owned, Step, Enabled;
    if events != [] {
      StepKeepsOwned(m, limits, events[0]);
      RunKeepsOwned(Step(m, limits, events[0]), limits, events[1..]);
    }
  }

  /** In every run each driver made is in exactly one place: in one session of the map, in the hands of one caller,
      or closed once. */
  lemma EveryDriverInOnePlace(limits: Limits, events: seq<Event>, d: Driver)
    requires RunFrom(Initial(), limits, events)
    ensures var m := Final(Initial(), limits, events);
            && (InMap(m, d) ==> !InHands(m, d) && m.closed[d] == 0)
            && (InHands(m, d) ==> !InMap(m, d) && m.closed[d] == 0)
            && (d < m.reg.made && !InMap(m, d) && !InHands(m, d) ==> m.closed[d] == 1)
            && (d >= m.reg.made ==> !InMap(m, d) && !InHands(m, d) && m.closed[d] == 0)
            && (forall i, j | i in m.reg.sessions && j in m.reg.sessions ::
                  m.reg.sessions[i].driver == d && m.reg.sessions[j].driver == d ==> i == j)
            && (forall c: Caller, c': Caller | (c, d) in m.held && (c', d) in m.held :: c == c')
  {
    RunKeepsOwned(Initial(), limits, events);
  }

  // ---- The watchdog and stale information ----------------------------------------------------------------

  /** Whether this event makes a session of this id. */
  predicate Creates(m: Machine, limits: Limits, e: Event, id: SessionId) {
    && e.GetOrCreateStep?
    && GetOrCreate(m.reg, limits, e.user, e.name, e.alive, e.spawns, e.now).1 == Created(id)
  }

  /** Some event of the run makes a session of this id. */
  predicate CreatedIn(m: Machine, limits: Limits, events: seq<Event>, id: SessionId)
    decreases |events|
  {
    events != [] &&
    (Creates(m, limits, events[0], id) || CreatedIn(Step(m, limits, events[0]), limits, events[1..], id))
  }

  lemma StepKeepsDriver(m: Machine, limits: Limits, e: Event, id: SessionId)
    requires !Creates(m, limits, e, id) && id in Step(m, limits, e).reg.sessions
    ensures id in m.reg.sessions && Step(m, limits, e).reg.sessions[id].driver == m.reg.sessions[id].driver
  {}

  /** A session that is there after a run that made none of its id was there before, with the same driver. */
  lemma {:induction false} RunKeepsDriver(m: Machine, limits: Limits, events: seq<Event>, id: SessionId)
    requires !CreatedIn(m, limits, events, id) && id in Final(m, limits, events).reg.sessions
    ensures id in m.reg.sessions
    ensures Final(m, limits, events).reg.sessions[id].driver == m.reg.sessions[id].driver
    decreases |events|
  {
    hide Step, Creates;
    if events != [] {
      RunKeepsDriver(Step(m, limits, events[0]), limits, events[1..], id);
      StepKeepsDriver(m, limits, events[0], id);
    }
  }

  /** For any reachable state at the scan and any run from there to the mark: a session that is healthy at the mark is
      marked dead exactly if its id was scanned dead and some event in between made a session of that id. */
  lemma HealthyMarkedDeadIff(limits: Limits, before: seq<Event>, between: seq<Event>, alive: set<Driver>,
                             later: set<Driver>, id: SessionId)
    requires RunFrom(Initial(), limits, before)
    requires var m := Final(Initial(), limits, before);
             && RunFrom(m, limits, between)
             && (forall d | d in later && d < m.reg.made :: d in alive)
             && Healthy(Final(m, limits, between).reg, id, later)
    ensures var m := Final(Initial(), limits, before);
            var m' := Final(m, limits, between);
            var marked := Step(m', limits, MarkDeadStep(ScanDead(m.reg, alive)));
            !Healthy(marked.reg, id, later) <==> id in ScanDead(m.reg, alive) && CreatedIn(m, limits, between, id)
  {
    hide Step, CreatedIn;
    var m := Final(Initial(), limits, before);
    RunKeepsOwned(Initial(), limits, before);
    MarkedAtOnce(Final(m, limits, between), limits, ScanDead(m.reg, alive), id, later);
    if !CreatedIn(m, limits, between, id) {
      RunKeepsDriver(m, limits, between, id);
      assert m.reg.sessions[id].driver in alive;
    }
  }

  lemma MarkedAtOnce(m: Machine, limits: Limits, ids: set<SessionId>, id: SessionId, later: set<Driver>)
    requires Healthy(m.reg, id, later)
    ensures !Healthy(Step(m, limits, MarkDeadStep(ids)).reg, id, later) <==> id in ids
  {}

  /** Such a run: the driver of a session dies and is scanned, its user asks for the session again, and then the mark
      and the next eviction take the new, living driver away. */
  lemma StaleScanTakesLivingDriver(limits: Limits, user: User, now: nat)
    returns (before: seq<Event>, between: seq<Event>)
    requires limits.total > 0 && limits.perUser > 0 && user != ""
    ensures RunFrom(Initial(), limits, before) && RunFrom(Final(Initial(), limits, before), limits, between)
    ensures var m := Final(Initial(), limits, before);
            var m' := Final(m, limits, between);
            var marked := Step(m', limits, MarkDeadStep(ScanDead(m.reg, {})));
            && Healthy(m'.reg, SessionKey(user, ""), {1})
            && (2, 1) in Step(marked, limits, EvictStep(2, now)).held
  {
    var id := SessionKey(user, "");
    before := [GetOrCreateStep(0, user, "", {0}, true, now)];
    between := [GetOrCreateStep(1, user, "", {}, true, now)];
    var m := Machine(State(map[id := Session(user, Active, 0, now)], 1), {}, multiset{});
    var m' := Machine(State(map[id := Session(user, Active, 1, now)], 2), {(1, 0)}, multiset{});
    FirstGrant(limits, user, now);
    SecondGrant(limits, user, now);
    OneEvent(Initial(), limits, before[0]);
    OneEvent(m, limits, between[0]);
    hide Step;
    assert id in ScanDead(m.reg, {});
    MarkedIsEvicted(m', limits, ScanDead(m.reg, {}), id, now);
  }

  lemma MarkedIsEvicted(m: Machine, limits: Limits, ids: set<SessionId>, id: SessionId, now: nat)
    requires id in ids && id in m.reg.sessions
    ensures (2, m.reg.sessions[id].driver) in Step(Step(m, limits, MarkDeadStep(ids)), limits, EvictStep(2, now)).held
  {
    var marked := Step(m, limits, MarkDeadStep(ids)).reg;
    assert id in Evictable(marked, limits, now);
    assert m.reg.sessions[id].driver in DriversOf(marked, Evictable(marked, limits, now));
  }

  lemma OneEvent(m: Machine, limits: Limits, e: Event)
    ensures RunFrom(m, limits, [e]) <==> Enabled(m, e)
    ensures Final(m, limits, [e]) == Step(m, limits, e)
  {
    hide Step;
    assert [e][1..] == [];
  }

  lemma FirstGrant(limits: Limits, user: User, now: nat)
    requires limits.total > 0 && limits.perUser > 0 && user != ""
    ensures Step(Initial(), limits, GetOrCreateStep(0, user, "", {0}, true, now)) ==
            Machine(State(map[SessionKey(user, "") := Session(user, Active, 0, now)], 1), {}, multiset{})
  {
    var id := SessionKey(user, "");
    var t := Extract(Initial().reg, {id});
    assert t.sessions == map[] && ActiveIds(t, user) == {};
    assert DriversOf(Initial().reg, {id}) == {};
  }

  lemma SecondGrant(limits: Limits, user: User, now: nat)
    requires limits.total > 0 && limits.perUser > 0 && user != ""
    ensures var m := Machine(State(map[SessionKey(user, "") := Session(user, Active, 0, now)], 1), {}, multiset{});
            Step(m, limits, GetOrCreateStep(1, user, "", {}, true, now)) ==
            Machine(State(map[SessionKey(user, "") := Session(user, Active, 1, now)], 2), {(1, 0)}, multiset{})
  {
    var id := SessionKey(user, "");
    var reg := State(map[id := Session(user, Active, 0, now)], 1);
    var t := Extract(reg, {id});
    assert t.sessions == map[] && ActiveIds(t, user) == {};
    assert DriversOf(reg, {id}) == {0};
    assert Hand(1, {0}) == {(1, 0)};
  }
}
