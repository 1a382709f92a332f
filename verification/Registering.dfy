/** Agents of equal capacity that register one after the other with a queue nobody waits in. */
module Registering {
  import opened Types
  import opened LoadOrder
  import opened Rosters
  import opened Dispatch
  import opened Invariants
  import opened Histories
  import opened Runs
  import opened LoadBalance

  predicate AccountsDiffer(ids: seq<Umid>) {
    forall i, j :: 0 <= i < j < |ids| ==> ids[i].uin != ids[j].uin
  }

  function Accounts(ids: seq<Umid>): (us: seq<nat>)
    ensures |us| == |ids| && forall k :: 0 <= k < |ids| ==> us[k] == ids[k].uin
  {
    seq(|ids|, k requires 0 <= k < |ids| => ids[k].uin)
  }

  function Idle(id: Umid, name: string, capacity: uint16): AgentRec {
    AgentRec(id, name, Available, capacity, 0, {})
  }

  function IdlePool(ids: seq<Umid>, name: string, capacity: uint16): (pool: map<nat, AgentRec>)
    ensures forall u :: u in pool <==> u in Accounts(ids)
    ensures AccountsDiffer(ids) ==>
              forall k :: 0 <= k < |ids| ==> pool[ids[k].uin] == Idle(ids[k], name, capacity)
    decreases |ids|
  {
    if ids == [] then map[]
    else
      var rest, id := ids[..|ids| - 1], ids[|ids| - 1];
      assert Accounts(ids) == Accounts(rest) + [id.uin];
      IdlePool(rest, name, capacity)[id.uin := Idle(id, name, capacity)]
  }

  /** The queue with the agents idle, in the order they registered. */
  function Registered(queueId: nat, ids: seq<Umid>, name: string, capacity: uint16): State {
    State(queueId, [], Roster(Accounts(ids), IdlePool(ids, name, capacity), {}), map[])
  }

  function Registrations(ids: seq<Umid>, name: string, capacity: uint16): (evs: seq<Event>)
    ensures |evs| == |ids| && forall k :: 0 <= k < |ids| ==> evs[k] == Presence(ids[k], capacity, Some(name))
  {
    seq(|ids|, k requires 0 <= k < |ids| => Presence(ids[k], capacity, Some(name)))
  }

  // A newcomer no agent belongs behind goes to the end of the list.
  lemma InsertsLast(r: Roster, a: AgentRec)
    requires Agrees(r) && a.id.uin !in r.pool
    requires forall u :: u in r.pool ==> !Gt(r.pool[u].OrderKey(), a.OrderKey())
    ensures Insert(r, a) == r.(order := r.order + [a.id.uin], pool := r.pool[a.id.uin := a])
  {
    hide Distinct, Covers;
    var pool, order := r.pool[a.id.uin := a], [a.id.uin] + r.order;
    assert Listed(order, pool);
    var keys := Keys(order, pool);
    forall k | 0 <= k < |keys| ensures !Gt(keys[k], keys[0]) {
      assert k > 0 ==> order[k] == r.order[k - 1];
    }
    TailSlotLast(keys, 0, 0);
    assert Moved(order, 0, |order| - 1) == r.order + [a.id.uin];
  }

  lemma OneRegisters(queueId: nat, counter: nat, ids: seq<Umid>, name: string, capacity: uint16)
    requires ids != [] && AccountsDiffer(ids) && Sane(Config(Registered(queueId, ids[..|ids| - 1], name, capacity), counter))
    ensures var q := Registered(queueId, ids[..|ids| - 1], name, capacity);
            var ev := Presence(ids[|ids| - 1], capacity, Some(name));
            Succ(Config(q, counter), ev) == Config(Registered(queueId, ids, name, capacity), counter)
  {
    hide Distinct, Covers, InLoadOrder, LoadsCount, Inverse, Invite, Invitations, Insert;
    var rest, id := ids[..|ids| - 1], ids[|ids| - 1];
    var q, a := Registered(queueId, rest, name, capacity), Idle(id, name, capacity);
    assert id.uin !in q.roster.pool;
    InsertKeeps(q.roster, a);
    InsertsLast(q.roster, a);
    ChosenNone(Insert(q.roster, a));
    assert Accounts(ids) == Accounts(rest) + [id.uin];
  }

  /** Registering one after the other leads from the empty queue to the agents idle, in that order. */
  lemma {:induction false} RegistrationsReach(queueId: nat, last: nat, ids: seq<Umid>, name: string, capacity: uint16)
    requires last < UINT64_LIMIT && AccountsDiffer(ids)
    ensures Reaches(Start(queueId, last), Registrations(ids, name, capacity),
                    Config(Registered(queueId, ids, name, capacity), last))
    ensures Sane(Config(Registered(queueId, ids, name, capacity), last))
    decreases |ids|
  {
    hide Invariant, Succ, Reaches;
    if ids == [] {
      assert Registered(queueId, ids, name, capacity) == Empty(queueId);
      assert Reaches(Start(queueId, last), [], Start(queueId, last)) by { NoEvents(Start(queueId, last)); }
      assert Registrations(ids, name, capacity) == [];
    } else {
      var rest := ids[..|ids| - 1];
      RegistrationsReach(queueId, last, rest, name, capacity);
      var c := Config(Registered(queueId, rest, name, capacity), last);
      var ev := Presence(ids[|ids| - 1], capacity, Some(name));
      OneRegisters(queueId, last, ids, name, capacity);
      ReachesNext(c, ev);
      ReachesThen(Start(queueId, last), Registrations(rest, name, capacity), c, [ev], Succ(c, ev));
      assert Registrations(ids, name, capacity) == Registrations(rest, name, capacity) + [ev];
    }
  }

  lemma NoEvents(c: Config)
    requires Sane(c)
    ensures Reaches(c, [], c)
  {
  }

  lemma RegisteredLevel(queueId: nat, last: nat, ids: seq<Umid>, name: string, capacity: uint16)
    requires ids != [] && AccountsDiffer(ids) && Sane(Config(Registered(queueId, ids, name, capacity), last))
    ensures Level(Registered(queueId, ids, name, capacity), capacity, 0, 0)
  {
    hide Distinct, Covers, InLoadOrder, LoadsCount, Inverse;
    var q := Registered(queueId, ids, name, capacity);
    forall p | 0 <= p < |ids| ensures LevelAt(q.roster, p, capacity, 0, 0) {
      assert q.roster.order[p] == ids[p].uin;
    }
  }

  ghost predicate WithinOne(pool: map<nat, AgentRec>) {
    forall u, v :: u in pool && v in pool ==> pool[u].load - pool[v].load <= 1
  }

  lemma PlayedWithinOne(c: Config, users: seq<User>, c': Config, capacity: uint16)
    requires Sane(c) && Level(c.state, capacity, 0, 0) && Played(c, users, c')
    requires |users| <= |c.state.roster.order| * capacity
    ensures WithinOne(c'.state.roster.pool)
  {
    hide Invariant, Level, Played;
    forall u, v | u in c'.state.roster.pool && v in c'.state.roster.pool
      ensures c'.state.roster.pool[u].load - c'.state.roster.pool[v].load <= 1
    {
      LoadsStayBalanced(c, users, c', capacity, u, v);
    }
  }

  /** From the empty queue: n agents of capacity C register, then up to n*C users join, each followed
      by the acceptance of the agent invited. This can be played, and however it is played, no two
      loads differ by more than one. */
  lemma BalancedFromStart(queueId: nat, last: nat, ids: seq<Umid>, name: string, capacity: uint16, users: seq<User>)
    returns (c: Config)
    requires ids != [] && AccountsDiffer(ids)
    requires |users| <= |ids| * capacity && last + |users| < UINT64_LIMIT
    ensures Sane(c) && Reaches(Start(queueId, last), Registrations(ids, name, capacity), c)
    ensures exists c' :: Played(c, users, c')
    ensures forall c' :: Played(c, users, c') ==> WithinOne(c'.state.roster.pool)
  {
    hide Invariant, Level, Played, IdlePool, Reaches, WithinOne, AccountsDiffer;
    RegistrationsReach(queueId, last, ids, name, capacity);
    c := Config(Registered(queueId, ids, name, capacity), last);
    RegisteredLevel(queueId, last, ids, name, capacity);
    assert |c.state.roster.order| == |ids|;
    assert Rounds(0, 0, |ids|) == 0;
    var c1 := RoundsPlayable(c, users, capacity, 0, 0);
    forall c' | Played(c, users, c') ensures WithinOne(c'.state.roster.pool) {
      PlayedWithinOne(c, users, c', capacity);
    }
  }
}
