/** Load balance. Starting from idle agents of equal capacity, every round "a user joins, the
    invited agent accepts" serves the agents in turn, so no two loads ever differ by more than
    one. */
module LoadBalance {
  import opened Types
  import opened LoadOrder
  import opened Rosters
  import opened Dispatch
  import opened Invariants
  import opened Histories

  /** The agent at position p has had its turn m times, or once more among the last r. */
  ghost predicate LevelAt(roster: Roster, p: nat, capacity: uint16, m: nat, r: nat)
    requires Agrees(roster) && p < |roster.order|
  {
    var a := roster.pool[roster.order[p]];
    && a.state == Available && a.capacity == capacity
    && a.load == if p < |roster.order| - r then m else m + 1
  }

  /** After m full turns and r more rounds: nobody waits, nobody is being invited, and the last r
      agents of the order carry m + 1 conversations while all others carry m. */
  ghost predicate Level(q: State, capacity: uint16, m: nat, r: nat) {
    && Coherent(q)
    && q.users == [] && q.roster.inviting == {}
    && r < |q.roster.order|
    && forall p :: 0 <= p < |q.roster.order| ==> LevelAt(q.roster, p, capacity, m, r)
  }

  // ---- joining: exactly the head of the order is invited ----

  lemma {:induction false} FirstEligible(order: seq<nat>, pool: map<nat, AgentRec>, inviting: set<nat>)
    requires order != [] && Listed(order, pool) && Eligible(pool[order[0]], inviting)
    ensures var el := Eligibles(order, pool, inviting); el != [] && el[0] == order[0]
    decreases |order|
  {
    if |order| > 1 {
      FirstEligible(order[..|order| - 1], pool, inviting);
    } else {
      assert order[..0] == [];
    }
  }

  lemma ChosenOne(r: Roster)
    requires Agrees(r) && r.inviting == {} && r.order != [] && Eligible(r.pool[r.order[0]], {})
    ensures Chosen(r, 1) == [r.order[0]]
  {
    hide Distinct, Covers, Eligibles;
    FirstEligible(r.order, r.pool, {});
  }

  lemma ChosenNone(r: Roster)
    requires Agrees(r) && r.inviting == {}
    ensures Chosen(r, 0) == [] && Invite(r, 0) == r
  {
    hide Distinct, Listed, Covers, Eligibles;
    assert ToSet([]) == {};
    assert Mark(r.pool, []) == r.pool;
  }

  lemma JoinInvitesHead(c: Config, user: User, capacity: uint16, m: nat, r: nat)
    requires Sane(c) && Level(c.state, capacity, m, r) && m < capacity
    ensures var u, next := c.state.roster.order[0], After(c, Join(user.id, user.address));
            && next.reply.invites == [c.state.roster.pool[u].id]
            && next.counter == c.counter
            && next.state == c.state.(users := [user], roster :=
                 Roster(c.state.roster.order,
                        c.state.roster.pool[u := c.state.roster.pool[u].(state := AgentState.Inviting)], {u}))
  {
    hide Distinct, Listed, Covers, InLoadOrder, LoadsCount, Inverse, Chosen;
    var q := c.state;
    var u := q.roster.order[0];
    assert LevelAt(q.roster, 0, capacity, m, r);
    ChosenOne(q.roster);
    assert q.users + [user] == [user];
    assert ToSet([u]) == {u};
    assert Mark(q.roster.pool, [u]) == q.roster.pool[u := q.roster.pool[u].(state := AgentState.Inviting)];
  }

  // ---- accepting: the head goes to the tail ----

  lemma TailSlotLast(keys: seq<Key>, i: nat, j: nat)
    requires i <= j < |keys| && forall k :: 0 <= k < |keys| ==> !Gt(keys[k], keys[i])
    ensures TailSlotFrom(keys, i, j) == |keys| - 1
    decreases |keys| - j
  {
  }

  lemma HeadToTail(r: Roster, u: nat, a: AgentRec)
    requires Agrees(r) && r.order != [] && u == r.order[0]
    requires forall p :: 0 <= p < |r.order| ==> !Gt(r.pool[r.order[p]].OrderKey(), a.OrderKey())
    ensures SettleToTail(r, u, a) == r.(pool := r.pool[u := a], order := r.order[1..] + [u])
  {
    hide Covers;
    var pool := r.pool[u := a];
    IndexUnique(r.order, u, 0);
    TailSlotLast(Keys(r.order, pool), 0, 0);
    assert Moved(r.order, 0, |r.order| - 1) == r.order[1..] + [u];
  }

  function Turned(q: State, id: nat, c: ConvRec): State
    requires Agrees(q.roster) && q.roster.order != []
  {
    var u := q.roster.order[0];
    var a := q.roster.pool[u];
    q.(roster := q.roster.(order := q.roster.order[1..] + [u],
                           pool := q.roster.pool[u := a.(cvs := a.cvs + {id}, load := Inc16(a.load))]),
       convs := q.convs[id := c])
  }

  /** One round can always be played while capacity is left, and it serves the head of the order. */
  lemma RoundTurns(c: Config, user: User, capacity: uint16, m: nat, r: nat)
    requires Sane(c) && Level(c.state, capacity, m, r) && m < capacity && c.counter + 1 < UINT64_LIMIT
    ensures IsRound(c, user, Config(
              Turned(c.state, c.counter + 1, ConvRec(c.state.queueId, c.state.roster.order[0], user)), c.counter + 1))
  {
    hide Distinct, Listed, Covers, InLoadOrder, Inverse, Invite, Invitations, SettleToTail, Positions;
    var q, join := c.state, Join(user.id, user.address);
    LevelHead(q, capacity, m, r);
    assert LevelAt(q.roster, 0, capacity, m, r);
    var u := q.roster.order[0];
    var a := q.roster.pool[u];
    JoinInvitesHead(c, user, capacity, m, r);
    var c1 := Succ(c, join);
    var r1 := Answer(c1.state.roster, u, Available);
    assert r1 == q.roster by {
      assert q.roster.pool[u := a.(state := AgentState.Inviting)][u := a] == q.roster.pool;
    }
    var id := c.counter + 1;
    FreshForAgent(q, c.counter, u);
    HeadSettles(q, id, capacity, m, r);
    AddConversationAgrees(q.roster, u, id);
    ChosenNone(AddConversation(q.roster, u, id));
    assert [user][1..] == [];
  }

  lemma LevelHead(q: State, capacity: uint16, m: nat, r: nat)
    requires Level(q, capacity, m, r)
    ensures Agrees(q.roster) && q.roster.order != [] && q.roster.order[0] in q.roster.pool
  {
  }

  lemma FreshForAgent(q: State, counter: nat, u: nat)
    requires Invariant(q, counter) && u in q.roster.pool
    ensures counter + 1 !in q.convs && counter + 1 !in q.roster.pool[u].cvs
  {
  }

  lemma HeadSettles(q: State, id: nat, capacity: uint16, m: nat, r: nat)
    requires Level(q, capacity, m, r) && m < capacity && id !in q.roster.pool[q.roster.order[0]].cvs
    ensures var u := q.roster.order[0]; var a := q.roster.pool[u];
            AddConversation(q.roster, u, id) ==
              q.roster.(order := q.roster.order[1..] + [u],
                        pool := q.roster.pool[u := a.(cvs := a.cvs + {id}, load := Inc16(a.load))])
  {
    hide Covers, InLoadOrder, LoadsCount, Inverse, SettleToTail;
    var u := q.roster.order[0];
    var a := q.roster.pool[u];
    assert LevelAt(q.roster, 0, capacity, m, r);
    forall p | 0 <= p < |q.roster.order|
      ensures !Gt(q.roster.pool[q.roster.order[p]].OrderKey(), Key(Inc16(a.load), a.capacity))
    {
      assert LevelAt(q.roster, p, capacity, m, r);
    }
    HeadToTail(q.roster, u, a.(cvs := a.cvs + {id}, load := Inc16(a.load)));
  }

  /** A user joins, and the agent invited on its behalf accepts. */
  ghost predicate IsRound(c: Config, user: User, c': Config)
    requires Sane(c)
  {
    var join := Join(user.id, user.address);
    && Room(c.state, c.counter, join)
    && |After(c, join).reply.invites| == 1
    && Accepts(Succ(c, join), After(c, join).reply.invites[0], c')
  }

  ghost predicate Accepts(c: Config, id: Umid, c': Config)
    requires Sane(c)
  {
    && Room(c.state, c.counter, Accept(id))
    && After(c, Accept(id)).reply.ok
    && c' == Succ(c, Accept(id))
  }

  // ---- the order after a round, and after many ----

  lemma TurnedLevel(q: State, id: nat, c: ConvRec, capacity: uint16, m: nat, r: nat)
    requires Level(q, capacity, m, r) && m < capacity && Coherent(Turned(q, id, c))
    ensures var n := |q.roster.order|;
            if r + 1 < n then Level(Turned(q, id, c), capacity, m, r + 1)
            else Level(Turned(q, id, c), capacity, m + 1, 0)
  {
    hide Listed, Covers, InLoadOrder, LoadsCount, Inverse;
    var n, q' := |q.roster.order|, Turned(q, id, c);
    var m', r' := if r + 1 < n then m else m + 1, if r + 1 < n then r + 1 else 0;
    assert LevelAt(q.roster, 0, capacity, m, r);
    forall p | 0 <= p < n ensures LevelAt(q'.roster, p, capacity, m', r') {
      if p < n - 1 {
        assert LevelAt(q.roster, p + 1, capacity, m, r);
        assert q'.roster.order[p] == q.roster.order[p + 1] != q.roster.order[0];
      }
    }
  }

  ghost predicate Played(c: Config, users: seq<User>, c': Config)
    requires Sane(c)
    decreases |users|
  {
    if users == [] then c' == c
    else exists c1 :: IsRound(c, users[0], c1) && Sane(c1) && Played(c1, users[1..], c')
  }

  lemma RoundLevel(c: Config, user: User, c': Config, capacity: uint16, m: nat, r: nat)
    requires Sane(c) && Level(c.state, capacity, m, r) && m < capacity && IsRound(c, user, c')
    ensures c'.counter == c.counter + 1 && |c'.state.roster.order| == |c.state.roster.order|
    ensures if r + 1 < |c.state.roster.order| then Level(c'.state, capacity, m, r + 1)
            else Level(c'.state, capacity, m + 1, 0)
  {
    hide Level, Sound, Bounded, Issued, Step, Turned;
    LevelHead(c.state, capacity, m, r);
    var turned := RoundIsTurn(c, user, c', capacity, m, r);
    TurnedLevel(c.state, c.counter + 1, turned, capacity, m, r);
    TurnedLength(c.state, c.counter + 1, turned);
  }

  lemma TurnedLength(q: State, id: nat, c: ConvRec)
    requires Agrees(q.roster) && q.roster.order != []
    ensures |Turned(q, id, c).roster.order| == |q.roster.order|
  {
  }

  // However the round is played, it is the turn of the head of the order.
  lemma RoundIsTurn(c: Config, user: User, c': Config, capacity: uint16, m: nat, r: nat) returns (turned: ConvRec)
    requires Sane(c) && Level(c.state, capacity, m, r) && m < capacity && IsRound(c, user, c')
    ensures c.state.roster.order != [] && Sane(c')
    ensures c' == Config(Turned(c.state, c.counter + 1, turned), c.counter + 1)
  {
    hide Sound, Bounded, Issued, Step, Turned, LevelAt;
    turned := ConvRec(c.state.queueId, c.state.roster.order[0], user);
    LevelHead(c.state, capacity, m, r);
    RoundCounts(c, user, c', capacity, m, r);
    RoundTurns(c, user, capacity, m, r);
  }

  lemma RoundCounts(c: Config, user: User, c': Config, capacity: uint16, m: nat, r: nat)
    requires Sane(c) && Level(c.state, capacity, m, r) && m < capacity && IsRound(c, user, c')
    ensures c.counter + 1 < UINT64_LIMIT
  {
    hide Sound, Bounded, Step;
    LevelHead(c.state, capacity, m, r);
    JoinInvitesHead(c, user, capacity, m, r);
  }

  // The rounds behind m full turns of n agents and r more rounds.
  function Rounds(m: nat, r: nat, n: nat): nat {
    m * n + r
  }

  lemma NextRound(m: nat, r: nat, k: nat, n: nat, capacity: nat)
    requires k > 0 && r < n && Rounds(m, r, n) + k <= n * capacity
    ensures m < capacity
    ensures if r + 1 < n then Rounds(m, r + 1, n) == Rounds(m, r, n) + 1 else Rounds(m + 1, 0, n) == Rounds(m, r, n) + 1
  {
    assert m >= capacity ==> m * n >= capacity * n;
    assert (m + 1) * n == m * n + n;
  }

  /** The agents are served in turn: as many rounds later as were played, the last r' of the order
      have had m' + 1 turns and the others m'. */
  lemma {:induction false} RoundsLevel(c: Config, users: seq<User>, c': Config, capacity: uint16, m: nat, r: nat)
    returns (m': nat, r': nat)
    requires Sane(c) && Level(c.state, capacity, m, r)
    requires Rounds(m, r, |c.state.roster.order|) + |users| <= |c.state.roster.order| * capacity
    requires Played(c, users, c')
    ensures |c'.state.roster.order| == |c.state.roster.order|
    ensures Level(c'.state, capacity, m', r')
    ensures Rounds(m', r', |c.state.roster.order|) == Rounds(m, r, |c.state.roster.order|) + |users|
    decreases |users|
  {
    hide Sane, IsRound, Rounds, LevelAt, Sound;
    var n := |c.state.roster.order|;
    if users == [] {
      m', r' := m, r;
    } else {
      var c1 :| IsRound(c, users[0], c1) && Sane(c1) && Played(c1, users[1..], c');
      NextRound(m, r, |users|, n, capacity);
      RoundLevel(c, users[0], c1, capacity, m, r);
      if r + 1 < n {
        m', r' := RoundsLevel(c1, users[1..], c', capacity, m, r + 1);
      } else {
        m', r' := RoundsLevel(c1, users[1..], c', capacity, m + 1, 0);
      }
    }
  }

  /** As many rounds as the agents have capacity together can always be played, whoever joins. */
  lemma {:induction false} RoundsPlayable(c: Config, users: seq<User>, capacity: uint16, m: nat, r: nat)
    returns (c': Config)
    requires Sane(c) && Level(c.state, capacity, m, r) && c.counter + |users| < UINT64_LIMIT
    requires Rounds(m, r, |c.state.roster.order|) + |users| <= |c.state.roster.order| * capacity
    ensures Played(c, users, c')
    decreases |users|
  {
    hide Sane, IsRound, Rounds, LevelAt, Sound, Turned;
    if users == [] {
      c' := c;
    } else {
      var n := |c.state.roster.order|;
      NextRound(m, r, |users|, n, capacity);
      RoundTurns(c, users[0], capacity, m, r);
      LevelHead(c.state, capacity, m, r);
      var c1 := Config(Turned(c.state, c.counter + 1, ConvRec(c.state.queueId, c.state.roster.order[0], users[0])),
                       c.counter + 1);
      RoundSane(c, users[0], c1);
      RoundLevel(c, users[0], c1, capacity, m, r);
      if r + 1 < n {
        c' := RoundsPlayable(c1, users[1..], capacity, m, r + 1);
      } else {
        c' := RoundsPlayable(c1, users[1..], capacity, m + 1, 0);
      }
    }
  }

  lemma RoundSane(c: Config, user: User, c': Config)
    requires Sane(c) && IsRound(c, user, c')
    ensures Sane(c')
  {
    hide Sound, Bounded, Issued, Step;
  }

  /** From idle agents of equal capacity, after at most as many rounds as they have capacity
      together, any two loads differ by at most one. */
  lemma LoadsStayBalanced(c: Config, users: seq<User>, c': Config, capacity: uint16, u: nat, v: nat)
    requires Sane(c) && Level(c.state, capacity, 0, 0)
    requires |users| <= |c.state.roster.order| * capacity
    requires Played(c, users, c') && u in c'.state.roster.pool && v in c'.state.roster.pool
    ensures c'.state.roster.pool[u].load - c'.state.roster.pool[v].load <= 1
  {
    hide Played, Sane, Distinct, Listed, InLoadOrder, LoadsCount, Inverse;
    var m, r := RoundsLevel(c, users, c', capacity, 0, 0);
    assert LevelAt(c'.state.roster, IndexOf(c'.state.roster.order, u), capacity, m, r);
    assert LevelAt(c'.state.roster, IndexOf(c'.state.roster.order, v), capacity, m, r);
  }
}
