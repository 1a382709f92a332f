/** The example states are no mere possibilities: each is reached from the empty queue by the run given
    here. No run takes a conversation from an agent, so the source takes these steps literally too. One
    more example shows a user waiting beside an idle agent because of a dead invitation. */
module Reached {
  import opened Types
  import opened LoadOrder
  import opened Rosters
  import opened Dispatch
  import opened Histories
  import opened Inviting
  import opened WorkConservation
  import opened Attendance
  import opened Runs
  import opened LoadBalance
  import opened Registering
  import AsWritten

  const ANA := Umid(11, 1)
  const BEN := Umid(12, 1)
  const EVE := User(Umid(20, 1), 0)
  const FAY := User(Umid(21, 1), 0)

  // ---- steps in closed form ----

  lemma InvitesNobody(q: State)
    requires Agrees(q.roster) && (|q.users| <= |q.roster.inviting| || NoneEligible(q.roster))
    ensures DoInvite(q) == q && Invitations(q) == []
  {
    hide Distinct, Listed, Covers, Eligibles, NoneEligible;
    var r := q.roster;
    NoneEligibleNone(r);
    assert Chosen(r, |q.users|) == [];
    assert ToSet([]) == {};
    assert Mark(r.pool, []) == r.pool;
  }

  /** A newcomer that belongs ahead of the first agent becomes the first. */
  lemma InsertsFirst(r: Roster, a: AgentRec)
    requires Agrees(r) && a.id.uin !in r.pool
    requires r.order != [] ==> Gt(r.pool[r.order[0]].OrderKey(), a.OrderKey())
    ensures Insert(r, a) == r.(order := [a.id.uin] + r.order, pool := r.pool[a.id.uin := a])
  {
    hide Distinct, Covers;
    var pool, order := r.pool[a.id.uin := a], [a.id.uin] + r.order;
    assert Listed(order, pool);
    assert r.order != [] ==> order[1] == r.order[0];
    MovedNowhere(order, 0);
  }

  lemma RegistersUninvited(c: Config, id: Umid, capacity: uint16)
    requires Sane(c) && id.uin !in c.state.roster.pool && |c.state.users| <= |c.state.roster.inviting|
    requires var order := c.state.roster.order;
             order != [] ==> Gt(c.state.roster.pool[order[0]].OrderKey(), Key(0, capacity))
    ensures var q, a := c.state, Idle(id, "", capacity);
            Reaches(c, [Presence(id, capacity, Some(""))],
                    Config(q.(roster := q.roster.(order := [id.uin] + q.roster.order,
                                                  pool := q.roster.pool[id.uin := a])), c.counter))
  {
    hide Distinct, Listed, Covers, InLoadOrder, LoadsCount, Inverse, Invite, Invitations, Insert, Reaches;
    var q, a := c.state, Idle(id, "", capacity);
    InsertKeeps(q.roster, a);
    InsertsFirst(q.roster, a);
    InvitesNobody(q.(roster := Insert(q.roster, a)));
    ReachesNext(c, Presence(id, capacity, Some("")));
  }

  /** One round, as a run of two events. */
  lemma RoundRun(c: Config, user: User, capacity: uint16, m: nat, r: nat)
    requires Sane(c) && Level(c.state, capacity, m, r) && m < capacity && c.counter + 1 < UINT64_LIMIT
    ensures var u, id := c.state.roster.order[0], c.counter + 1;
            var c' := Config(Turned(c.state, id, ConvRec(c.state.queueId, u, user)), id);
            && Sane(c')
            && Reaches(c, [Join(user.id, user.address), Accept(c.state.roster.pool[u].id)], c')
  {
    hide Sound, Bounded, Issued, Level, Turned, Step, Reaches;
    LevelHead(c.state, capacity, m, r);
    RoundTurns(c, user, capacity, m, r);
    JoinInvitesHead(c, user, capacity, m, r);
    var join, accept := Join(user.id, user.address), Accept(c.state.roster.pool[c.state.roster.order[0]].id);
    var c1 := Succ(c, join);
    ReachesNext(c, join);
    ReachesNext(c1, accept);
    ReachesThen(c, [join], c1, [accept], Succ(c1, accept));
    assert [join] + [accept] == [join, accept];
  }

  // ---- an agent at its limit ----

  const FULL_HOUSE_RUN: seq<Event> :=
    [Presence(ANA, 1, Some("")), Join(EVE.id, 0), Accept(ANA), Join(FAY.id, 0)]

  // The queue with one agent serving one user.
  function OneServes(capacity: uint16): State {
    State(7, [], Roster([11], map[11 := AgentRec(ANA, "", Available, capacity, 1, {1})], {}),
          map[1 := ConvRec(7, 11, EVE)])
  }

  lemma OneTurns(capacity: uint16)
    requires Agrees(Registered(7, [ANA], "", capacity).roster)
    ensures Registered(7, [ANA], "", capacity).roster.order == [11]
    ensures Turned(Registered(7, [ANA], "", capacity), 1, ConvRec(7, 11, EVE)) == OneServes(capacity)
  {
    hide Agrees;
    var q := Registered(7, [ANA], "", capacity);
    assert q.roster.order == [11];
    assert [ANA][0] == ANA;
    assert q.roster.pool == map[11 := Idle(ANA, "", capacity)];
    assert [11][1..] + [11] == [11];
    assert {} + {1} == {1};
  }

  lemma OneServesReached(capacity: uint16)
    requires capacity > 0
    ensures Reaches(Start(7, 0), [Presence(ANA, capacity, Some("")), Join(EVE.id, 0), Accept(ANA)],
                    Config(OneServes(capacity), 1))
    ensures Sane(Config(OneServes(capacity), 1))
  {
    hide Sound, Bounded, Issued, Reaches, Level;
    RegistrationsReach(7, 0, [ANA], "", capacity);
    RegisteredLevel(7, 0, [ANA], "", capacity);
    var c := Config(Registered(7, [ANA], "", capacity), 0);
    assert c.state.roster.order == [11];
    RoundRun(c, EVE, capacity, 0, 0);
    OneTurns(capacity);
    var first, rest := Registrations([ANA], "", capacity), [Join(EVE.id, 0), Accept(ANA)];
    ReachesThen(Start(7, 0), first, c, rest, Config(OneServes(capacity), 1));
    assert first + rest == [Presence(ANA, capacity, Some("")), Join(EVE.id, 0), Accept(ANA)];
  }

  /** The state of `WorkConservation.EndMayLapse`. */
  lemma FullHouseReached()
    ensures Reaches(Start(7, 0), FULL_HOUSE_RUN, Config(FULL_HOUSE, 1))
  {
    hide Sane, Reaches, Invite, Invitations;
    OneServesReached(1);
    var c, join := Config(OneServes(1), 1), Join(FAY.id, 0);
    assert OneServes(1).users + [FAY] == [FAY];
    InvitesNobody(FULL_HOUSE) by { EndMayLapse(); }
    ReachesNext(c, join);
    assert FULL_HOUSE_RUN[..3] == [Presence(ANA, 1, Some("")), Join(EVE.id, 0), Accept(ANA)];
    ReachesThen(Start(7, 0), FULL_HOUSE_RUN[..3], c, [join], Config(FULL_HOUSE, 1));
    assert FULL_HOUSE_RUN[..3] + [join] == FULL_HOUSE_RUN;
  }

  // ---- one agent busy, the other not ----

  const ONE_BUSY_RUN: seq<Event> :=
    [Presence(ANA, 2, Some("")), Join(EVE.id, 0), Accept(ANA), Presence(BEN, 2, Some(""))]

  /** The state of `AsWritten.RedirectMayTakeOver`. */
  lemma OneBusyReached()
    ensures Reaches(Start(7, 0), ONE_BUSY_RUN, Config(AsWritten.ONE_BUSY, 1))
  {
    hide Sane, Reaches;
    OneServesReached(2);
    var c, ev := Config(OneServes(2), 1), Presence(BEN, 2, Some(""));
    RegistersUninvited(c, BEN, 2);
    assert [12] + [11] == [12, 11];
    assert ONE_BUSY_RUN[..3] == [Presence(ANA, 2, Some("")), Join(EVE.id, 0), Accept(ANA)];
    ReachesThen(Start(7, 0), ONE_BUSY_RUN[..3], c, [ev], Config(AsWritten.ONE_BUSY, 1));
    assert ONE_BUSY_RUN[..3] + [ev] == ONE_BUSY_RUN;
  }

  // ---- both agents busy ----

  const TWO_BUSY_RUN: seq<Event> :=
    [Presence(ANA, 2, Some("")), Presence(BEN, 2, Some("")), Join(EVE.id, 0), Accept(ANA), Join(FAY.id, 0), Accept(BEN)]

  const BEN_NEXT := State(
    7, [],
    Roster([12, 11], map[11 := AgentRec(ANA, "", Available, 2, 1, {1}), 12 := Idle(BEN, "", 2)], {}),
    map[1 := ConvRec(7, 11, EVE)])

  lemma AnaTurns()
    requires Agrees(Registered(7, [ANA, BEN], "", 2).roster)
    ensures Registered(7, [ANA, BEN], "", 2).roster.order == [11, 12]
    ensures Registered(7, [ANA, BEN], "", 2).roster.pool[11].id == ANA
    ensures Turned(Registered(7, [ANA, BEN], "", 2), 1, ConvRec(7, 11, EVE)) == BEN_NEXT
  {
    hide Agrees;
    var q := Registered(7, [ANA, BEN], "", 2);
    assert q.roster.order == [11, 12];
    assert [ANA, BEN][0] == ANA && [ANA, BEN][1] == BEN;
    assert q.roster.pool == map[11 := Idle(ANA, "", 2), 12 := Idle(BEN, "", 2)];
    assert [11, 12][1..] + [11] == [12, 11];
    assert {} + {1} == {1};
  }

  lemma BenTurns()
    requires Agrees(BEN_NEXT.roster)
    ensures Turned(BEN_NEXT, 2, ConvRec(7, 12, FAY)) == AsWritten.TWO_BUSY
  {
    hide Agrees;
    assert [12, 11][1..] + [12] == [11, 12];
    assert {} + {2} == {2};
  }

  lemma BenNextLevel()
    requires Coherent(BEN_NEXT)
    ensures Level(BEN_NEXT, 2, 0, 1)
  {
    hide Wf, LoadsCount, Inverse;
    forall p | 0 <= p < 2 ensures LevelAt(BEN_NEXT.roster, p, 2, 0, 1) {
      assert p == 0 || p == 1;
    }
  }

  lemma BenNextReached()
    ensures Reaches(Start(7, 0), TWO_BUSY_RUN[..4], Config(BEN_NEXT, 1)) && Sane(Config(BEN_NEXT, 1))
  {
    hide Sound, Bounded, Issued, Reaches, Level, Turned, IdlePool;
    var ids := [ANA, BEN];
    RegistrationsReach(7, 0, ids, "", 2);
    RegisteredLevel(7, 0, ids, "", 2);
    AnaTurns();
    var c := Config(Registered(7, ids, "", 2), 0);
    RoundRun(c, EVE, 2, 0, 0);
    var first, round := Registrations(ids, "", 2), [Join(EVE.id, 0), Accept(ANA)];
    ReachesThen(Start(7, 0), first, c, round, Config(BEN_NEXT, 1));
    assert first + round == TWO_BUSY_RUN[..4];
  }

  /** The state of `AsWritten.EndMayHang`. */
  lemma TwoBusyReached()
    ensures Reaches(Start(7, 0), TWO_BUSY_RUN, Config(AsWritten.TWO_BUSY, 2))
  {
    hide Sound, Bounded, Issued, Reaches, Level, Turned;
    BenNextReached();
    BenNextLevel();
    BenTurns();
    var c := Config(BEN_NEXT, 1);
    RoundRun(c, FAY, 2, 0, 1);
    var round := [Join(FAY.id, 0), Accept(BEN)];
    ReachesThen(Start(7, 0), TWO_BUSY_RUN[..4], c, round, Config(AsWritten.TWO_BUSY, 2));
    assert TWO_BUSY_RUN[..4] + round == TWO_BUSY_RUN;
  }

  // ---- a dead invitation ----

  // Ana registers and is invited for Fay, but leaves; Ben registers.
  const STRANDED_RUN: seq<Event> :=
    [Presence(ANA, 1, Some("")), Join(FAY.id, 0), Absence(ANA), Presence(BEN, 1, Some(""))]

  const STRANDED := State(7, [FAY], Roster([12], map[12 := Idle(BEN, "", 1)], {11}), map[])

  const ANA_INVITED := State(
    7, [FAY], Roster([11], map[11 := Idle(ANA, "", 1).(state := AgentState.Inviting)], {11}), map[])

  const ANA_GONE := State(7, [FAY], Roster([], map[], {11}), map[])

  lemma AnaIsInvited()
    requires Sane(Config(Registered(7, [ANA], "", 1), 0)) && Level(Registered(7, [ANA], "", 1), 1, 0, 0)
    ensures Succ(Config(Registered(7, [ANA], "", 1), 0), Join(FAY.id, 0)) == Config(ANA_INVITED, 0)
  {
    hide Sound, Bounded, Issued, Level, Step;
    var c := Config(Registered(7, [ANA], "", 1), 0);
    OneTurns(1);
    JoinInvitesHead(c, FAY, 1, 0, 0);
    assert c.state.roster.pool == map[11 := Idle(ANA, "", 1)] by { assert [ANA][0] == ANA; }
  }

  lemma AnaInvitedReached()
    ensures Reaches(Start(7, 0), STRANDED_RUN[..2], Config(ANA_INVITED, 0)) && Sane(Config(ANA_INVITED, 0))
  {
    hide Sound, Bounded, Issued, Reaches, Level, Step, IdlePool;
    RegistrationsReach(7, 0, [ANA], "", 1);
    RegisteredLevel(7, 0, [ANA], "", 1);
    AnaIsInvited();
    var c, join := Config(Registered(7, [ANA], "", 1), 0), Join(FAY.id, 0);
    ReachesNext(c, join);
    ReachesThen(Start(7, 0), Registrations([ANA], "", 1), c, [join], Config(ANA_INVITED, 0));
    assert Registrations([ANA], "", 1) + [join] == STRANDED_RUN[..2];
  }

  lemma AnaLeaves()
    requires Sane(Config(ANA_INVITED, 0))
    ensures Succ(Config(ANA_INVITED, 0), Absence(ANA)) == Config(ANA_GONE, 0)
  {
    hide Sound, Bounded, Issued;
    assert Without([11], IndexOf([11], 11)) == [];
    assert ANA_INVITED.roster.pool - {11} == map[];
  }

  lemma BenRegisters()
    requires Sane(Config(ANA_GONE, 0))
    ensures Reaches(Config(ANA_GONE, 0), [Presence(BEN, 1, Some(""))], Config(STRANDED, 0))
  {
    hide Sane, Reaches;
    RegistersUninvited(Config(ANA_GONE, 0), BEN, 1);
    assert [12] + ANA_GONE.roster.order == [12];
    assert ANA_GONE.roster.pool[12 := Idle(BEN, "", 1)] == map[12 := Idle(BEN, "", 1)];
  }

  lemma {:induction false} NeverLapses(c: Config, h: History, evs: seq<Event>)
    requires Sane(c) && Roomy(c, evs) && !h.lapsed && forall k :: 0 <= k < |evs| ==> !evs[k].End?
    ensures !Record(c, h, evs).lapsed
    decreases |evs|
  {
    hide Sound, Bounded, Issued, Step, Tell, Doubled, LeftoverAfter, RedirectedAfter, Invites;
    if evs != [] {
      NeverLapses(Succ(c, evs[0]), Track(c, h, evs[0], After(c, evs[0])), evs[1..]);
    }
  }

  /** Fay waits, Ben could be invited, nobody is being invited, and no conversation has ever ended. */
  lemma StrandedReached()
    ensures Reaches(Start(7, 0), STRANDED_RUN, Config(STRANDED, 0))
    ensures !Record(Start(7, 0), NO_HISTORY, STRANDED_RUN).lapsed
    ensures Busy(STRANDED) && !Attended(STRANDED)
  {
    hide Sane, Reaches, Record;
    AnaInvitedReached();
    AnaLeaves();
    BenRegisters();
    var c, absence, presence := Config(ANA_INVITED, 0), Absence(ANA), Presence(BEN, 1, Some(""));
    ReachesNext(c, absence);
    ReachesThen(Start(7, 0), STRANDED_RUN[..2], c, [absence], Config(ANA_GONE, 0));
    ReachesThen(Start(7, 0), STRANDED_RUN[..2] + [absence], Config(ANA_GONE, 0), [presence], Config(STRANDED, 0));
    assert STRANDED_RUN[..2] + [absence] + [presence] == STRANDED_RUN;
    IsStranded();
    EndsNothing();
  }

  lemma IsStranded()
    ensures Busy(STRANDED) && !Attended(STRANDED)
  {
    assert InvitedAgents(STRANDED.roster.pool) == {};
    assert Eligible(STRANDED.roster.pool[12], {11});
  }

  lemma EndsNothing()
    requires Reaches(Start(7, 0), STRANDED_RUN, Config(STRANDED, 0))
    ensures !Record(Start(7, 0), NO_HISTORY, STRANDED_RUN).lapsed
  {
    hide Sane, Roomy, Final, Record;
    NeverLapses(Start(7, 0), NO_HISTORY, STRANDED_RUN);
  }
}
