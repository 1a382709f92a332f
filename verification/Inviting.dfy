/** Who has an invitation out. The server keeps a set of invited accounts beside each agent's
    own state; erasing an agent forgets to take its account out of the set. */
module Inviting {
  import opened Types
  import opened LoadOrder
  import opened Rosters
  import opened Dispatch
  import opened Invariants
  import opened Histories

  function InvitedAgents(pool: map<nat, AgentRec>): set<nat> {
    set u | u in pool && pool[u].state == AgentState.Inviting
  }

  /** The inviting set is the disjoint union of the agents being invited and the accounts erased
      with an invitation out; an agent that refused has no invitation out. */
  ghost predicate Split(pool: map<nat, AgentRec>, inviting: set<nat>, leftover: set<nat>) {
    && inviting == InvitedAgents(pool) + leftover
    && InvitedAgents(pool) !! leftover
    && forall u :: u in pool && pool[u].state == Refused ==> u !in inviting
  }

  /** Outstanding work never exceeds an agent's capacity by more than what others handed to it. */
  ghost predicate WithinBudget(pool: map<nat, AgentRec>, inviting: set<nat>, redirected: map<nat, nat>) {
    forall u :: u in pool ==>
      pool[u].load + (if u in inviting then 1 else 0) <= pool[u].capacity + Count(redirected, u)
  }

  ghost predicate Accounted(r: Roster, h: History) {
    && Split(r.pool, r.inviting, h.leftover)
    && (h.capable ==> WithinBudget(r.pool, r.inviting, h.redirected))
  }

  // ---- the parts ----

  lemma MarkSplit(pool: map<nat, AgentRec>, inviting: set<nat>, leftover: set<nat>, chosen: seq<nat>)
    requires Split(pool, inviting, leftover)
    requires forall u :: u in chosen ==> u in pool && u !in inviting
    ensures Split(Mark(pool, chosen), inviting + ToSet(chosen), leftover)
  {
    assert InvitedAgents(Mark(pool, chosen)) == InvitedAgents(pool) + ToSet(chosen);
  }

  lemma MarkBudget(pool: map<nat, AgentRec>, inviting: set<nat>, redirected: map<nat, nat>, chosen: seq<nat>)
    requires WithinBudget(pool, inviting, redirected)
    requires forall u :: u in chosen ==> u in pool && pool[u].load < pool[u].capacity && u !in inviting
    ensures WithinBudget(Mark(pool, chosen), inviting + ToSet(chosen), redirected)
  {
  }

  lemma InviteAccounted(r: Roster, waiting: nat, h: History)
    requires Agrees(r) && Accounted(r, h)
    ensures Accounted(Invite(r, waiting), h)
  {
    hide Distinct, Listed, Covers, Eligibles, Split, WithinBudget, Mark, ToSet;
    var chosen := Chosen(r, waiting);
    assert forall u :: u in chosen ==> r.pool[u].id.uin == u;
    MarkSplit(r.pool, r.inviting, h.leftover, chosen);
    if h.capable {
      MarkBudget(r.pool, r.inviting, h.redirected, chosen);
    }
  }

  lemma InsertSplit(pool: map<nat, AgentRec>, inviting: set<nat>, leftover: set<nat>, u: nat, a: AgentRec)
    requires Split(pool, inviting, leftover) && u !in pool && a.state == Available
    ensures Split(pool[u := a], inviting, leftover)
  {
    assert InvitedAgents(pool[u := a]) == InvitedAgents(pool);
  }

  lemma InsertBudget(pool: map<nat, AgentRec>, inviting: set<nat>, redirected: map<nat, nat>, u: nat, a: AgentRec)
    requires WithinBudget(pool, inviting, redirected) && u !in pool && a.load == 0 && a.capacity > 0
    ensures WithinBudget(pool[u := a], inviting, redirected[u := 0])
  {
  }

  lemma InsertAccounted(r: Roster, a: AgentRec, h: History, h': History)
    requires Agrees(r) && Accounted(r, h) && a.id.uin !in r.pool && a.state == Available && a.load == 0
    requires h'.leftover == h.leftover && h'.redirected == h.redirected[a.id.uin := 0]
    requires h'.capable == (h.capable && a.capacity > 0)
    ensures Accounted(Insert(r, a), h')
  {
    hide Split, WithinBudget, Agrees, Moved, Keys, TailSlot;
    InsertSplit(r.pool, r.inviting, h.leftover, a.id.uin, a);
    if h'.capable {
      InsertBudget(r.pool, r.inviting, h.redirected, a.id.uin, a);
    }
  }

  lemma EraseAccounted(r: Roster, u: nat, h: History, h': History)
    requires Agrees(r) && Accounted(r, h) && u in r.pool
    requires h'.leftover == if u in r.inviting then h.leftover + {u} else h.leftover
    requires h'.redirected == h.redirected && h'.capable == h.capable
    ensures Accounted(Erase(r, u), h')
  {
    assert InvitedAgents(r.pool - {u}) == InvitedAgents(r.pool) - {u};
  }

  lemma AnswerAccounted(r: Roster, u: nat, state: AgentState, h: History, h': History)
    requires Accounted(r, h) && u in r.pool && state != AgentState.Inviting
    requires h'.leftover == h.leftover - {u}
    requires h'.redirected == h.redirected && h'.capable == h.capable
    ensures Accounted(Answer(r, u, state), h')
  {
    assert InvitedAgents(r.pool[u := r.pool[u].(state := state)]) == InvitedAgents(r.pool) - {u};
  }

  // Only loads and conversations change, and no load beyond its budget.
  lemma LoadsAccounted(r: Roster, r': Roster, h: History, h': History)
    requires Split(r.pool, r.inviting, h.leftover) && h'.leftover == h.leftover
    requires r'.pool.Keys == r.pool.Keys && r'.inviting == r.inviting
    requires forall u :: u in r.pool ==> r'.pool[u].state == r.pool[u].state
    requires h'.capable ==> WithinBudget(r'.pool, r'.inviting, h'.redirected)
    ensures Accounted(r', h')
  {
    assert InvitedAgents(r'.pool) == InvitedAgents(r.pool);
  }

  lemma AddAccounted(r: Roster, u: nat, id: nat, h: History)
    requires Agrees(r) && Accounted(r, h) && u in r.pool && u !in r.inviting && r.pool[u].load < 0xFFFF
    requires h.capable ==> r.pool[u].load < r.pool[u].capacity + Count(h.redirected, u)
    ensures Accounted(AddConversation(r, u, id), h)
  {
    hide Distinct, Listed, Covers, IndexOf, TailSlot, HeadSlot, Moved;
    LoadsAccounted(r, AddConversation(r, u, id), h, h);
  }

  lemma RemoveAccounted(r: Roster, u: nat, id: nat, h: History)
    requires Agrees(r) && Accounted(r, h) && u in r.pool && r.pool[u].load > 0
    ensures Accounted(RemoveConversation(r, u, id), h)
  {
    hide Distinct, Listed, Covers, IndexOf, TailSlot, HeadSlot, Moved;
    LoadsAccounted(r, RemoveConversation(r, u, id), h, h);
  }

  // One unit of load moves from one agent to another (or stays where it is).
  ghost predicate Shifted(pool: map<nat, AgentRec>, pool': map<nat, AgentRec>, from: nat, to: nat)
    requires from in pool && to in pool
  {
    && pool'.Keys == pool.Keys
    && (forall u :: u in pool ==>
          && pool'[u].state == pool[u].state && pool'[u].capacity == pool[u].capacity
          && pool'[u].load == pool[u].load - (if u == from then 1 else 0) + (if u == to then 1 else 0))
  }

  lemma HandOverShifts(q: State, id: nat, to: nat)
    requires Coherent(q) && id in q.convs && to in q.roster.pool
    requires to != q.convs[id].agent ==> q.roster.pool[to].load < 0xFFFF
    ensures var r, r' := q.roster, HandOver(q, id, q.convs[id].agent, to).roster;
            Shifted(r.pool, r'.pool, q.convs[id].agent, to) && r'.inviting == r.inviting
  {
    hide Distinct, Listed, Covers, InLoadOrder, LoadsCount, RemoveConversation, AddConversation;
    var from := q.convs[id].agent;
    DropInverse(q.roster.pool, q.convs, id);
    RemovesOne(q.roster, from, id);
    RemoveConversationAgrees(q.roster, from, id);
    AddsOne(RemoveConversation(q.roster, from, id), to, id);
  }

  lemma HandOverAccounted(q: State, id: nat, to: nat, h: History, h': History)
    requires Coherent(q) && Accounted(q.roster, h)
    requires id in q.convs && to in q.roster.pool
    requires to != q.convs[id].agent ==> q.roster.pool[to].load < 0xFFFF
    requires h'.leftover == h.leftover && h'.capable == h.capable
    requires h'.redirected == h.redirected[to := Count(h.redirected, to) + 1]
    ensures Accounted(HandOver(q, id, q.convs[id].agent, to).roster, h')
  {
    hide Distinct, Listed, Covers, InLoadOrder, LoadsCount, HandOver;
    HandOverShifts(q, id, to);
    LoadsAccounted(q.roster, HandOver(q, id, q.convs[id].agent, to).roster, h, h');
  }

  // ---- the operations ----

  lemma PresenceAccounted(c: Config, h: History, ev: Event)
    requires Sane(c) && Accounted(c.state.roster, h) && ev.Presence?
    ensures Accounted(After(c, ev).state.roster, Track(c, h, ev, After(c, ev)))
  {
    hide Distinct, Listed, Covers, InLoadOrder, LoadsCount, Inverse, Insert, Invite, Invitations, Split, WithinBudget;
    var q, h' := c.state, Track(c, h, ev, After(c, ev));
    if ev.verified.Some? && ev.id.uin !in q.roster.pool {
      var a := AgentRec(ev.id, ev.verified.value, Available, ev.capacity, 0, {});
      InsertKeeps(q.roster, a);
      InsertAccounted(q.roster, a, h, h');
      InviteAccounted(Insert(q.roster, a), |q.users|, h');
    }
  }

  lemma AbsenceAccounted(c: Config, h: History, ev: Event)
    requires Sane(c) && Accounted(c.state.roster, h) && ev.Absence?
    ensures Accounted(After(c, ev).state.roster, Track(c, h, ev, After(c, ev)))
  {
    hide Distinct, Listed, Covers, InLoadOrder, LoadsCount, Inverse, Erase, Split, WithinBudget;
    if Erases(c.state, ev, ev.id.uin) {
      EraseAccounted(c.state.roster, ev.id.uin, h, Track(c, h, ev, After(c, ev)));
    }
  }

  lemma OfflineAccounted(c: Config, h: History, ev: Event)
    requires Sane(c) && Accounted(c.state.roster, h) && ev.Offline?
    ensures Accounted(After(c, ev).state.roster, Track(c, h, ev, After(c, ev)))
  {
    hide Distinct, Listed, Covers, InLoadOrder, LoadsCount, Inverse, Erase, Split, WithinBudget, Drain, Invite, Invitations;
    var q, h' := c.state, Track(c, h, ev, After(c, ev));
    if Find(q.roster, ev.id) {
      OfflineDrains(q, c.counter, ev.id);
      EraseAccounted(q.roster, ev.id.uin, h, h');
      InviteAccounted(Erase(q.roster, ev.id.uin), |WithoutAgent(q, ev.id.uin).users|, h');
    }
  }

  lemma AcceptAccounted(c: Config, h: History, ev: Event)
    requires Sane(c) && Accounted(c.state.roster, h) && ev.Accept? && Room(c.state, c.counter, ev)
    ensures Accounted(After(c, ev).state.roster, Track(c, h, ev, After(c, ev)))
  {
    hide Distinct, Listed, Covers, InLoadOrder, LoadsCount, Inverse, Split, AddConversation, Invite, Invitations;
    var q, h', u := c.state, Track(c, h, ev, After(c, ev)), ev.id.uin;
    if Answers(q, ev, u) {
      var r1 := Answer(q.roster, u, Available);
      AnswerAccounted(q.roster, u, Available, h, h');
      AnswerKeeps(q.roster, u, Available);
      if q.users != [] {
        AddAccounted(r1, u, c.counter + 1, h');
        AddConversationAgrees(r1, u, c.counter + 1);
        InviteAccounted(AddConversation(r1, u, c.counter + 1), |q.users[1..]|, h');
      }
    }
  }

  lemma RefuseAccounted(c: Config, h: History, ev: Event)
    requires Sane(c) && Accounted(c.state.roster, h) && ev.Refuse?
    ensures Accounted(After(c, ev).state.roster, Track(c, h, ev, After(c, ev)))
  {
    hide Distinct, Listed, Covers, InLoadOrder, LoadsCount, Inverse, Split, WithinBudget, Invite, Invitations;
    var q, h', u := c.state, Track(c, h, ev, After(c, ev)), ev.id.uin;
    if Answers(q, ev, u) {
      AnswerAccounted(q.roster, u, Refused, h, h');
      AnswerKeeps(q.roster, u, Refused);
      InviteAccounted(Answer(q.roster, u, Refused), |q.users|, h');
    } else {
      InviteAccounted(q.roster, |q.users|, h');
    }
  }

  lemma RedirectAccounted(c: Config, h: History, ev: Event)
    requires Sane(c) && Accounted(c.state.roster, h) && ev.Redirect? && Room(c.state, c.counter, ev)
    ensures Accounted(After(c, ev).state.roster, Track(c, h, ev, After(c, ev)))
  {
    hide Distinct, Listed, Covers, InLoadOrder, LoadsCount, Split, WithinBudget, HandOver, Invite, Invitations;
    var q, h' := c.state, Track(c, h, ev, After(c, ev));
    if After(c, ev).reply.ok {
      HandOverAccounted(q, ev.cvsId, ev.to.uin, h, h');
      var q1 := HandOver(q, ev.cvsId, ev.from.uin, ev.to.uin);
      InviteAccounted(q1.roster, |q1.users|, h');
    }
  }

  lemma JoinAccounted(c: Config, h: History, ev: Event)
    requires Sane(c) && Accounted(c.state.roster, h) && ev.Join?
    ensures Accounted(After(c, ev).state.roster, Track(c, h, ev, After(c, ev)))
  {
    hide Distinct, Listed, Covers, InLoadOrder, LoadsCount, Inverse, Split, WithinBudget, Invite, Invitations;
    InviteAccounted(c.state.roster, |c.state.users| + 1, h);
  }

  lemma EndAccounted(c: Config, h: History, ev: Event)
    requires Sane(c) && Accounted(c.state.roster, h) && ev.End?
    ensures Accounted(After(c, ev).state.roster, Track(c, h, ev, After(c, ev)))
  {
    hide Distinct, Listed, Covers, InLoadOrder, Split, WithinBudget, RemoveConversation;
    var q := c.state;
    if ev.cvsId in q.convs {
      DropInverse(q.roster.pool, q.convs, ev.cvsId);
      RemoveAccounted(q.roster, q.convs[ev.cvsId].agent, ev.cvsId, h);
    }
  }

  /** Every operation keeps the account of invitations, exactly as the code forgets them. */
  lemma StepAccounted(c: Config, h: History, ev: Event)
    requires Sane(c) && Room(c.state, c.counter, ev) && Accounted(c.state.roster, h)
    ensures Accounted(After(c, ev).state.roster, Track(c, h, ev, After(c, ev)))
  {
    hide Wf, LoadsCount, Inverse, Split, WithinBudget, Invite, Invitations;
    match ev
    case Presence(_, _, _) => PresenceAccounted(c, h, ev);
    case Absence(_) => AbsenceAccounted(c, h, ev);
    case Offline(_) => OfflineAccounted(c, h, ev);
    case Accept(_) => AcceptAccounted(c, h, ev);
    case Refuse(_) => RefuseAccounted(c, h, ev);
    case Redirect(_, _, _) => RedirectAccounted(c, h, ev);
    case Join(_, _) => JoinAccounted(c, h, ev);
    case Depart(_) =>
    case End(_) => EndAccounted(c, h, ev);
    case Elsewhere =>
  }
}
