/** The inviting set is as large as the line of waiting users, or no agent could be invited: every
    operation keeps this but `conversation_end`. An account erased with an invitation out still
    counts here, as it does in the server; `Attendance` leaves such accounts out of the count. */
module WorkConservation {
  import opened Types
  import opened LoadOrder
  import opened Rosters
  import opened Dispatch
  import opened Invariants
  import opened Histories

  ghost predicate NoneEligible(r: Roster) {
    forall u :: u in r.pool ==> !Eligible(r.pool[u], r.inviting)
  }

  // What the loop of `do_invite` runs for, dead invitations counted.
  ghost predicate Busy(q: State) {
    |q.roster.inviting| >= |q.users| || NoneEligible(q.roster)
  }

  lemma MarkedNotEligible(r: Roster, chosen: seq<nat>)
    requires Agrees(r)
    requires forall u :: u in r.pool && Eligible(r.pool[u], r.inviting) ==> u in chosen
    ensures NoneEligible(r.(pool := Mark(r.pool, chosen), inviting := r.inviting + ToSet(chosen)))
  {
  }

  /** From any state, a call that reaches `do_invite` leaves the queue busy. */
  lemma DoInviteBusy(q: State)
    requires Agrees(q.roster)
    ensures Busy(DoInvite(q))
  {
    hide Distinct, Listed, Eligibles;
    var r := q.roster;
    var el := Eligibles(r.order, r.pool, r.inviting);
    ChosenCount(r, |q.users|);
    if |el| <= Shortfall(|q.users|, |r.inviting|) {
      assert Chosen(r, |q.users|) == el;
      MarkedNotEligible(r, el);
    }
  }

  lemma EraseBusy(q: State, u: nat)
    requires Agrees(q.roster) && u in q.roster.pool && Busy(q)
    ensures Busy(q.(roster := Erase(q.roster, u)))
  {
  }

  lemma AcceptBusy(c: Config, ev: Event)
    requires Sane(c) && Room(c.state, c.counter, ev) && ev.Accept?
    requires Busy(c.state) || Invites(c.state, c.counter, ev)
    ensures Busy(After(c, ev).state)
  {
    hide Distinct, Listed, Covers, InLoadOrder, LoadsCount, Inverse, AddConversation, Invite, Invitations, NoneEligible;
    var q, u, id := c.state, ev.id.uin, c.counter + 1;
    if Find(q.roster, ev.id) && u in q.roster.inviting && q.users != [] {
      var r1 := Answer(q.roster, u, Available);
      AnswerKeeps(q.roster, u, Available);
      AddConversationAgrees(r1, u, id);
      DoInviteBusy(State(q.queueId, q.users[1..], AddConversation(r1, u, id),
                         q.convs[id := ConvRec(q.queueId, u, q.users[0])]));
    }
  }

  lemma PresenceBusy(c: Config, ev: Event)
    requires Sane(c) && ev.Presence?
    requires Busy(c.state) || Invites(c.state, c.counter, ev)
    ensures Busy(After(c, ev).state)
  {
    hide Distinct, Listed, Covers, InLoadOrder, LoadsCount, Inverse, Insert, Invite, Invitations, NoneEligible;
    var q := c.state;
    if ev.verified.Some? && ev.id.uin !in q.roster.pool {
      var a := AgentRec(ev.id, ev.verified.value, Available, ev.capacity, 0, {});
      InsertKeeps(q.roster, a);
      DoInviteBusy(q.(roster := Insert(q.roster, a)));
    }
  }

  lemma OfflineBusy(c: Config, ev: Event)
    requires Sane(c) && ev.Offline?
    requires Busy(c.state) || Invites(c.state, c.counter, ev)
    ensures Busy(After(c, ev).state)
  {
    hide Distinct, Listed, Covers, InLoadOrder, LoadsCount, Inverse, Erase, Drain, Invite, Invitations, NoneEligible;
    if Find(c.state.roster, ev.id) {
      OfflineDrains(c.state, c.counter, ev.id);
      DoInviteBusy(WithoutAgent(c.state, ev.id.uin));
    }
  }

  lemma RefuseBusy(c: Config, ev: Event)
    requires Sane(c) && ev.Refuse?
    ensures Busy(After(c, ev).state)
  {
    hide Distinct, Listed, Covers, InLoadOrder, LoadsCount, Inverse, Invite, Invitations, NoneEligible;
    var q := c.state;
    if Find(q.roster, ev.id) && ev.id.uin in q.roster.inviting {
      AnswerKeeps(q.roster, ev.id.uin, Refused);
      DoInviteBusy(q.(roster := Answer(q.roster, ev.id.uin, Refused)));
    } else {
      DoInviteBusy(q);
    }
  }

  lemma RedirectBusy(c: Config, ev: Event)
    requires Sane(c) && ev.Redirect?
    requires Busy(c.state) || Invites(c.state, c.counter, ev)
    ensures Busy(After(c, ev).state)
  {
    hide Distinct, Listed, Covers, InLoadOrder, LoadsCount, HandOver, Invite, Invitations, NoneEligible;
    if After(c, ev).reply.ok {
      DoInviteBusy(HandOver(c.state, ev.cvsId, ev.from.uin, ev.to.uin));
    }
  }

  lemma JoinBusy(c: Config, ev: Event)
    requires Sane(c) && ev.Join?
    ensures Busy(After(c, ev).state)
  {
    hide Distinct, Listed, Covers, InLoadOrder, LoadsCount, Inverse, Invite, Invitations, NoneEligible;
    DoInviteBusy(c.state.(users := c.state.users + [User(ev.id, ev.address)]));
  }

  /** Every operation except `conversation_end` keeps the queue busy, failures included; and one
      that reaches `do_invite` makes it busy from any state. */
  lemma StepBusy(c: Config, ev: Event)
    requires Sane(c) && Room(c.state, c.counter, ev)
    requires (Busy(c.state) && !ev.End?) || Invites(c.state, c.counter, ev)
    ensures Busy(After(c, ev).state)
  {
    hide Wf, LoadsCount, Inverse, Invite, Invitations, NoneEligible, Erase;
    match ev
    case Presence(_, _, _) => PresenceBusy(c, ev);
    case Absence(id) =>
      if Erases(c.state, ev, id.uin) {
        AbsenceBusy(c, ev);
      }
    case Offline(_) => OfflineBusy(c, ev);
    case Accept(_) => AcceptBusy(c, ev);
    case Refuse(_) => RefuseBusy(c, ev);
    case Redirect(_, _, _) => RedirectBusy(c, ev);
    case Join(_, _) => JoinBusy(c, ev);
    case _ =>
  }

  lemma AbsenceBusy(c: Config, ev: Event)
    requires Sane(c) && ev.Absence? && Busy(c.state)
    ensures Busy(After(c, ev).state)
  {
    hide Distinct, Listed, Covers, InLoadOrder, LoadsCount, Inverse;
    if Erases(c.state, ev, ev.id.uin) {
      EraseBusy(c.state, ev.id.uin);
    }
  }

  lemma StepLapse(c: Config, h: History, ev: Event)
    requires Sane(c) && Room(c.state, c.counter, ev)
    requires !h.lapsed ==> Busy(c.state)
    ensures !Track(c, h, ev, After(c, ev)).lapsed ==> Busy(After(c, ev).state)
  {
    hide Wf, LoadsCount, Inverse, Busy, Step, Tell, Doubled, LeftoverAfter, RedirectedAfter;
    if !Track(c, h, ev, After(c, ev)).lapsed {
      StepBusy(c, ev);
    }
  }

  /** `conversation_end` invites nobody, so it keeps a busy queue busy exactly when the inviting
      set is as large as the line or the agent it relieves cannot be invited anyway. */
  lemma EndBusyExactly(q: State, counter: nat, cvsId: nat)
    requires Coherent(q) && Busy(q) && cvsId in q.convs
    ensures var a := q.roster.pool[q.convs[cvsId].agent];
            Busy(ConversationEnd(q, counter, cvsId).state) <==>
            || |q.roster.inviting| >= |q.users|
            || a.state != Available
            || a.id.uin in q.roster.inviting
            || a.load > a.capacity
  {
    hide Distinct, Listed, Covers, InLoadOrder, RemoveConversation;
    var u := q.convs[cvsId].agent;
    var r' := RemoveConversation(q.roster, u, cvsId);
    DropInverse(q.roster.pool, q.convs, cvsId);
    RemovesOne(q.roster, u, cvsId);
    assert forall v :: v in r'.pool && v != u ==> r'.pool[v] == q.roster.pool[v];
    assert Eligible(r'.pool[u], r'.inviting) <==>
      Freed(q.roster.pool[u], q.roster.inviting);
  }

  // Could the agent be invited once one of its conversations is over?
  predicate Freed(a: AgentRec, inviting: set<nat>) {
    a.state == Available && a.id.uin !in inviting && a.load <= a.capacity
  }

  /** One agent of capacity one, busy with conversation 1, and one more user waiting. */
  const FULL_HOUSE := State(
    7, [User(Umid(21, 1), 0)],
    Roster([11], map[11 := AgentRec(Umid(11, 1), "", Available, 1, 1, {1})], {}),
    map[1 := ConvRec(7, 11, User(Umid(20, 1), 0))])

  /** There the end of the conversation leaves a user waiting beside an idle agent. */
  lemma EndMayLapse()
    ensures Invariant(FULL_HOUSE, 1) && Busy(FULL_HOUSE)
    ensures !Busy(ConversationEnd(FULL_HOUSE, 1, 1).state)
  {
    assert 11 in FULL_HOUSE.roster.order by { assert FULL_HOUSE.roster.order[0] == 11; }
    assert Coherent(FULL_HOUSE);
    EndBusyExactly(FULL_HOUSE, 1, 1);
  }
}
