/** Invitations that are really out. An account erased with an invitation out stays in the inviting
    set, where it counts for a waiting user although nobody is left to accept. This module counts
    only pooled agents being invited, and says exactly when nobody waits beside an agent that could
    be invited. */
module Attendance {
  import opened Types
  import opened LoadOrder
  import opened Rosters
  import opened Dispatch
  import opened Invariants
  import opened Histories
  import opened Inviting
  import opened WorkConservation

  /** For every waiting user some pooled agent is being invited, or no agent could be. */
  ghost predicate Attended(q: State) {
    |InvitedAgents(q.roster.pool)| >= |q.users| || NoneEligible(q.roster)
  }

  lemma SplitCounts(pool: map<nat, AgentRec>, inviting: set<nat>, leftover: set<nat>)
    requires Split(pool, inviting, leftover)
    ensures |inviting| == |InvitedAgents(pool)| + |leftover|
    ensures leftover == {} <==> |leftover| == 0
  {
  }

  lemma MarkInvites(pool: map<nat, AgentRec>, chosen: seq<nat>)
    requires Distinct(chosen) && forall u :: u in chosen ==> u in pool && pool[u].state == Available
    ensures |InvitedAgents(Mark(pool, chosen))| == |InvitedAgents(pool)| + |chosen|
  {
    assert InvitedAgents(Mark(pool, chosen)) == InvitedAgents(pool) + ToSet(chosen);
    DistinctSize(chosen);
  }

  lemma StillEligibleUnchosen(r: Roster, chosen: seq<nat>, u: nat)
    requires Agrees(r) && u in r.pool && Eligible(r.pool[u], r.inviting) && u !in chosen
    ensures !NoneEligible(r.(pool := Mark(r.pool, chosen), inviting := r.inviting + ToSet(chosen)))
  {
    assert r.pool[u].id.uin == u;
    assert Eligible(Mark(r.pool, chosen)[u], r.inviting + ToSet(chosen));
  }

  // Who stays uninvited when there are more eligible agents than users short of an invitation.
  lemma SomeoneLeftOver(r: Roster, waiting: nat)
    requires Agrees(r)
    ensures var el := Eligibles(r.order, r.pool, r.inviting);
            NoneEligible(Invite(r, waiting)) <==> |el| <= Shortfall(waiting, |r.inviting|)
  {
    hide Listed, Covers, Eligibles, NoneEligible;
    var el := Eligibles(r.order, r.pool, r.inviting);
    EligiblesDistinct(r.order, r.pool, r.inviting);
    var n := Shortfall(waiting, |r.inviting|);
    if |el| <= n {
      assert Chosen(r, waiting) == el;
      AllEligible(r);
      MarkedNotEligible(r, el);
    } else {
      var u := el[n];
      assert u in el;
      assert u !in el[..n];
      EligibleIsPooled(r, u);
      StillEligibleUnchosen(r, el[..n], u);
    }
  }

  lemma AllEligible(r: Roster)
    requires Agrees(r)
    ensures forall u :: u in r.pool && Eligible(r.pool[u], r.inviting) ==> u in Eligibles(r.order, r.pool, r.inviting)
  {
    hide Eligibles;
  }

  lemma EligibleIsPooled(r: Roster, u: nat)
    requires Agrees(r) && u in Eligibles(r.order, r.pool, r.inviting)
    ensures u in r.pool && Eligible(r.pool[u], r.inviting)
  {
    hide Eligibles;
  }

  lemma NoneEligibleNone(r: Roster)
    requires Agrees(r)
    ensures NoneEligible(r) <==> Eligibles(r.order, r.pool, r.inviting) == []
  {
    hide Eligibles;
    var el := Eligibles(r.order, r.pool, r.inviting);
    AllEligible(r);
    if el != [] {
      assert el[0] in el;
      EligibleIsPooled(r, el[0]);
    }
  }

  /** `do_invite` leaves every waiting user attended if and only if no account was erased with an
      invitation out, or enough agents were being invited already, or nobody could be, or there are
      too few who could be to reach the number of users even with the dead invitations counted. */
  lemma DoInviteAttendsExactly(q: State, leftover: set<nat>)
    requires Agrees(q.roster) && Split(q.roster.pool, q.roster.inviting, leftover)
    ensures var r := q.roster;
            Attended(DoInvite(q)) <==>
            || leftover == {}
            || |InvitedAgents(r.pool)| >= |q.users|
            || NoneEligible(r)
            || |Eligibles(r.order, r.pool, r.inviting)| + |r.inviting| <= |q.users|
  {
    hide Distinct, Listed, Covers, Eligibles, NoneEligible, Split, InvitedAgents;
    var r := q.roster;
    SplitCounts(r.pool, r.inviting, leftover);
    ChosenCount(r, |q.users|);
    MarkInvites(r.pool, Chosen(r, |q.users|));
    SomeoneLeftOver(r, |q.users|);
    NoneEligibleNone(r);
  }

  /** In a busy queue at most as many users as there are leftover accounts wait without an invitation
      beside an agent that could be invited; without leftovers, none. */
  lemma UnattendedWithinLeftovers(q: State, leftover: set<nat>)
    requires Busy(q) && Split(q.roster.pool, q.roster.inviting, leftover)
    ensures NoneEligible(q.roster) || |q.users| <= |InvitedAgents(q.roster.pool)| + |leftover|
    ensures leftover == {} ==> Attended(q)
  {
    hide Split, NoneEligible, InvitedAgents;
    SplitCounts(q.roster.pool, q.roster.inviting, leftover);
  }

  /** The end of a conversation keeps users attended if and only if enough agents are being invited,
      or the agent it relieves cannot be invited anyway. */
  lemma EndAttendsExactly(q: State, counter: nat, cvsId: nat)
    requires Coherent(q) && Attended(q) && cvsId in q.convs
    ensures var a := q.roster.pool[q.convs[cvsId].agent];
            Attended(ConversationEnd(q, counter, cvsId).state) <==>
            || |InvitedAgents(q.roster.pool)| >= |q.users|
            || a.state != Available
            || a.id.uin in q.roster.inviting
            || a.load > a.capacity
  {
    hide Distinct, Listed, Covers, InLoadOrder, RemoveConversation;
    var u := q.convs[cvsId].agent;
    var r' := RemoveConversation(q.roster, u, cvsId);
    DropInverse(q.roster.pool, q.convs, cvsId);
    RemovesOne(q.roster, u, cvsId);
    assert InvitedAgents(r'.pool) == InvitedAgents(q.roster.pool);
    assert forall v :: v in r'.pool && v != u ==> r'.pool[v] == q.roster.pool[v];
    assert Eligible(r'.pool[u], r'.inviting) <==> Freed(q.roster.pool[u], q.roster.inviting);
  }

  /** A step that leaves no account erased with an invitation out leaves every waiting user attended,
      under the terms of `StepBusy`. */
  lemma StepAttended(c: Config, h: History, ev: Event)
    requires Sane(c) && Room(c.state, c.counter, ev) && Accounted(c.state.roster, h)
    requires (Busy(c.state) && !ev.End?) || Invites(c.state, c.counter, ev)
    requires Track(c, h, ev, After(c, ev)).leftover == {}
    ensures Attended(After(c, ev).state)
  {
    hide Sound, Bounded, Issued, Busy, Attended, Step, Track, Split, WithinBudget;
    StepBusy(c, ev);
    StepAccounted(c, h, ev);
    UnattendedWithinLeftovers(After(c, ev).state, {});
  }
}
