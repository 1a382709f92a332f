/** An agent that refused is never invited again until it is erased and registers anew. */
module Refusals {
  import opened Types
  import opened LoadOrder
  import opened Rosters
  import opened Dispatch
  import opened Invariants
  import opened Histories
  import opened Inviting

  ghost predicate HasRefused(pool: map<nat, AgentRec>, u: nat) {
    u in pool && pool[u].state == Refused
  }

  ghost predicate Spared(invites: seq<Umid>, u: nat) {
    forall k :: 0 <= k < |invites| ==> invites[k].uin != u
  }

  lemma InvitingSpares(q: State, u: nat)
    requires Agrees(q.roster) && HasRefused(q.roster.pool, u)
    ensures HasRefused(DoInvite(q).roster.pool, u) && Spared(Invitations(q), u)
  {
    hide Distinct, Listed, Covers, Eligibles;
    var chosen := Chosen(q.roster, |q.users|);
    forall k | 0 <= k < |chosen| ensures q.roster.pool[chosen[k]].id.uin != u {
      assert chosen[k] in chosen;
    }
  }

  lemma PresenceSpares(c: Config, ev: Event, u: nat)
    requires Sane(c) && HasRefused(c.state.roster.pool, u) && ev.Presence?
    ensures var next := After(c, ev); HasRefused(next.state.roster.pool, u) && Spared(next.reply.invites, u)
  {
    hide Distinct, Listed, Covers, InLoadOrder, LoadsCount, Inverse, Invite, Invitations;
    var q := c.state;
    if ev.verified.Some? && ev.id.uin !in q.roster.pool {
      var a := AgentRec(ev.id, ev.verified.value, Available, ev.capacity, 0, {});
      InsertKeeps(q.roster, a);
      InvitingSpares(q.(roster := Insert(q.roster, a)), u);
    }
  }

  lemma OfflineSpares(c: Config, ev: Event, u: nat)
    requires Sane(c) && HasRefused(c.state.roster.pool, u) && ev.Offline? && ev.id.uin != u
    ensures var next := After(c, ev); HasRefused(next.state.roster.pool, u) && Spared(next.reply.invites, u)
  {
    hide Distinct, Listed, Covers, InLoadOrder, LoadsCount, Inverse, Invite, Invitations, Drain;
    if Find(c.state.roster, ev.id) {
      OfflineDrains(c.state, c.counter, ev.id);
      InvitingSpares(WithoutAgent(c.state, ev.id.uin), u);
    }
  }

  lemma AcceptSpares(c: Config, ev: Event, u: nat)
    requires Sane(c) && HasRefused(c.state.roster.pool, u) && ev.Accept? && Room(c.state, c.counter, ev)
    requires u !in c.state.roster.inviting
    ensures var next := After(c, ev); HasRefused(next.state.roster.pool, u) && Spared(next.reply.invites, u)
  {
    hide Distinct, Listed, Covers, InLoadOrder, Inverse, AddConversation, Invite, Invitations;
    var q, v, id := c.state, ev.id.uin, c.counter + 1;
    if Answers(q, ev, v) && q.users != [] && id !in q.convs {
      var r1 := Answer(q.roster, v, Available);
      AnswerKeeps(q.roster, v, Available);
      if id in r1.pool[v].cvs {
        AddConversationAgrees(r1, v, id);
        assert AddConversation(r1, v, id) == r1 by { AddsNothing(r1, v, id); }
      } else {
        AddsOne(r1, v, id);
        AddConversationAgrees(r1, v, id);
      }
      InvitingSpares(State(q.queueId, q.users[1..], AddConversation(r1, v, id),
                           q.convs[id := ConvRec(q.queueId, v, q.users[0])]), u);
    }
  }

  lemma AddsNothing(r: Roster, u: nat, id: nat)
    requires Agrees(r) && u in r.pool && id in r.pool[u].cvs
    ensures AddConversation(r, u, id) == r
  {
  }

  lemma RefuseSpares(c: Config, ev: Event, u: nat)
    requires Sane(c) && HasRefused(c.state.roster.pool, u) && ev.Refuse?
    requires u !in c.state.roster.inviting
    ensures var next := After(c, ev); HasRefused(next.state.roster.pool, u) && Spared(next.reply.invites, u)
  {
    hide Distinct, Listed, Covers, InLoadOrder, LoadsCount, Inverse, Invite, Invitations;
    var q, v := c.state, ev.id.uin;
    if Answers(q, ev, v) {
      AnswerKeeps(q.roster, v, Refused);
      InvitingSpares(q.(roster := Answer(q.roster, v, Refused)), u);
    } else {
      InvitingSpares(q, u);
    }
  }

  lemma RedirectSpares(c: Config, ev: Event, u: nat)
    requires Sane(c) && HasRefused(c.state.roster.pool, u) && ev.Redirect? && Room(c.state, c.counter, ev)
    ensures var next := After(c, ev); HasRefused(next.state.roster.pool, u) && Spared(next.reply.invites, u)
  {
    hide Distinct, Listed, Covers, InLoadOrder, LoadsCount, HandOver, Invite, Invitations;
    var q := c.state;
    if After(c, ev).reply.ok {
      HandOverShifts(q, ev.cvsId, ev.to.uin);
      InvitingSpares(HandOver(q, ev.cvsId, ev.from.uin, ev.to.uin), u);
    }
  }

  lemma EndSpares(c: Config, ev: Event, u: nat)
    requires Sane(c) && HasRefused(c.state.roster.pool, u) && ev.End?
    ensures var next := After(c, ev); HasRefused(next.state.roster.pool, u) && Spared(next.reply.invites, u)
  {
    hide Distinct, Listed, Covers, InLoadOrder, RemoveConversation;
    var q := c.state;
    if ev.cvsId in q.convs {
      DropInverse(q.roster.pool, q.convs, ev.cvsId);
      RemovesOne(q.roster, q.convs[ev.cvsId].agent, ev.cvsId);
    }
  }

  /** One step neither invites an agent that refused nor changes its state. */
  lemma StepSpares(c: Config, h: History, ev: Event, u: nat)
    requires Sane(c) && Room(c.state, c.counter, ev) && Accounted(c.state.roster, h)
    requires HasRefused(c.state.roster.pool, u) && !Erases(c.state, ev, u)
    ensures var next := After(c, ev); HasRefused(next.state.roster.pool, u) && Spared(next.reply.invites, u)
  {
    hide Wf, LoadsCount, Inverse, Invite, Invitations;
    var q := c.state;
    match ev
    case Presence(_, _, _) => PresenceSpares(c, ev, u);
    case Absence(_) =>
    case Offline(id) => if id.uin != u { OfflineSpares(c, ev, u); }
    case Accept(_) => AcceptSpares(c, ev, u);
    case Refuse(_) => RefuseSpares(c, ev, u);
    case Redirect(_, _, _) => RedirectSpares(c, ev, u);
    case Join(id, address) => JoinSpares(c, ev, u);
    case Depart(_) =>
    case End(_) => EndSpares(c, ev, u);
    case Elsewhere =>
  }

  lemma JoinSpares(c: Config, ev: Event, u: nat)
    requires Sane(c) && HasRefused(c.state.roster.pool, u) && ev.Join?
    ensures var next := After(c, ev); HasRefused(next.state.roster.pool, u) && Spared(next.reply.invites, u)
  {
    hide Distinct, Listed, Covers, InLoadOrder, LoadsCount, Inverse, Invite, Invitations;
    InvitingSpares(c.state.(users := c.state.users + [User(ev.id, ev.address)]), u);
  }
}
