/** What a caller of an operation observes, in terms of the state before it: whether it succeeds,
    what becomes of every agent's record and of the list, whom it invites, and everything it
    reports. Nothing here mentions how the operations compute it. */
module Effects {
  import opened Types
  import opened LoadOrder
  import opened Rosters
  import opened Dispatch
  import opened Invariants
  import opened Histories

  ghost predicate Known(q: State, id: Umid) {
    id.uin in q.roster.pool && q.roster.pool[id.uin].id == id
  }

  // The login has an invitation to answer.
  ghost predicate Asked(q: State, id: Umid) {
    Known(q, id) && id.uin in q.roster.inviting
  }

  ghost predicate IsWaiting(q: State, id: Umid) {
    exists k :: 0 <= k < |q.users| && q.users[k].id == id
  }

  ghost predicate Owns(q: State, id: Umid, cvsId: nat) {
    cvsId in q.convs && q.convs[cvsId].agent == id.uin
  }

  // ---- whether an operation succeeds, and what it costs the counter ----

  ghost predicate Succeeds(q: State, ev: Event) {
    match ev
    case Presence(id, _, verified) => verified.Some? && id.uin !in q.roster.pool
    case Absence(id) => Known(q, id) && q.roster.pool[id.uin].load == 0
    case Offline(id) => Known(q, id)
    case Accept(id) => Asked(q, id) && |q.users| > 0
    case Refuse(id) => Asked(q, id)
    case Redirect(cvsId, from, to) => Known(q, from) && Known(q, to) && Owns(q, from, cvsId)
    case Join(_, _) => true
    case Depart(id) => IsWaiting(q, id)
    case End(_) => false
    case Elsewhere => true
  }

  lemma FindKnows(q: State, id: Umid)
    requires Coherent(q)
    ensures Find(q.roster, id) <==> Known(q, id)
  {
    hide Distinct, Listed, Covers, InLoadOrder, LoadsCount, Inverse;
  }

  lemma WaitingAt(q: State, id: Umid)
    ensures IsWaiting(q, id) <==> FirstAt(q.users, id) < |q.users|
  {
    hide FirstAt;
    var k := FirstAt(q.users, id);
  }

  lemma KnowsAll(q: State, ev: Event)
    requires Coherent(q)
    ensures forall id :: Find(q.roster, id) <==> Known(q, id)
  {
    hide Sound, Find, Known;
    forall id ensures Find(q.roster, id) <==> Known(q, id) {
      FindKnows(q, id);
    }
  }

  /** Each operation answers true exactly when it should. */
  lemma StepSucceeds(c: Config, ev: Event)
    requires Sane(c) && Room(c.state, c.counter, ev)
    ensures var next := After(c, ev);
            && (next.reply.ok <==> Succeeds(c.state, ev))
            && next.counter == c.counter + if ev.Elsewhere? || (ev.Accept? && Succeeds(c.state, ev)) then 1 else 0
  {
    hide Wf, LoadsCount, Inverse, DoInvite, Invitations, Positions, DropConversation, HandOver, Connect, Insert, Erase,
      Answer, Drain, Returned, FirstAt, Without, Find, Known, Ascending;
    KnowsAll(c.state, ev);
    match ev
    case Depart(id) => WaitingAt(c.state, id);
    case Accept(id) => FreshId(c);
    case Absence(id) => AbsenceSucceeds(c, ev);
    case _ =>
  }

  lemma AbsenceSucceeds(c: Config, ev: Event)
    requires Sane(c) && ev.Absence?
    ensures After(c, ev).reply.ok <==> Succeeds(c.state, ev)
    ensures After(c, ev).counter == c.counter
  {
    hide Sound, Erase;
    FindKnows(c.state, ev.id);
  }

  lemma FreshId(c: Config)
    requires Sane(c)
    ensures c.counter + 1 !in c.state.convs
  {
    hide Coherent;
  }

  // ---- what it reports ----

  ghost predicate TellsPositions(told: seq<UserInfo>, users: seq<User>, from: nat) {
    && |told| == |users| - from
    && forall k :: 0 <= k < |told| ==> told[k].mid == users[from + k].id && told[k].position == from + k + 1
  }

  // Every conversation of the agent once, in ascending order, each with its user.
  ghost predicate ReportsReturned(q: State, u: nat, returned: seq<UserConversation>) {
    && (forall i, j :: 0 <= i < j < |returned| ==> returned[i].conversationId < returned[j].conversationId)
    && (forall id :: id in q.convs && q.convs[id].agent == u ==>
          exists k :: 0 <= k < |returned| && returned[k].conversationId == id)
    && (forall k :: 0 <= k < |returned| ==>
          && returned[k].conversationId in q.convs
          && q.convs[returned[k].conversationId].agent == u
          && returned[k].mid == q.convs[returned[k].conversationId].user.id)
  }

  ghost predicate ReportsAccepted(q: State, q': State, cvsId: nat, id: Umid, accepted: Option<ConversationInfo>)
    requires id.uin in q.roster.pool && |q.users| > 0
  {
    && accepted.Some?
    && accepted.value.conversationId == cvsId
    && accepted.value.agent == id
    && accepted.value.agentName == q.roster.pool[id.uin].name
    && accepted.value.user == q.users[0].id
    && accepted.value.userAddress == q.users[0].address
    && cvsId in q'.convs && q'.convs[cvsId].agent == id.uin && q'.convs[cvsId].user == q.users[0]
    && q'.convs[cvsId].queueId == q.queueId
  }

  ghost predicate ReportsEnded(q: State, cvsId: nat, ended: Option<(Umid, UserConversation)>) {
    if cvsId !in q.convs then ended == None
    else
      && ended.Some?
      && Known(q, ended.value.0) && ended.value.0.uin == q.convs[cvsId].agent
      && ended.value.1.mid == q.convs[cvsId].user.id
      && ended.value.1.conversationId == cvsId
  }

  /** Everything an operation reports but its invitations. */
  ghost predicate Reports(q: State, counter: nat, ev: Event, next: Next) {
    var reply, ok := next.reply, Succeeds(q, ev);
    && reply.position == (if ev.Join? then |q.users| + 1 else 0)
    && (match ev
        case Accept(_) => if ok then TellsPositions(reply.told, q.users[1..], 0) else reply.told == []
        case Depart(id) =>
          if ok then exists k :: 0 <= k < |q.users| && q.users[k].id == id
                                 && (forall j :: 0 <= j < k ==> q.users[j].id != id)
                                 && TellsPositions(reply.told, q.users[..k] + q.users[k + 1..], k)
          else reply.told == []
        case _ => reply.told == [])
    && (if ev.Offline? && ok then ReportsReturned(q, ev.id.uin, reply.returned) else reply.returned == [])
    && (if ev.Accept? && ok then ReportsAccepted(q, next.state, counter + 1, ev.id, reply.accepted)
        else reply.accepted == None)
    && (if ev.End? then ReportsEnded(q, ev.cvsId, reply.ended) else reply.ended == None)
  }

  lemma PositionsTold(users: seq<User>, from: nat)
    requires from <= |users|
    ensures TellsPositions(Positions(users, from), users, from)
  {
    hide Positions;
  }

  lemma AcceptReports(c: Config, ev: Event)
    requires Sane(c) && Room(c.state, c.counter, ev) && ev.Accept?
    ensures Reports(c.state, c.counter, ev, After(c, ev))
  {
    hide Wf, LoadsCount, Inverse, Invite, Invitations, AddConversation, Answer, Find, Known, TellsPositions, Positions;
    KnowsAll(c.state, ev);
    FreshId(c);
    if Succeeds(c.state, ev) {
      AcceptReportsConversation(c, ev);
      PositionsTold(c.state.users[1..], 0);
    }
  }

  lemma AcceptReportsConversation(c: Config, ev: Event)
    requires Sane(c) && Room(c.state, c.counter, ev) && ev.Accept? && Succeeds(c.state, ev)
    ensures ReportsAccepted(c.state, After(c, ev).state, c.counter + 1, ev.id, After(c, ev).reply.accepted)
    ensures After(c, ev).reply.told == Positions(c.state.users[1..], 0)
  {
    hide Wf, LoadsCount, Inverse, Invite, Invitations, AddConversation, Find, Positions;
    KnowsAll(c.state, ev);
    FreshId(c);
  }

  lemma DepartReports(c: Config, ev: Event)
    requires Sane(c) && ev.Depart?
    ensures Reports(c.state, c.counter, ev, After(c, ev))
  {
    hide Sound, TellsPositions, FirstAt, Positions;
    var k := FirstAt(c.state.users, ev.id);
    WaitingAt(c.state, ev.id);
    if k < |c.state.users| {
      PositionsTold(Without(c.state.users, k), k);
    }
  }

  lemma OfflineReportsReturned(c: Config, ev: Event)
    requires Sane(c) && ev.Offline?
    ensures Reports(c.state, c.counter, ev, After(c, ev))
  {
    hide Wf, LoadsCount, Inverse, DoInvite, Invitations, Find, Known, Drain, Erase, ReportsReturned;
    KnowsAll(c.state, ev);
    if Known(c.state, ev.id) {
      ReturnedOnce(c.state, c.counter, ev.id);
    }
  }

  lemma ReturnedOnce(q: State, counter: nat, id: Umid)
    requires Coherent(q) && Known(q, id)
    ensures ReportsReturned(q, id.uin, AgentOffline(q, counter, id).reply.returned)
  {
    hide Wf, LoadsCount, DoInvite, Invitations, Find, Drain, Erase, Ascending, AgentOffline;
    FindKnows(q, id);
    OfflineReports(q, counter, id);
    OwnsAscending(q, id.uin);
    var ids := Ascending(q.roster.pool[id.uin].cvs);
    forall cvsId | cvsId in q.convs && q.convs[cvsId].agent == id.uin
      ensures exists k :: 0 <= k < |ids| && ids[k] == cvsId
    {
      assert cvsId in ids;
    }
  }

  lemma EndReports(c: Config, ev: Event)
    requires Sane(c) && ev.End?
    ensures Reports(c.state, c.counter, ev, After(c, ev))
  {
    hide Distinct, Listed, Covers, InLoadOrder, LoadsCount, DropConversation;
  }

  /** Every operation reports what it should, and nothing else. */
  lemma StepReports(c: Config, ev: Event)
    requires Sane(c) && Room(c.state, c.counter, ev)
    ensures Reports(c.state, c.counter, ev, After(c, ev))
  {
    match ev
    case Accept(_) => AcceptReports(c, ev);
    case Depart(_) => DepartReports(c, ev);
    case Offline(_) => OfflineReportsReturned(c, ev);
    case End(_) => EndReports(c, ev);
    case _ => OthersReport(c, ev);
  }

  lemma OthersReport(c: Config, ev: Event)
    requires Sane(c) && Room(c.state, c.counter, ev)
    requires !ev.Accept? && !ev.Depart? && !ev.Offline? && !ev.End?
    ensures Reports(c.state, c.counter, ev, After(c, ev))
  {
    hide Wf, LoadsCount, Inverse, DoInvite, Invitations, HandOver, Insert, Erase, Answer, Find, Known;
  }
}
