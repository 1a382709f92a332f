/** The queue on the heap: its waiting users, its agents and its conversations. Every method is
    proved to take exactly the step of the dispatch state machine. */
module Queues {
  import opened Types
  import opened LoadOrder
  import opened Rosters
  import opened Dispatch
  import opened Invariants
  import opened InvitationScan
  import opened Agents
  import opened Conversations
  import opened Sequences

  class Queue {
    const queueId: nat
    const agents: AgentManager
    const cvss: ConversationManager
    const sequence: Sequence
    var users: seq<User>

    /** The heap hangs together: the pool and list of agents, the pool of conversations, and every
        conversation linked to a node of the list. */
    ghost predicate Shape()
      reads agents, agents.head`prev, agents.head`next, agents.list`prev, agents.list`next
      reads agents.pool.Values`state, agents.pool.Values`load, agents.pool.Values`conversations
      reads cvss, cvss.pool.Values`agent
    {
      agents.Valid() && cvss.Valid() && cvss.LinkedTo(agents.list)
    }

    ghost function Model(): State
      reads this`users, agents, cvss, cvss.pool.Values`agent
      reads agents.pool.Values`state, agents.pool.Values`load, agents.pool.Values`conversations
    {
      State(queueId, users, agents.Model(), cvss.Model())
    }

    ghost predicate Valid()
      reads this`users, sequence`cvsSeq
      reads agents, agents.head`prev, agents.head`next, agents.list`prev, agents.list`next
      reads agents.pool.Values`state, agents.pool.Values`load, agents.pool.Values`conversations
      reads cvss, cvss.pool.Values`agent
    {
      Shape() && Invariant(Model(), sequence.cvsSeq)
    }

    constructor (queueId: nat, sequence: Sequence)
      requires sequence.cvsSeq < UINT64_LIMIT
      ensures this.queueId == queueId && this.sequence == sequence
      ensures fresh(agents) && fresh(cvss)
      ensures Valid() && Model() == Empty(queueId)
    {
      this.queueId, this.sequence, users := queueId, sequence, [];
      agents := new AgentManager();
      cvss := new ConversationManager();
    }

    /** Invites the first eligible agents in load order, one for each waiting user without an
        invitation out on its behalf; nothing else changes. */
    method DoInvite() returns (invites: seq<Umid>)
      requires Shape() && Bounded(Model())
      modifies agents`inviting, agents.pool.Values`state
      ensures Shape()
      ensures agents.Valid() && Model() == Dispatch.DoInvite(old(Model())) && invites == Invitations(old(Model()))
    {
      hide AgentManager.Shape, AgentManager.Model, Invite, Ids, Chosen, Agrees;
      ghost var convs := cvss.Model();
      agents.ModelFields();
      invites := ScanAndInvite();
      assert cvss.Model() == convs;
    }

    // The scan of `do_invite`, one agent at a time.
    method ScanAndInvite() returns (invites: seq<Umid>)
      requires agents.Valid() && |agents.inviting| <= 0xFFFF && |users| <= 0xFFFF
      modifies agents`inviting, agents.pool.Values`state
      ensures agents.Valid()
      ensures agents.Model() == Invite(old(agents.Model()), |users|)
      ensures invites == Ids(old(agents.Model()).pool, Chosen(old(agents.Model()), |users|))
    {
      hide AgentManager.Shape, AgentManager.Model, Eligible, Eligibles, Distinct, Covers, Mark, ToSet, Invited, Invite, Listed, Ids;
      ghost var r, chosen: seq<nat>, p: nat := agents.Model(), [], 0;
      agents.ModelFields();
      InvitedNone(r);
      ScannedNone(r);
      var agent: Agent?, num: uint16 := null, 0;
      invites := [];
      while true
        invariant agents.Valid() && agents.Model() == Invited(r, chosen)
        invariant Scanned(r, chosen, p) && |chosen| <= Shortfall(|users|, |r.inviting|)
        invariant |agents.list| == |r.order|
        invariant if agent == null then p == 0 else 0 < p <= |agents.list| && agents.list[p - 1] == agent
        invariant Listed(chosen, r.pool) && invites == Ids(r.pool, chosen)
        invariant num == |chosen|
        decreases |r.order| - p
      {
        ScannedCount(r, chosen, p);
        InvitedSameIds(r, chosen);
        agents.ModelFields();
        if agents.InvitingNum() as int >= |users| {
          break;
        }
        ghost var k;
        agent, k := agents.Invite(agent, p);
        ScanTo(r, chosen, p, k);
        if agent == null {
          p := k;
          break;
        }
        assert r.order[k] == agent.id.uin && r.pool[agent.id.uin].id == agent.id;
        InvitedOneMore(r, chosen, agent.id.uin);
        IdsOneMore(r.pool, chosen, agent.id.uin);
        chosen, p := chosen + [agent.id.uin], k + 1;
        num := Inc16(num);
        invites := invites + [agent.id];
      }
      ScanDone(r, |users|, chosen, p);
    }

    /** Every waiting user from `pos` on, with its position. */
    method GetUserInfo(pos: uint16) returns (told: seq<UserInfo>, idx: uint16)
      requires pos as int <= |users| <= 0xFFFF
      ensures told == Positions(users, pos)
    {
      told, idx := [], pos;
      if pos as int >= |users| {
        return told, 0;
      }
      while idx as int < |users|
        invariant pos <= idx && idx as int <= |users|
        invariant |told| == idx - pos
        invariant forall k :: 0 <= k < |told| ==> told[k] == UserInfo(users[pos + k].id, pos + k + 1)
        decreases |users| - idx
      {
        told := told + [UserInfo(users[idx].id, idx + 1)];
        idx := Inc16(idx);
      }
    }

    method AgentPresence(id: Umid, capacity: uint16, verified: Option<string>) returns (ok: bool, invites: seq<Umid>)
      requires Valid()
      modifies agents, agents.head`next, agents.list`prev, agents.list`next, agents.pool.Values`state
      ensures Valid()
      ensures Next(Model(), sequence.cvsSeq, Reply(ok, invites := invites)) ==
              Dispatch.AgentPresence(old(Model()), old(sequence.cvsSeq), id, capacity, verified)
    {
      hide AgentManager.Shape, AgentManager.Model, Listed, Covers, Distinct, InLoadOrder, LoadsCount, Inverse,
        Moved, TailSlot, Keys, Dispatch.DoInvite, Invitations, Included;
      ghost var q, nodes := Model(), agents.list;
      PresenceKeeps(q, sequence.cvsSeq, id, capacity, verified);
      agents.ModelKeys();
      if verified.None? {
        return false, [];
      }
      var agent := agents.Insert(id, verified.value, capacity);
      if agent == null {
        return false, [];
      }
      cvss.StillMembers(nodes, agents.list);
      assert cvss.Model() == q.convs;
      invites := DoInvite();
      ok := true;
    }

    // No conversation links to an agent without load.
    lemma NobodyLinked(agent: Agent)
      requires Shape() && Coherent(Model()) && agent in agents.list && agent.load == 0
      ensures forall id :: id in cvss.pool ==> cvss.pool[id].agent != agent
    {
      hide Distinct, Listed, Covers, InLoadOrder, Linked;
      var i := agents.Position(agent);
      forall id | id in cvss.pool ensures cvss.pool[id].agent != agent {
        assert id in Model().convs && Model().convs[id].agent == cvss.pool[id].agent.id.uin;
        assert agents.Model().pool[agent.id.uin].cvs == {};
      }
    }

    method AgentAbsence(id: Umid) returns (ok: bool)
      requires Valid()
      modifies agents`pool, agents`list, agents.head`next, agents.list`prev, agents.list`next
      ensures Valid()
      ensures Next(Model(), sequence.cvsSeq, Reply(ok)) ==
              Dispatch.AgentAbsence(old(Model()), old(sequence.cvsSeq), id)
    {
      hide AgentManager.Shape, AgentManager.Model, Listed, Covers, Distinct, InLoadOrder, LoadsCount, Inverse,
        Moved, TailSlot, HeadSlot, Keys, Invite, Ids, Chosen, Erase;
      ghost var q, nodes := Model(), agents.list;
      AbsenceKeeps(q, sequence.cvsSeq, id);
      agents.FindIs(id);
      var agent := agents.Find(id);
      if agent == null {
        return false;
      }
      agents.RecordOf(agent);
      if agent.load > 0 {
        return false;
      }
      NobodyLinked(agent);
      var _ := agents.Erase(agent);
      assert cvss.Model() == q.convs;
      cvss.MembersBut(nodes, agents.list, agent);
      ok := true;
    }

    method AgentRefuse(id: Umid) returns (ok: bool, invites: seq<Umid>)
      requires Valid()
      modifies agents`inviting, agents.pool.Values`state
      ensures Valid()
      ensures Next(Model(), sequence.cvsSeq, Reply(ok, invites := invites)) ==
              Dispatch.AgentRefuse(old(Model()), old(sequence.cvsSeq), id)
    {
      hide AgentManager.Shape, AgentManager.Model, Listed, Covers, Distinct, InLoadOrder, LoadsCount, Inverse,
        Moved, TailSlot, HeadSlot, Keys, Dispatch.DoInvite, Invitations, Included;
      ghost var q := Model();
      RefuseKeeps(q, sequence.cvsSeq, id);
      agents.ModelFields();
      ok := agents.Refuse(id);
      assert cvss.Model() == q.convs;
      SmallerSet(q.roster.inviting, Model().roster.inviting);
      invites := DoInvite();
    }

    static lemma SmallerSet(a: set<nat>, b: set<nat>)
      requires b <= a
      ensures |b| <= |a|
    {
      assert a == b + (a - b);
    }

    method UserJoin(id: Umid, address: nat) returns (position: uint16, invites: seq<Umid>)
      requires Valid() && |users| < 0xFFFF
      modifies this`users, agents`inviting, agents.pool.Values`state
      ensures Valid()
      ensures Next(Model(), sequence.cvsSeq, Reply(true, position := position, invites := invites)) ==
              Dispatch.UserJoin(old(Model()), old(sequence.cvsSeq), id, address)
    {
      hide AgentManager.Shape, AgentManager.Model, Listed, Covers, Distinct, InLoadOrder, LoadsCount, Inverse,
        Moved, TailSlot, HeadSlot, Keys, Dispatch.DoInvite, Invitations, Included;
      ghost var q := Model();
      JoinKeeps(q, sequence.cvsSeq, id, address);
      users := users + [User(id, address)];
      assert Model() == q.(users := users);
      invites := DoInvite();
      position := |users| % 0x1_0000;
    }

    method UserDepart(id: Umid) returns (ok: bool, told: seq<UserInfo>)
      requires Valid()
      modifies this`users
      ensures Valid()
      ensures Next(Model(), sequence.cvsSeq, Reply(ok, told := told)) ==
              Dispatch.UserDepart(old(Model()), old(sequence.cvsSeq), id)
    {
      hide AgentManager.Shape, AgentManager.Model, Listed, Covers, Distinct, InLoadOrder, LoadsCount, Inverse,
        Moved, TailSlot, HeadSlot, Keys, Dispatch.DoInvite, Invitations, Included;
      ghost var q := Model();
      var pos: uint16, length: uint16 := 0, |users| % 0x1_0000;
      while pos < length && users[pos].id != id
        invariant pos <= length == |users|
        invariant forall j :: 0 <= j < pos ==> users[j].id != id
        decreases length - pos
      {
        pos := Inc16(pos);
      }
      assert pos == FirstAt(users, id);
      if pos >= length {
        return false, [];
      }
      users := users[..pos] + users[pos + 1..];
      assert agents.Model() == q.roster && cvss.Model() == q.convs;
      told, pos := GetUserInfo(pos);
      ok := true;
    }

    // A conversation leaves its agent and the pool.
    method EraseConversation(cvs: Conversation)
      requires Shape() && Coherent(Model())
      requires cvs.cvsId in cvss.pool && cvss.pool[cvs.cvsId] == cvs
      modifies cvss, agents`list, cvs.agent`load, cvs.agent`conversations
      modifies agents.head`next, agents.list`prev, agents.list`next
      ensures Shape() && SameMembers(old(agents.list), agents.list)
      ensures cvss.pool == old(cvss.pool) - {cvs.cvsId}
      ensures Model() == Dispatch.DropConversation(old(Model()), cvs.cvsId)
    {
      hide AgentManager.Shape, AgentManager.Model, Rosters.RemoveConversation, Listed, Covers, Distinct, InLoadOrder,
        LoadsCount, Inverse, SameMembers;
      ghost var nodes, q := agents.list, Model();
      LinkedRecord(cvs);
      cvss.Erase(cvs, agents);
      assert cvss.LinkedTo(nodes);
      cvss.SameNodesStay(nodes, agents.list);
    }

    /** Ends a conversation, yet always answers false and invites nobody. */
    method ConversationEnd(cvsId: nat) returns (ok: bool, ended: Option<(Umid, UserConversation)>)
      requires Valid()
      modifies cvss, agents`list, agents.pool.Values`load, agents.pool.Values`conversations
      modifies agents.head`next, agents.list`prev, agents.list`next
      ensures Valid()
      ensures Next(Model(), sequence.cvsSeq, Reply(ok, ended := ended)) ==
              Dispatch.ConversationEnd(old(Model()), old(sequence.cvsSeq), cvsId)
    {
      hide AgentManager.Shape, AgentManager.Model, Listed, Covers, Distinct, InLoadOrder, LoadsCount, Inverse,
        Moved, TailSlot, HeadSlot, Keys, Dispatch.DoInvite, Invitations, Included, SameMembers, Dispatch.DropConversation;
      ghost var q := Model();
      EndKeeps(q, sequence.cvsSeq, cvsId);
      var cvs := cvss.Find(cvsId);
      if cvs == null {
        return false, None;
      }
      LinkedRecord(cvs);
      ended := Some((cvs.agent.id, UserConversation(cvs.user.id, cvsId)));
      EraseConversation(cvs);
      ok := false;
    }

    // What the model knows of a pooled conversation.
    lemma LinkedRecord(cvs: Conversation)
      requires Shape() && cvs.cvsId in cvss.pool && cvss.pool[cvs.cvsId] == cvs
      ensures cvs.cvsId in Model().convs && Model().convs[cvs.cvsId] == cvs.Rec()
      ensures cvs.agent in agents.list && cvs.agent.id.uin in Model().roster.pool
      ensures Model().roster.pool[cvs.agent.id.uin].id == cvs.agent.id && cvs.agent in agents.pool.Values
    {
      agents.RecordOf(cvs.agent);
    }

    method AgentRedirect(cvsId: nat, from: Umid, to: Umid) returns (ok: bool, invites: seq<Umid>)
      requires Valid() && Room(Model(), sequence.cvsSeq, Redirect(cvsId, from, to))
      modifies cvss.pool.Values`agent, agents`list, agents`inviting
      modifies agents.pool.Values`state, agents.pool.Values`load, agents.pool.Values`conversations
      modifies agents.head`next, agents.list`prev, agents.list`next
      ensures Valid()
      ensures Next(Model(), sequence.cvsSeq, Reply(ok, invites := invites)) ==
              Dispatch.AgentRedirect(old(Model()), old(sequence.cvsSeq), cvsId, from, to)
    {
      hide AgentManager.Shape, AgentManager.Model, Listed, Covers, Distinct, InLoadOrder, LoadsCount, Inverse,
        Dispatch.DoInvite, Invitations, HandOver;
      RedirectKeeps(Model(), sequence.cvsSeq, cvsId, from, to);
      agents.FindIs(from);
      agents.FindIs(to);
      var agentFrom := agents.Find(from);
      if agentFrom == null {
        return false, [];
      }
      var agentTo := agents.Find(to);
      if agentTo == null {
        return false, [];
      }
      ok, invites := RedirectBetween(cvsId, agentFrom, agentTo);
    }

    method RedirectBetween(cvsId: nat, from: Agent, to: Agent) returns (ok: bool, invites: seq<Umid>)
      requires Shape() && Bounded(Model()) && from in agents.list && to in agents.list
      modifies cvss.pool.Values`agent, agents`list, agents`inviting, agents.pool.Values`state
      modifies from`load, from`conversations, to`load, to`conversations
      modifies agents.head`next, agents.list`prev, agents.list`next
      ensures Shape()
      ensures ok <==> cvsId in old(Model()).convs && old(Model()).convs[cvsId].agent == from.id.uin
      ensures !ok ==> Model() == old(Model()) && invites == []
      ensures ok ==> IsRedirect(old(Model()), Model(), invites, cvsId, from.id.uin, to.id.uin)
    {
      hide AgentManager.Shape, AgentManager.Model, Listed, Covers, Distinct, Dispatch.DoInvite, Invitations, HandOver,
        SameMembers;
      ok := RedirectConversation(cvsId, from, to);
      invites := [];
      if ok {
        invites := DoInvite();
      }
    }

    ghost predicate IsRedirect(q: State, q': State, invites: seq<Umid>, cvsId: nat, from: nat, to: nat) {
      && Agrees(q.roster) && cvsId in q.convs && from in q.roster.pool && to in q.roster.pool
      && q' == Dispatch.DoInvite(HandOver(q, cvsId, from, to))
      && invites == Invitations(HandOver(q, cvsId, from, to))
    }

    // The redirect itself, before anybody is invited.
    method RedirectConversation(cvsId: nat, from: Agent, to: Agent) returns (ok: bool)
      requires Shape() && from in agents.list && to in agents.list
      modifies cvss.pool.Values`agent, agents`list, from`load, from`conversations, to`load, to`conversations
      modifies agents.head`next, agents.list`prev, agents.list`next
      ensures Shape() && SameMembers(old(agents.list), agents.list)
      ensures ok <==> cvsId in old(Model()).convs && old(Model()).convs[cvsId].agent == from.id.uin
      ensures Model().roster.inviting == old(Model()).roster.inviting && Model().users == old(Model()).users
      ensures !ok ==> Model() == old(Model())
      ensures ok ==> IsHandOver(old(Model()), Model(), cvsId, from.id.uin, to.id.uin)
    {
      hide AgentManager.Shape, AgentManager.Model, Agrees, SameMembers, HandedOver, Reassigned, HandOver;
      ghost var q, nodes := Model(), agents.list;
      OwnerIs(cvsId, from);
      var cvs := cvss.Redirect(cvsId, from, to, agents);
      assert cvss.LinkedTo(nodes);
      cvss.SameNodesStay(nodes, agents.list);
      ok := cvs != null;
      if ok {
        HandOverStep(q, Model(), cvsId, from.id.uin, to.id.uin);
      }
    }

    ghost predicate IsHandOver(q: State, q': State, cvsId: nat, from: nat, to: nat) {
      && Agrees(q.roster) && cvsId in q.convs && from in q.roster.pool && to in q.roster.pool
      && q' == HandOver(q, cvsId, from, to)
    }

    // The conversation's node is the agent's exactly when the account is.
    lemma OwnerIs(cvsId: nat, agent: Agent)
      requires Shape() && agent in agents.list
      ensures cvsId in cvss.pool <==> cvsId in Model().convs
      ensures cvsId in cvss.pool ==>
                (cvss.pool[cvsId].agent == agent <==> Model().convs[cvsId].agent == agent.id.uin)
    {
      if cvsId in cvss.pool {
        var i := agents.Position(agent);
        var j := agents.Position(cvss.pool[cvsId].agent);
      }
    }

    /** The invited agent takes the user at the front. */
    method AgentAccept(id: Umid)
      returns (ok: bool, accepted: Option<ConversationInfo>, invites: seq<Umid>, told: seq<UserInfo>)
      requires Valid() && Room(Model(), sequence.cvsSeq, Accept(id))
      modifies this`users, sequence`cvsSeq, cvss, agents`list, agents`inviting
      modifies agents.pool.Values`state, agents.pool.Values`load, agents.pool.Values`conversations
      modifies agents.head`next, agents.list`prev, agents.list`next
      ensures Valid()
      ensures Next(Model(), sequence.cvsSeq, Reply(ok, invites := invites, told := told, accepted := accepted)) ==
              Dispatch.AgentAccept(old(Model()), old(sequence.cvsSeq), id)
    {
      hide AgentManager.Shape, AgentManager.Model, Listed, Covers, Distinct, InLoadOrder, LoadsCount, Inverse,
        Dispatch.Serve;
      ghost var q := Model();
      AcceptKeeps(q, sequence.cvsSeq, id);
      agents.ModelFields();
      var agent := agents.Accept(id);
      assert cvss.Model() == q.convs;
      if agent == null || users == [] {
        return false, None, [], [];
      }
      SmallerSet(q.roster.inviting, Model().roster.inviting);
      agents.RecordOf(agent);
      ok, accepted, invites, told := Serve(agent);
    }

    method Serve(agent: Agent)
      returns (ok: bool, accepted: Option<ConversationInfo>, invites: seq<Umid>, told: seq<UserInfo>)
      requires Shape() && Bounded(Model()) && agent in agents.list && users != []
      modifies this`users, sequence`cvsSeq, cvss, agents`list, agents`inviting
      modifies agents.pool.Values`state, agent`load, agent`conversations
      modifies agents.head`next, agents.list`prev, agents.list`next
      ensures Shape()
      ensures IsServed(old(Model()), old(sequence.cvsSeq), agent.id.uin,
                       Next(Model(), sequence.cvsSeq, Reply(ok, invites := invites, told := told, accepted := accepted)))
    {
      hide AgentManager.Shape, AgentManager.Model, Listed, Covers, Distinct, Dispatch.DoInvite, Invitations,
        Dispatch.Connect, Positions, SameMembers;
      ghost var q := Model();
      agents.RecordOf(agent);
      var cvsId := sequence.NextCvs();
      assert Model() == q;
      var cvs := Connect(agent, cvsId);
      if cvs == null {
        return false, None, [], [];
      }
      accepted := Some(ConversationInfo(cvs.cvsId, cvs.agent.id, cvs.agent.name, cvs.user.id, cvs.user.address));
      invites, told := InviteAndInform();
      ok := true;
    }

    method InviteAndInform() returns (invites: seq<Umid>, told: seq<UserInfo>)
      requires Shape() && Bounded(Model())
      modifies agents`inviting, agents.pool.Values`state
      ensures Shape()
      ensures Model() == Dispatch.DoInvite(old(Model())) && invites == Invitations(old(Model()))
      ensures told == Positions(users, 0)
    {
      hide AgentManager.Shape, AgentManager.Model, Agrees, Dispatch.DoInvite, Invitations, Positions;
      invites := DoInvite();
      var num;
      told, num := GetUserInfo(0);
    }

    ghost predicate IsServed(q: State, counter: nat, u: nat, next: Next) {
      && Agrees(q.roster) && u in q.roster.pool && q.users != []
      && next == Dispatch.Serve(q, counter, u)
    }

    // The front user leaves the line and is linked to the agent by a new conversation.
    method Connect(agent: Agent, cvsId: nat) returns (cvs: Conversation?)
      requires Shape() && agent in agents.list && users != []
      modifies this`users, cvss, agents`list, agent`load, agent`conversations
      modifies agents.head`next, agents.list`prev, agents.list`next
      ensures Shape()
      ensures cvs == null <==> cvsId in old(Model()).convs
      ensures cvs == null ==> Model() == old(Model())
      ensures cvs != null ==>
                && cvs.cvsId == cvsId && cvs.agent == agent && cvs.user == old(users)[0]
                && IsConnected(old(Model()), Model(), agent.id.uin, cvsId)
    {
      hide AgentManager.Shape, AgentManager.Model, Rosters.AddConversation, Agrees, SameMembers, Dispatch.Connect,
        IsConnected;
      ghost var q := Model();
      agents.RecordOf(agent);
      cvs := InsertConversation(agent, cvsId);
      if cvs == null {
        return;
      }
      TakeFront();
      AddToAgent(agent, cvsId);
      ConnectStep(q, Model(), agent.id.uin, cvsId);
    }

    method TakeFront()
      requires Shape() && users != []
      modifies this`users
      ensures Shape() && users == old(users)[1..]
      ensures agents.Model() == old(agents.Model()) && cvss.Model() == old(cvss.Model())
    {
      hide AgentManager.Shape, AgentManager.Model, Agrees;
      users := users[1..];
    }

    static lemma ConnectStep(q: State, q': State, u: nat, cvsId: nat)
      requires Agrees(q.roster) && u in q.roster.pool && q.users != []
      requires q'.queueId == q.queueId && q'.users == q.users[1..]
      requires q'.roster == Rosters.AddConversation(q.roster, u, cvsId)
      requires q'.convs == q.convs[cvsId := ConvRec(q.queueId, u, q.users[0])]
      ensures IsConnected(q, q', u, cvsId)
    {
      hide Agrees, Rosters.AddConversation;
      AddKeepsInviting(q.roster, u, cvsId);
    }

    // The conversation with the front user enters the pool, if its id is free.
    method InsertConversation(agent: Agent, cvsId: nat) returns (cvs: Conversation?)
      requires Shape() && agent in agents.list && users != []
      modifies cvss
      ensures Shape() && agents.Model() == old(agents.Model())
      ensures cvs == null <==> cvsId in old(Model()).convs
      ensures cvs == null ==> Model() == old(Model())
      ensures cvs != null ==>
                && cvs.cvsId == cvsId && cvs.agent == agent && cvs.user == users[0]
                && cvss.Model() == old(cvss.Model())[cvsId := ConvRec(queueId, agent.id.uin, users[0])]
    {
      hide AgentManager.Shape, AgentManager.Model, Agrees;
      cvs := cvss.Insert(cvsId, queueId, agent, users[0]);
    }

    // The agent's own part of a new conversation.
    method AddToAgent(agent: Agent, cvsId: nat)
      requires Shape() && agent in agents.list
      modifies agents`list, agent`load, agent`conversations
      modifies agents.head`next, agents.list`prev, agents.list`next
      ensures Shape() && SameMembers(old(agents.list), agents.list)
      ensures cvss.Model() == old(cvss.Model())
      ensures agents.Model() == Rosters.AddConversation(old(agents.Model()), agent.id.uin, cvsId)
    {
      hide AgentManager.Shape, AgentManager.Model, Rosters.AddConversation, Agrees, SameMembers;
      ghost var convs, nodes := cvss.Model(), agents.list;
      agents.RecordOf(agent);
      var _ := agents.AddConversation(agent, cvsId);
      assert cvss.Model() == convs;
      cvss.SameNodesStay(nodes, agents.list);
    }

    static ghost predicate IsConnected(q: State, q': State, u: nat, cvsId: nat) {
      && Agrees(q.roster) && u in q.roster.pool && q.users != []
      && q' == Dispatch.Connect(q, cvsId, u)
      && q'.roster.inviting == q.roster.inviting && q'.users == q.users[1..]
    }

    /** An agent goes offline: its users return to the front, and it leaves pool and list. */
    method AgentOffline(id: Umid) returns (ok: bool, returned: seq<UserConversation>, invites: seq<Umid>)
      requires Valid() && Room(Model(), sequence.cvsSeq, Offline(id))
      modifies this`users, cvss, agents
      modifies agents.pool.Values`state, agents.pool.Values`load, agents.pool.Values`conversations
      modifies agents.head`next, agents.list`prev, agents.list`next
      ensures Valid()
      ensures Next(Model(), sequence.cvsSeq, Reply(ok, invites := invites, returned := returned)) ==
              Dispatch.AgentOffline(old(Model()), old(sequence.cvsSeq), id)
    {
      hide AgentManager.Shape, AgentManager.Model, Listed, Covers, Distinct, InLoadOrder, LoadsCount, Inverse,
        Dispatch.DoInvite, Invitations, Drain, Rosters.Erase, Returned, Ascending, Backwards;
      ghost var q := Model();
      OfflineKeeps(q, sequence.cvsSeq, id);
      agents.FindIs(id);
      var agent := agents.Find(id);
      if agent == null {
        return false, [], [];
      }
      OfflineDrains(q, sequence.cvsSeq, id);
      returned := Leave(agent);
      invites := DoInvite();
      ok := true;
    }

    // Everything of the agent goes.
    method Leave(agent: Agent) returns (returned: seq<UserConversation>)
      requires Shape() && Coherent(Model()) && agent in agents.list
      modifies this`users, cvss, agents`pool, agents`list
      modifies agents.pool.Values`load, agents.pool.Values`conversations
      modifies agents.head`next, agents.list`prev, agents.list`next
      ensures Shape() && agents.pool == old(agents.pool) - {agent.id.uin}
      ensures IsLeft(old(Model()), Model(), agent.id.uin, returned)
    {
      hide AgentManager.Shape, AgentManager.Model, Listed, Covers, Distinct, InLoadOrder, LoadsCount, Inverse,
        Drain, Rosters.Erase, Returned, SameMembers, Ascending;
      ghost var q, nodes := Model(), agents.list;
      agents.RecordOf(agent);
      DrainAgent(q, agent.id.uin);
      LeavingKeepsInviting(q, agent.id.uin);
      returned := DrainConversations(agent);
      SameMembersIn(nodes, agents.list, agent);
      agents.RecordOf(agent);
      EraseAgent(agent);
    }

    static lemma LeavingKeepsInviting(q: State, u: nat)
      requires Coherent(q) && u in q.roster.pool
      ensures WithoutAgent(q, u).roster.inviting == q.roster.inviting
    {
    }

    ghost predicate IsLeft(q: State, q': State, u: nat, returned: seq<UserConversation>) {
      && Coherent(q) && u in q.roster.pool
      && q' == WithoutAgent(q, u) && q'.roster.inviting == q.roster.inviting
      && returned == Returned(q.convs, Ascending(q.roster.pool[u].cvs))
    }

    // The loop over the agent's conversations, from the oldest to the latest.
    method DrainConversations(agent: Agent) returns (returned: seq<UserConversation>)
      requires Shape() && Coherent(Model()) && agent in agents.list
      modifies this`users, cvss, agents`list, agents.pool.Values`load, agents.pool.Values`conversations
      modifies agents.head`next, agents.list`prev, agents.list`next
      ensures Shape() && agent in agents.list && SameMembers(old(agents.list), agents.list)
      ensures Model() == Drain(old(Model()), Ascending(old(agent.conversations)))
      ensures returned == Returned(old(Model()).convs, Ascending(old(agent.conversations)))
    {
      hide AgentManager.Shape, AgentManager.Model, SameMembers, Ascending, DrainPending, Coherent;
      ghost var q, nodes := Model(), agents.list;
      SameMembersSelf(nodes);
      var ids, n := Ascending(agent.conversations), 0;
      returned := [];
      PendingAll(q, ids);
      while n < |ids|
        invariant 0 <= n <= |ids|
        invariant Shape() && SameMembers(nodes, agents.list) && agent in agents.list
        invariant agents.pool == old(agents.pool)
        invariant Coherent(Model()) && DrainPending(q, Model(), returned, ids, n)
        decreases |ids| - n
      {
        PendingOneLess(q, Model(), returned, ids, n);
        SameMembersIn(nodes, agents.list, agent);
        ghost var nodes1 := agents.list;
        var one := ReturnUser(ids[n]);
        SameMembersTrans(nodes, nodes1, agents.list);
        SameMembersIn(nodes1, agents.list, agent);
        returned := returned + one;
        n := n + 1;
      }
      PendingNone(q, Model(), returned, ids);
    }

    // The loop is at the n-th conversation: what is left to do leads to the same end.
    static ghost predicate DrainPending(q0: State, q: State, returned: seq<UserConversation>, ids: seq<nat>, n: nat)
      requires Coherent(q0) && Coherent(q) && n <= |ids|
    {
      && Drain(q, ids[n..]) == Drain(q0, ids)
      && returned + Returned(q.convs, ids[n..]) == Returned(q0.convs, ids)
    }

    static lemma PendingAll(q: State, ids: seq<nat>)
      requires Coherent(q)
      ensures DrainPending(q, q, [], ids, 0)
    {
      hide Sound;
      assert ids[0..] == ids;
    }

    static function OneReturned(convs: map<nat, ConvRec>, id: nat): seq<UserConversation> {
      if id in convs then [UserConversation(convs[id].user.id, id)] else []
    }

    static lemma PendingOneLess(q0: State, q: State, returned: seq<UserConversation>, ids: seq<nat>, n: nat)
      requires Coherent(q0) && Coherent(q) && n < |ids| && DrainPending(q0, q, returned, ids, n)
      ensures DrainPending(q0, Requeue(q, ids[n]), returned + OneReturned(q.convs, ids[n]), ids, n + 1)
    {
      hide Sound, RemoveConversation;
      var one, rest := OneReturned(q.convs, ids[n]), Returned(Requeue(q, ids[n]).convs, ids[n + 1..]);
      assert ids[n..][0] == ids[n] && ids[n..][1..] == ids[n + 1..];
      assert Returned(q.convs, ids[n..]) == one + rest;
      assert returned + one + rest == returned + (one + rest);
    }

    static lemma PendingNone(q0: State, q: State, returned: seq<UserConversation>, ids: seq<nat>)
      requires Coherent(q0) && Coherent(q) && DrainPending(q0, q, returned, ids, |ids|)
      ensures q == Drain(q0, ids) && returned == Returned(q0.convs, ids)
    {
      hide Sound;
      assert ids[|ids|..] == [];
      assert returned + [] == returned;
    }

    // One turn of the loop: an id without a conversation is passed over.
    method ReturnUser(cvsId: nat) returns (one: seq<UserConversation>)
      requires Shape() && Coherent(Model())
      modifies this`users, cvss, agents`list, agents.pool.Values`load, agents.pool.Values`conversations
      modifies agents.head`next, agents.list`prev, agents.list`next
      ensures Shape() && SameMembers(old(agents.list), agents.list)
      ensures Model() == Requeue(old(Model()), cvsId)
      ensures one == OneReturned(old(Model()).convs, cvsId)
    {
      hide AgentManager.Shape, AgentManager.Model, Sound, SameMembers, DropConversation;
      SameMembersSelf(agents.list);
      var cvs := cvss.Find(cvsId);
      if cvs == null {
        return [];
      }
      LinkedRecord(cvs);
      one := [UserConversation(cvs.user.id, cvs.cvsId)];
      RequeueConversation(cvs);
    }

    method RequeueConversation(cvs: Conversation)
      requires Shape() && Coherent(Model())
      requires cvs.cvsId in cvss.pool && cvss.pool[cvs.cvsId] == cvs
      modifies this`users, cvss, agents`list, cvs.agent`load, cvs.agent`conversations
      modifies agents.head`next, agents.list`prev, agents.list`next
      ensures Shape() && SameMembers(old(agents.list), agents.list)
      ensures Model() == Requeue(old(Model()), cvs.cvsId)
    {
      hide AgentManager.Shape, AgentManager.Model, Sound, SameMembers, Rosters.RemoveConversation;
      ghost var q := Model();
      LinkedRecord(cvs);
      users := [cvs.user] + users;
      assert Model() == q.(users := users);
      EraseConversation(cvs);
    }

    // The drained agent leaves pool and list.
    method EraseAgent(agent: Agent)
      requires Shape() && Coherent(Model()) && agent in agents.list && agent.load == 0
      modifies agents`pool, agents`list, agents.head`next, agents.list`prev, agents.list`next
      ensures Shape() && agents.pool == old(agents.pool) - {agent.id.uin}
      ensures agent.id.uin in old(Model()).roster.pool && Agrees(old(Model()).roster)
      ensures Model() == old(Model()).(roster := Rosters.Erase(old(Model()).roster, agent.id.uin))
    {
      hide AgentManager.Shape, AgentManager.Model, Listed, Covers, Distinct, InLoadOrder, LoadsCount, Inverse,
        Without, IndexOf;
      ghost var convs, nodes := cvss.Model(), agents.list;
      agents.RecordOf(agent);
      NobodyLinked(agent);
      var _ := agents.Erase(agent);
      assert cvss.Model() == convs;
      cvss.MembersBut(nodes, agents.list, agent);
    }

    /** Every pooled agent once, under its login and name; lighter agents first and, at equal load, those
        with the larger capacity. */
    static ghost predicate IsListing(pool: map<nat, AgentRec>, infos: seq<AgentInfo>) {
      && (forall k :: 0 <= k < |infos| ==>
            && infos[k].mid.uin in pool
            && infos[k].mid == pool[infos[k].mid.uin].id && infos[k].name == pool[infos[k].mid.uin].name)
      && (forall u :: u in pool ==> exists k :: 0 <= k < |infos| && infos[k].mid.uin == u)
      && (forall i, j :: 0 <= i < j < |infos| ==>
            && infos[i].mid.uin != infos[j].mid.uin
            && var a, b := pool[infos[i].mid.uin], pool[infos[j].mid.uin];
               a.load < b.load || (a.load == b.load && a.capacity >= b.capacity))
    }

    static lemma Listing(r: Roster, infos: seq<AgentInfo>)
      requires Wf(r) && |infos| == |r.order|
      requires forall k :: 0 <= k < |infos| ==>
                 r.order[k] in r.pool && infos[k] == AgentInfo(r.pool[r.order[k]].id, r.pool[r.order[k]].name)
      ensures IsListing(r.pool, infos)
    {
      hide InLoadOrder;
      LightestFirst(r);
      forall k | 0 <= k < |infos| ensures infos[k].mid.uin == r.order[k] {
      }
    }

    /** The agents, each once and in load order. */
    method AgentList() returns (infos: seq<AgentInfo>, num: uint16)
      requires Valid() && |agents.list| <= 0xFFFF
      ensures num == |Model().roster.order| && |infos| == num
      ensures forall k :: 0 <= k < |infos| ==>
                var a := Model().roster.pool[Model().roster.order[k]];
                infos[k] == AgentInfo(a.id, a.name)
      ensures IsListing(Model().roster.pool, infos)
    {
      hide AgentManager.Shape, AgentManager.Model, Distinct, Covers, InLoadOrder, LoadsCount, Inverse, IsListing;
      infos, num := agents.GetList();
      Listing(Model().roster, infos);
    }
  }
}
