/** The conversations of one queue, each linked back to its agent. */
module Conversations {
  import opened Types
  import opened LoadOrder
  import opened Rosters
  import opened Dispatch
  import opened Agents

  class Conversation {
    const cvsId: nat
    const queueId: nat
    const user: User
    var agent: Agent

    constructor (cvsId: nat, queueId: nat, agent: Agent, user: User)
      ensures this.cvsId == cvsId && this.queueId == queueId && this.agent == agent && this.user == user
    {
      this.cvsId, this.queueId, this.agent, this.user := cvsId, queueId, agent, user;
    }

    ghost function Rec(): ConvRec
      reads this`agent
    {
      ConvRec(queueId, agent.id.uin, user)
    }
  }

  ghost function ConvRecs(pool: map<nat, Conversation>): (recs: map<nat, ConvRec>)
    reads pool.Values`agent
    ensures recs.Keys == pool.Keys
    ensures forall id :: id in pool ==> recs[id] == pool[id].Rec()
  {
    map id | id in pool :: pool[id].Rec()
  }

  // The conversation changes owner, and nothing else changes.
  ghost predicate Reassigned(convs: map<nat, ConvRec>, convs': map<nat, ConvRec>, id: nat, to: nat) {
    id in convs && convs' == convs[id := convs[id].(agent := to)]
  }

  // The conversation leaves one agent's set and enters the other's.
  ghost predicate HandedOver(r: Roster, r': Roster, id: nat, from: nat, to: nat) {
    && Agrees(r) && from in r.pool && to in r.pool
    && var r1 := RemoveConversation(r, from, id);
    && Agrees(r1) && to in r1.pool
    && r' == AddConversation(r1, to, id)
  }

  lemma HandOverStep(q: State, q': State, id: nat, from: nat, to: nat)
    requires q'.queueId == q.queueId && q'.users == q.users
    requires HandedOver(q.roster, q'.roster, id, from, to) && Reassigned(q.convs, q'.convs, id, to)
    ensures Agrees(q.roster) && id in q.convs && from in q.roster.pool && to in q.roster.pool
    ensures q' == HandOver(q, id, from, to) && q'.roster.inviting == q.roster.inviting
  {
    hide Distinct, Listed, Covers, IndexOf, Keys, Moved, TailSlot, HeadSlot;
  }

  class ConversationManager {
    var pool: map<nat, Conversation>

    /** Each conversation is pooled under its own id. */
    ghost predicate Valid()
      reads this
    {
      forall id :: id in pool ==> pool[id].cvsId == id
    }

    ghost function Model(): map<nat, ConvRec>
      reads this, pool.Values`agent
    {
      ConvRecs(pool)
    }

    /** Every conversation's agent is one of the given nodes. */
    ghost predicate LinkedTo(nodes: seq<Agent>)
      reads this, pool.Values`agent
    {
      forall id :: id in pool ==> pool[id].agent in nodes
    }

    lemma SameNodesStay(nodes: seq<Agent>, nodes': seq<Agent>)
      requires LinkedTo(nodes) && SameMembers(nodes, nodes')
      ensures LinkedTo(nodes')
    {
    }

    lemma StillMembers(nodes: seq<Agent>, nodes': seq<Agent>)
      requires LinkedTo(nodes) && Included(nodes, nodes')
      ensures LinkedTo(nodes')
    {
    }

    lemma MembersBut(nodes: seq<Agent>, nodes': seq<Agent>, agent: Agent)
      requires LinkedTo(nodes) && forall id :: id in pool ==> pool[id].agent != agent
      requires forall k :: 0 <= k < |nodes| ==> nodes[k] == agent || nodes[k] in nodes'
      ensures LinkedTo(nodes')
    {
    }

    constructor ()
      ensures Valid() && pool == map[]
    {
      pool := map[];
    }

    function Find(cvsId: nat): Conversation?
      reads this
    {
      if cvsId in pool then pool[cvsId] else null
    }

    method Insert(cvsId: nat, queueId: nat, agent: Agent, user: User) returns (cvs: Conversation?)
      requires Valid()
      modifies this
      ensures Valid()
      ensures cvs == null <==> cvsId in old(pool)
      ensures cvs == null ==> pool == old(pool)
      ensures cvs != null ==>
                && fresh(cvs) && pool == old(pool)[cvsId := cvs]
                && cvs.cvsId == cvsId && cvs.agent == agent && cvs.user == user
                && Model() == old(Model())[cvsId := ConvRec(queueId, agent.id.uin, user)]
    {
      if cvsId in pool {
        return null;
      }
      cvs := new Conversation(cvsId, queueId, agent, user);
      pool := pool[cvsId := cvs];
    }

    /** The conversation leaves its agent, then the pool. */
    method Erase(cvs: Conversation, agents: AgentManager)
      requires Valid() && cvs.cvsId in pool && pool[cvs.cvsId] == cvs
      requires agents.Valid() && cvs.agent in agents.list
      modifies this, agents`list, cvs.agent`load, cvs.agent`conversations
      modifies agents.head`next, agents.list`prev, agents.list`next
      ensures Valid() && agents.Valid() && SameMembers(old(agents.list), agents.list)
      ensures pool == old(pool) - {cvs.cvsId} && Model() == old(Model()) - {cvs.cvsId}
      ensures agents.Model() == Rosters.RemoveConversation(old(agents.Model()), cvs.agent.id.uin, cvs.cvsId)
    {
      hide AgentManager.Shape, AgentManager.Model, Rosters.RemoveConversation, SameMembers, Agrees;
      TakeFrom(cvs.agent, cvs.cvsId, agents);
      Unpool(cvs.cvsId, agents);
    }

    method Unpool(cvsId: nat, agents: AgentManager)
      requires Valid() && agents.Valid()
      modifies this
      ensures Valid() && agents.Valid() && agents.Model() == old(agents.Model())
      ensures pool == old(pool) - {cvsId} && Model() == old(Model()) - {cvsId}
    {
      hide AgentManager.Shape, AgentManager.Model, Agrees;
      pool := pool - {cvsId};
    }

    /** The conversation leaves `from` and joins `to`, provided it is there and belongs to `from`. */
    method Redirect(cvsId: nat, from: Agent, to: Agent, agents: AgentManager) returns (cvs: Conversation?)
      requires Valid() && agents.Valid() && from in agents.list && to in agents.list
      modifies pool.Values`agent, agents`list, from`load, from`conversations, to`load, to`conversations
      modifies agents.head`next, agents.list`prev, agents.list`next
      ensures Valid() && agents.Valid() && SameMembers(old(agents.list), agents.list)
      ensures cvs == if cvsId in pool && old(pool[cvsId].agent) == from then pool[cvsId] else null
      ensures cvs == null ==> Model() == old(Model()) && agents.Model() == old(agents.Model())
      ensures cvs != null ==>
                && Reassigned(old(Model()), Model(), cvsId, to.id.uin)
                && HandedOver(old(agents.Model()), agents.Model(), cvsId, from.id.uin, to.id.uin)
      ensures forall id :: id in pool ==> pool[id].agent == old(pool[id].agent) || pool[id].agent == to
    {
      hide AgentManager.Shape, AgentManager.Model, SameMembers, Reassigned, HandedOver;
      SameMembersSelf(agents.list);
      cvs := Find(cvsId);
      if cvs == null || cvs.agent != from {
        return null;
      }
      Move(cvs, from, to, agents);
    }

    // The owner changes: out of one agent's set, the back link, into the other's.
    method Move(cvs: Conversation, from: Agent, to: Agent, agents: AgentManager)
      requires Valid() && agents.Valid() && from in agents.list && to in agents.list
      requires cvs.cvsId in pool && pool[cvs.cvsId] == cvs
      modifies cvs`agent, agents`list, from`load, from`conversations, to`load, to`conversations
      modifies agents.head`next, agents.list`prev, agents.list`next
      ensures agents.Valid() && SameMembers(old(agents.list), agents.list)
      ensures cvs.agent == to && Reassigned(old(Model()), Model(), cvs.cvsId, to.id.uin)
      ensures HandedOver(old(agents.Model()), agents.Model(), cvs.cvsId, from.id.uin, to.id.uin)
    {
      hide AgentManager.Shape, AgentManager.Model, Agrees, Rosters.RemoveConversation, Rosters.AddConversation,
        SameMembers, Reassigned, ConvRecs;
      ghost var nodes := agents.list;
      agents.RecordOf(from);
      agents.RecordOf(to);
      TakeFrom(from, cvs.cvsId, agents);
      ghost var nodes1 := agents.list;
      SameMembersIn(nodes, nodes1, to);
      agents.RecordOf(to);
      ReassignBeside(cvs, to, agents);
      GiveTo(to, cvs.cvsId, agents);
      SameMembersTrans(nodes, nodes1, agents.list);
    }

    // The agents' two ends of a redirect leave the conversations as they are.
    method TakeFrom(from: Agent, cvsId: nat, agents: AgentManager)
      requires agents.Valid() && from in agents.list
      modifies agents`list, from`load, from`conversations
      modifies agents.head`next, agents.list`prev, agents.list`next
      ensures agents.Valid() && from in agents.list && SameMembers(old(agents.list), agents.list)
      ensures agents.Model() == Rosters.RemoveConversation(old(agents.Model()), from.id.uin, cvsId)
      ensures Model() == old(Model())
    {
      hide AgentManager.Shape, AgentManager.Model, Agrees, Rosters.RemoveConversation, SameMembers;
      ghost var recs := ConvRecs(pool);
      var _ := agents.RemoveConversation(from, cvsId);
      assert ConvRecs(pool) == recs;
    }

    method GiveTo(to: Agent, cvsId: nat, agents: AgentManager)
      requires agents.Valid() && to in agents.list
      modifies agents`list, to`load, to`conversations
      modifies agents.head`next, agents.list`prev, agents.list`next
      ensures agents.Valid() && to in agents.list && SameMembers(old(agents.list), agents.list)
      ensures agents.Model() == Rosters.AddConversation(old(agents.Model()), to.id.uin, cvsId)
      ensures Model() == old(Model())
    {
      hide AgentManager.Shape, AgentManager.Model, Agrees, Rosters.AddConversation, SameMembers;
      ghost var recs := ConvRecs(pool);
      var _ := agents.AddConversation(to, cvsId);
      assert ConvRecs(pool) == recs;
    }

    // The back link is none of the agents' concern.
    method ReassignBeside(cvs: Conversation, to: Agent, agents: AgentManager)
      requires Valid() && cvs.cvsId in pool && pool[cvs.cvsId] == cvs && agents.Valid()
      modifies cvs`agent
      ensures cvs.agent == to && Reassigned(old(Model()), Model(), cvs.cvsId, to.id.uin)
      ensures agents.Valid() && agents.Model() == old(agents.Model())
    {
      hide AgentManager.Shape, AgentManager.Model, Agrees, ConvRecs, Reassigned;
      Reassign(cvs, to);
    }

    // The conversation's back link moves to another agent.
    method Reassign(cvs: Conversation, to: Agent)
      requires Valid() && cvs.cvsId in pool && pool[cvs.cvsId] == cvs
      modifies cvs`agent
      ensures cvs.agent == to && Reassigned(old(Model()), Model(), cvs.cvsId, to.id.uin)
    {
      cvs.agent := to;
      forall id | id in pool && id != cvs.cvsId ensures pool[id].Rec() == old(pool[id].Rec()) {
        assert pool[id].cvsId == id;
      }
    }
  }
}
