/** Every operation keeps a queue coherent: agents and conversations stay exact inverses, the
    load counts the conversations, the list names each pooled agent once and in load order, the
    counters do not overflow, and conversation ids stay below the shared counter. */
module Invariants {
  import opened Types
  import opened LoadOrder
  import opened Rosters
  import opened Dispatch

  ghost predicate Invariant(q: State, counter: nat) {
    Coherent(q) && Bounded(q) && Issued(q, counter)
  }

  // ---- who is invited ----

  lemma {:induction false} EligiblesDistinct(order: seq<nat>, pool: map<nat, AgentRec>, inviting: set<nat>)
    requires Listed(order, pool) && Distinct(order)
    ensures Distinct(Eligibles(order, pool, inviting))
    decreases |order|
  {
    if order != [] {
      EligiblesDistinct(order[..|order| - 1], pool, inviting);
    }
  }

  lemma {:induction false} DistinctSize(s: seq<nat>)
    requires Distinct(s)
    ensures |ToSet(s)| == |s|
    decreases |s|
  {
    if s != [] {
      var rest, x := s[..|s| - 1], s[|s| - 1];
      DistinctSize(rest);
      assert ToSet(s) == ToSet(rest) + {x};
    } else {
      assert ToSet(s) == {};
    }
  }

  /** The invitations sent are new, one for each agent chosen. */
  lemma ChosenCount(r: Roster, waiting: nat)
    requires Agrees(r)
    ensures Distinct(Chosen(r, waiting))
    ensures ToSet(Chosen(r, waiting)) !! r.inviting
    ensures |Invite(r, waiting).inviting| == |r.inviting| + |Chosen(r, waiting)|
  {
    EligiblesDistinct(r.order, r.pool, r.inviting);
    DistinctSize(Chosen(r, waiting));
    forall u | u in Chosen(r, waiting) ensures u !in r.inviting {
      assert r.pool[u].id.uin == u;
    }
  }

  lemma MarkInverse(pool: map<nat, AgentRec>, convs: map<nat, ConvRec>, chosen: seq<nat>)
    requires LoadsCount(pool) && Inverse(pool, convs)
    ensures LoadsCount(Mark(pool, chosen)) && Inverse(Mark(pool, chosen), convs)
  {
    assert forall u :: u in pool ==>
        Mark(pool, chosen)[u].cvs == pool[u].cvs && Mark(pool, chosen)[u].load == pool[u].load;
  }

  lemma DoInviteKeeps(q: State, counter: nat)
    requires Invariant(q, counter)
    ensures Invariant(DoInvite(q), counter)
  {
    hide Distinct, Listed, Covers, InLoadOrder, LoadsCount, Inverse;
    InviteKeeps(q.roster, |q.users|);
    MarkInverse(q.roster.pool, q.convs, Chosen(q.roster, |q.users|));
    ChosenCount(q.roster, |q.users|);
  }

  // ---- the other parts ----

  lemma InsertInverse(pool: map<nat, AgentRec>, convs: map<nat, ConvRec>, u: nat, a: AgentRec)
    requires LoadsCount(pool) && Inverse(pool, convs) && u !in pool && a.load == 0 && a.cvs == {}
    ensures LoadsCount(pool[u := a]) && Inverse(pool[u := a], convs)
  {
  }

  lemma InsertCoherent(q: State, a: AgentRec)
    requires Coherent(q) && a.id.uin !in q.roster.pool && a.load == 0 && a.cvs == {}
    ensures Coherent(q.(roster := Insert(q.roster, a)))
  {
    hide Distinct, Listed, Covers, InLoadOrder, LoadsCount, Inverse;
    InsertKeeps(q.roster, a);
    InsertInverse(q.roster.pool, q.convs, a.id.uin, a);
  }

  lemma EraseInverse(pool: map<nat, AgentRec>, convs: map<nat, ConvRec>, u: nat)
    requires LoadsCount(pool) && Inverse(pool, convs) && u in pool && pool[u].load == 0
    ensures LoadsCount(pool - {u}) && Inverse(pool - {u}, convs)
  {
    assert pool[u].cvs == {};
  }

  lemma EraseCoherent(q: State, u: nat)
    requires Coherent(q) && u in q.roster.pool && q.roster.pool[u].load == 0
    ensures Coherent(q.(roster := Erase(q.roster, u)))
  {
    hide Distinct, Listed, Covers, InLoadOrder, LoadsCount, Inverse;
    EraseKeeps(q.roster, u);
    EraseInverse(q.roster.pool, q.convs, u);
  }

  lemma AnswerInverse(pool: map<nat, AgentRec>, convs: map<nat, ConvRec>, u: nat, state: AgentState)
    requires LoadsCount(pool) && Inverse(pool, convs) && u in pool
    ensures var pool' := pool[u := pool[u].(state := state)];
            LoadsCount(pool') && Inverse(pool', convs)
  {
  }

  lemma AnswerCoherent(q: State, u: nat, state: AgentState)
    requires Coherent(q) && u in q.roster.pool
    ensures Coherent(q.(roster := Answer(q.roster, u, state)))
  {
    hide Distinct, Listed, Covers, InLoadOrder, LoadsCount, Inverse;
    AnswerKeeps(q.roster, u, state);
    AnswerInverse(q.roster.pool, q.convs, u, state);
  }

  lemma AddInverse(pool: map<nat, AgentRec>, convs: map<nat, ConvRec>, id: nat, c: ConvRec)
    requires LoadsCount(pool) && Inverse(pool, convs) && id !in convs
    requires c.agent in pool && pool[c.agent].load < 0xFFFF
    ensures var a := pool[c.agent];
            var pool' := pool[c.agent := a.(cvs := a.cvs + {id}, load := Inc16(a.load))];
            id !in a.cvs && LoadsCount(pool') && Inverse(pool', convs[id := c])
  {
    assert id !in pool[c.agent].cvs;
  }

  lemma AddCoherent(r: Roster, convs: map<nat, ConvRec>, id: nat, c: ConvRec)
    requires Sound(r, convs) && id !in convs
    requires c.agent in r.pool && r.pool[c.agent].load < 0xFFFF
    ensures Sound(AddConversation(r, c.agent, id), convs[id := c])
  {
    hide Distinct, Listed, Covers, InLoadOrder, LoadsCount, Inverse;
    AddInverse(r.pool, convs, id, c);
    AddConversationKeeps(r, c.agent, id);
  }

  lemma HandOverCoherent(q: State, id: nat, to: nat)
    requires Coherent(q) && id in q.convs && to in q.roster.pool
    requires to != q.convs[id].agent ==> q.roster.pool[to].load < 0xFFFF
    ensures Coherent(HandOver(q, id, q.convs[id].agent, to))
  {
    hide Distinct, Listed, Covers, InLoadOrder, LoadsCount, AddConversation;
    var from, c := q.convs[id].agent, q.convs[id].(agent := to);
    DropConversationCoherent(q, id);
    DropInverse(q.roster.pool, q.convs, id);
    AddCoherent(RemoveConversation(q.roster, from, id), q.convs - {id}, id, c);
    PutBack(q.convs, id, c);
  }

  lemma PutBack(convs: map<nat, ConvRec>, id: nat, c: ConvRec)
    ensures (convs - {id})[id := c] == convs[id := c]
  {
  }

  // ---- draining an agent that goes offline ----

  ghost predicate Owned(q: State, u: nat, ids: seq<nat>) {
    && (forall k :: 0 <= k < |ids| ==> ids[k] in q.convs && q.convs[ids[k]].agent == u)
    && Distinct(ids)
  }

  /** The users of the given conversations, the last one first. */
  function Backwards(convs: map<nat, ConvRec>, ids: seq<nat>): (users: seq<User>)
    requires forall k :: 0 <= k < |ids| ==> ids[k] in convs
    ensures |users| == |ids|
    ensures forall k :: 0 <= k < |ids| ==> users[k] == convs[ids[|ids| - 1 - k]].user
  {
    seq(|ids|, k requires 0 <= k < |ids| => convs[ids[|ids| - 1 - k]].user)
  }

  lemma IndexUnique(order: seq<nat>, u: nat, i: nat)
    requires Distinct(order) && i < |order| && order[i] == u
    ensures IndexOf(order, u) == i
  {
  }

  // Sliding u's node leaves the order of the others alone.
  lemma RemoveKeepsOthers(r: Roster, u: nat, id: nat)
    requires Agrees(r) && u in r.pool
    ensures var r' := RemoveConversation(r, u, id);
            u in r'.order && OthersOf(r'.order, u) == OthersOf(r.order, u)
  {
    var i, r' := IndexOf(r.order, u), RemoveConversation(r, u, id);
    if id in r.pool[u].cvs {
      var j := HeadSlot(Keys(r.order, r'.pool), i);
      MovedKeepsOthers(r.order, i, j);
      MovedDistinct(r.order, i, j);
      IndexUnique(r'.order, u, j);
    }
  }

  // What draining some of u's conversations leaves: everything but u's node is as it was.
  ghost predicate Drained(q: State, q': State, u: nat, ids: seq<nat>)
    requires Agrees(q.roster) && u in q.roster.pool
    requires Agrees(q'.roster)
    requires forall k :: 0 <= k < |ids| ==> ids[k] in q.convs
  {
    && q'.queueId == q.queueId
    && q'.users == Backwards(q.convs, ids) + q.users
    && q'.convs == q.convs - ToSet(ids)
    && q'.roster.inviting == q.roster.inviting
    && DrainedPool(q.roster.pool, q'.roster.pool, u, ids)
    && OthersOf(q'.roster.order, u) == OthersOf(q.roster.order, u)
  }

  ghost predicate DrainedPool(pool: map<nat, AgentRec>, pool': map<nat, AgentRec>, u: nat, ids: seq<nat>)
    requires u in pool
  {
    && |ids| <= pool[u].load
    && pool' == pool[u := pool[u].(cvs := pool[u].cvs - ToSet(ids), load := pool[u].load - |ids|)]
  }

  function OthersOf(order: seq<nat>, u: nat): seq<nat> {
    if u in order then Without(order, IndexOf(order, u)) else order
  }

  lemma BackwardsOne(convs: map<nat, ConvRec>, id: nat)
    requires id in convs
    ensures Backwards(convs, [id]) == [convs[id].user]
    ensures ToSet([id]) == {id}
  {
    assert ToSet([id]) == {id};
  }

  lemma RequeueEffect(q: State, u: nat, id: nat)
    requires Coherent(q) && id in q.convs && q.convs[id].agent == u
    ensures Drained(q, Requeue(q, id), u, [id])
  {
    hide Distinct, Listed, Covers, InLoadOrder, RemoveConversation, OthersOf, Backwards, ToSet;
    DropInverse(q.roster.pool, q.convs, id);
    RemovesOne(q.roster, u, id);
    RemoveKeepsOthers(q.roster, u, id);
    BackwardsOne(q.convs, id);
  }

  lemma DrainedPoolTrans(pool: map<nat, AgentRec>, pool1: map<nat, AgentRec>, pool': map<nat, AgentRec>,
                         u: nat, ids: seq<nat>)
    requires ids != [] && u in pool
    requires DrainedPool(pool, pool1, u, ids[..1]) && DrainedPool(pool1, pool', u, ids[1..])
    ensures DrainedPool(pool, pool', u, ids)
  {
    assert ToSet(ids) == ToSet(ids[..1]) + ToSet(ids[1..]);
    assert pool[u].cvs - ToSet(ids) == pool[u].cvs - ToSet(ids[..1]) - ToSet(ids[1..]);
  }

  lemma BackwardsTrans(convs: map<nat, ConvRec>, convs1: map<nat, ConvRec>, ids: seq<nat>)
    requires ids != [] && Distinct(ids) && forall k :: 0 <= k < |ids| ==> ids[k] in convs
    requires convs1 == convs - ToSet(ids[..1])
    ensures forall k :: 1 <= k < |ids| ==> ids[k] in convs1
    ensures Backwards(convs, ids) == Backwards(convs1, ids[1..]) + Backwards(convs, ids[..1])
    ensures convs1 - ToSet(ids[1..]) == convs - ToSet(ids)
  {
    assert ToSet(ids) == ToSet(ids[..1]) + ToSet(ids[1..]);
  }

  lemma DrainedTrans(q: State, q1: State, q': State, u: nat, ids: seq<nat>)
    requires Agrees(q.roster) && Agrees(q1.roster) && Agrees(q'.roster)
    requires ids != [] && u in q.roster.pool && u in q1.roster.pool
    requires Owned(q, u, ids) && Owned(q1, u, ids[1..])
    requires Drained(q, q1, u, ids[..1]) && Drained(q1, q', u, ids[1..])
    ensures Drained(q, q', u, ids)
  {
    BackwardsTrans(q.convs, q1.convs, ids);
    DrainedPoolTrans(q.roster.pool, q1.roster.pool, q'.roster.pool, u, ids);
    calc {
      q'.users;
      Backwards(q1.convs, ids[1..]) + (Backwards(q.convs, ids[..1]) + q.users);
      Backwards(q1.convs, ids[1..]) + Backwards(q.convs, ids[..1]) + q.users;
      Backwards(q.convs, ids) + q.users;
    }
  }

  lemma OwnedRest(q: State, q1: State, u: nat, ids: seq<nat>)
    requires ids != [] && Owned(q, u, ids) && q1.convs == q.convs - ToSet(ids[..1])
    ensures Owned(q1, u, ids[1..])
  {
  }

  lemma DrainedNone(q: State, u: nat)
    requires Agrees(q.roster) && u in q.roster.pool
    ensures Drained(q, q, u, [])
  {
    var none: seq<nat>, a := [], q.roster.pool[u];
    assert ToSet(none) == {};
    assert a.(cvs := a.cvs - ToSet(none), load := a.load - |none|) == a;
  }

  lemma {:induction false} DrainEffect(q: State, u: nat, ids: seq<nat>)
    requires Coherent(q) && u in q.roster.pool && Owned(q, u, ids)
    ensures Drained(q, Drain(q, ids), u, ids)
    decreases |ids|
  {
    if ids == [] {
      DrainedNone(q, u);
    } else {
      var q1 := Requeue(q, ids[0]);
      RequeueEffect(q, u, ids[0]);
      assert ids[..1] == [ids[0]];
      OwnedRest(q, q1, u, ids);
      DrainEffect(q1, u, ids[1..]);
      DrainedTrans(q, q1, Drain(q, ids), u, ids);
    }
  }

  lemma {:induction false} ReturnedAll(convs: map<nat, ConvRec>, ids: seq<nat>)
    requires Distinct(ids) && forall k :: 0 <= k < |ids| ==> ids[k] in convs
    ensures |Returned(convs, ids)| == |ids|
    ensures forall k :: 0 <= k < |ids| ==>
              Returned(convs, ids)[k] == UserConversation(convs[ids[k]].user.id, ids[k])
    decreases |ids|
  {
    if ids != [] {
      ReturnedAll(convs - {ids[0]}, ids[1..]);
    }
  }

  lemma AscendingDistinct(s: set<nat>)
    ensures Distinct(Ascending(s)) && forall k :: 0 <= k < |Ascending(s)| ==> Ascending(s)[k] in s
  {
    var ids := Ascending(s);
    forall k | 0 <= k < |ids| ensures ids[k] in s {
      assert ids[k] in ids;
    }
  }

  lemma OwnsAscending(q: State, u: nat)
    requires Coherent(q) && u in q.roster.pool
    ensures Owned(q, u, Ascending(q.roster.pool[u].cvs))
  {
    hide Wf, LoadsCount, Ascending, Distinct;
    AscendingDistinct(q.roster.pool[u].cvs);
  }

  /** The state an agent leaves behind on going offline, before anybody is invited: its users
      wait at the front, the most recent conversation's first, and nothing of it remains. */
  function WithoutAgent(q: State, u: nat): State
    requires Coherent(q) && u in q.roster.pool
  {
    OwnsAscending(q, u);
    State(q.queueId, Backwards(q.convs, Ascending(q.roster.pool[u].cvs)) + q.users,
          Erase(q.roster, u), q.convs - q.roster.pool[u].cvs)
  }

  // When all of u's conversations are drained, erasing u gives what erasing it at once gives.
  lemma EraseDrained(q: State, q': State, u: nat, ids: seq<nat>)
    requires Agrees(q.roster) && Agrees(q'.roster) && u in q.roster.pool && u in q'.roster.pool
    requires Owned(q, u, ids) && Drained(q, q', u, ids)
    requires q.roster.pool[u].load == |ids|
    ensures q'.roster.pool[u].load == 0
    ensures q'.(roster := Erase(q'.roster, u)) ==
            State(q.queueId, Backwards(q.convs, ids) + q.users, Erase(q.roster, u), q.convs - ToSet(ids))
  {
    assert q'.roster.pool - {u} == q.roster.pool - {u};
    assert Erase(q'.roster, u) == Erase(q.roster, u);
  }

  lemma DrainAgent(q: State, u: nat)
    requires Coherent(q) && u in q.roster.pool
    ensures var q1 := Drain(q, Ascending(q.roster.pool[u].cvs));
            && u in q1.roster.pool && q1.roster.pool[u].load == 0
            && q1.(roster := Erase(q1.roster, u)) == WithoutAgent(q, u)
  {
    var ids := Ascending(q.roster.pool[u].cvs);
    OwnsAscending(q, u);
    DrainEffect(q, u, ids);
    EraseDrained(q, Drain(q, ids), u, ids);
    ToSetAscending(q.roster.pool[u].cvs);
  }

  lemma ToSetAscending(s: set<nat>)
    ensures ToSet(Ascending(s)) == s
  {
  }

  lemma WithoutAgentCoherent(q: State, u: nat)
    requires Coherent(q) && u in q.roster.pool
    ensures Coherent(WithoutAgent(q, u))
  {
    hide Distinct, Listed, Covers, InLoadOrder, LoadsCount, Inverse;
    DrainAgent(q, u);
    EraseCoherent(Drain(q, Ascending(q.roster.pool[u].cvs)), u);
  }

  /** `agent_offline` drains completely, whatever the loop passes through on the way. */
  lemma OfflineDrains(q: State, counter: nat, id: Umid)
    requires Coherent(q) && Find(q.roster, id)
    ensures Coherent(WithoutAgent(q, id.uin))
    ensures var next, q' := AgentOffline(q, counter, id), WithoutAgent(q, id.uin);
            && next.state == DoInvite(q')
            && next.counter == counter
            && next.reply == Reply(true, invites := Invitations(q'), returned := next.reply.returned)
  {
    hide Distinct, Listed, Covers, InLoadOrder, LoadsCount, Inverse;
    WithoutAgentCoherent(q, id.uin);
    DrainAgent(q, id.uin);
  }

  /** Each user of the agent is reported once, the oldest conversation first. */
  lemma OfflineReports(q: State, counter: nat, id: Umid)
    requires Coherent(q) && Find(q.roster, id)
    ensures var ids, returned := Ascending(q.roster.pool[id.uin].cvs), AgentOffline(q, counter, id).reply.returned;
            && |returned| == |ids|
            && forall k :: 0 <= k < |ids| ==>
                 ids[k] in q.convs && returned[k] == UserConversation(q.convs[ids[k]].user.id, ids[k])
  {
    hide Distinct, Listed, Covers, InLoadOrder, LoadsCount, Inverse;
    OwnsAscending(q, id.uin);
    ReturnedAll(q.convs, Ascending(q.roster.pool[id.uin].cvs));
  }

  /** Nothing of an agent that went offline remains. */
  lemma OfflineLeavesNothing(q: State, counter: nat, id: Umid)
    requires Coherent(q) && Find(q.roster, id)
    ensures var q' := AgentOffline(q, counter, id).state;
            && id.uin !in q'.roster.pool && id.uin !in q'.roster.order
            && (forall c :: c in q'.convs <==> c in q.convs && q.convs[c].agent != id.uin)
            && (forall c :: c in q'.convs ==> q'.convs[c] == q.convs[c])
  {
    OfflineDrains(q, counter, id);
    DoInviteAgrees(WithoutAgent(q, id.uin));
  }

  lemma DoInviteAgrees(q: State)
    requires Coherent(q)
    ensures Agrees(DoInvite(q).roster)
  {
    InviteKeeps(q.roster, |q.users|);
  }

  // ---- every step ----

  lemma AcceptKeeps(q: State, counter: nat, id: Umid)
    requires Invariant(q, counter) && Room(q, counter, Accept(id))
    ensures var next := AgentAccept(q, counter, id); Invariant(next.state, next.counter)
  {
    hide Distinct, Listed, Covers, InLoadOrder, LoadsCount, Inverse, AddConversation, Invite;
    if Find(q.roster, id) && id.uin in q.roster.inviting {
      AnswerCoherent(q, id.uin, Available);
      var r1, cvsId := Answer(q.roster, id.uin, Available), counter + 1;
      if q.users != [] {
        var c := ConvRec(q.queueId, id.uin, q.users[0]);
        AddCoherent(r1, q.convs, cvsId, c);
        AddKeepsInviting(r1, id.uin, cvsId);
        var q2 := State(q.queueId, q.users[1..], AddConversation(r1, id.uin, cvsId), q.convs[cvsId := c]);
        assert |r1.inviting| <= |q.roster.inviting|;
        DoInviteKeeps(q2, cvsId);
      }
    }
  }

  lemma AddKeepsInviting(r: Roster, u: nat, id: nat)
    requires Agrees(r) && u in r.pool
    ensures AddConversation(r, u, id).inviting == r.inviting
  {
  }

  lemma RefuseKeeps(q: State, counter: nat, id: Umid)
    requires Invariant(q, counter)
    ensures var next := AgentRefuse(q, counter, id); Invariant(next.state, next.counter)
  {
    hide Distinct, Listed, Covers, InLoadOrder, LoadsCount, Inverse;
    if Find(q.roster, id) && id.uin in q.roster.inviting {
      AnswerCoherent(q, id.uin, Refused);
      var q1 := q.(roster := Answer(q.roster, id.uin, Refused));
      assert |q1.roster.inviting| <= |q.roster.inviting|;
      DoInviteKeeps(q1, counter);
    } else {
      DoInviteKeeps(q, counter);
    }
  }

  lemma RedirectKeeps(q: State, counter: nat, cvsId: nat, from: Umid, to: Umid)
    requires Invariant(q, counter) && Room(q, counter, Redirect(cvsId, from, to))
    ensures var next := AgentRedirect(q, counter, cvsId, from, to); Invariant(next.state, next.counter)
  {
    hide Distinct, Listed, Covers, InLoadOrder, LoadsCount, Inverse;
    if Find(q.roster, from) && Find(q.roster, to) && cvsId in q.convs && q.convs[cvsId].agent == from.uin {
      HandOverCoherent(q, cvsId, to.uin);
      DoInviteKeeps(HandOver(q, cvsId, from.uin, to.uin), counter);
    }
  }

  lemma OfflineKeeps(q: State, counter: nat, id: Umid)
    requires Invariant(q, counter) && Room(q, counter, Offline(id))
    ensures var next := AgentOffline(q, counter, id); Invariant(next.state, next.counter)
  {
    hide Distinct, Listed, Covers, InLoadOrder, LoadsCount, Inverse, Drain, Without, IndexOf, Invite;
    if Find(q.roster, id) {
      OfflineDrains(q, counter, id);
      DoInviteKeeps(WithoutAgent(q, id.uin), counter);
    }
  }

  lemma PresenceKeeps(q: State, counter: nat, id: Umid, capacity: uint16, verified: Option<string>)
    requires Invariant(q, counter)
    ensures var next := AgentPresence(q, counter, id, capacity, verified); Invariant(next.state, next.counter)
  {
    hide Distinct, Listed, Covers, InLoadOrder, LoadsCount, Inverse;
    if verified.Some? && id.uin !in q.roster.pool {
      var a := AgentRec(id, verified.value, Available, capacity, 0, {});
      InsertCoherent(q, a);
      DoInviteKeeps(q.(roster := Insert(q.roster, a)), counter);
    }
  }

  lemma EndKeeps(q: State, counter: nat, cvsId: nat)
    requires Invariant(q, counter)
    ensures var next := ConversationEnd(q, counter, cvsId); Invariant(next.state, next.counter)
  {
    hide Distinct, Listed, Covers, InLoadOrder, LoadsCount, Inverse;
  }

  lemma AbsenceKeeps(q: State, counter: nat, id: Umid)
    requires Invariant(q, counter)
    ensures var next := AgentAbsence(q, counter, id); Invariant(next.state, next.counter)
  {
    hide Distinct, Listed, Covers, InLoadOrder, LoadsCount, Inverse, Without;
    if Find(q.roster, id) && q.roster.pool[id.uin].load == 0 {
      EraseCoherent(q, id.uin);
    }
  }

  lemma JoinKeeps(q: State, counter: nat, id: Umid, address: nat)
    requires Invariant(q, counter) && |q.users| < 0xFFFF
    ensures var next := UserJoin(q, counter, id, address); Invariant(next.state, next.counter)
  {
    hide Wf, LoadsCount, Inverse, Invite;
    DoInviteKeeps(q.(users := q.users + [User(id, address)]), counter);
  }

  lemma DepartKeeps(q: State, counter: nat, id: Umid)
    requires Invariant(q, counter)
    ensures var next := UserDepart(q, counter, id); Invariant(next.state, next.counter)
  {
    hide Wf, LoadsCount, Inverse;
  }

  lemma CounterAdvances(q: State, counter: nat, ev: Event)
    requires Coherent(q) && counter < UINT64_LIMIT && Room(q, counter, ev)
    ensures counter <= Step(q, counter, ev).counter < UINT64_LIMIT
  {
    hide Sound, DoInvite, Invitations, Positions, DropConversation, HandOver, Connect, Insert, Erase, Answer,
      Drain, Returned, FirstAt, Without, Find;
  }

  /** Every operation keeps the invariant. */
  lemma StepKeeps(q: State, counter: nat, ev: Event)
    requires Invariant(q, counter) && Room(q, counter, ev)
    ensures var next := Step(q, counter, ev);
            Invariant(next.state, next.counter) && counter <= next.counter
  {
    hide Sound, AgentPresence, AgentAbsence, AgentOffline, AgentAccept, AgentRefuse, AgentRedirect,
      UserJoin, UserDepart, ConversationEnd;
    CounterAdvances(q, counter, ev);
    match ev
    case Presence(id, capacity, verified) => PresenceKeeps(q, counter, id, capacity, verified);
    case Absence(id) => AbsenceKeeps(q, counter, id);
    case Offline(id) => OfflineKeeps(q, counter, id);
    case Accept(id) => AcceptKeeps(q, counter, id);
    case Refuse(id) => RefuseKeeps(q, counter, id);
    case Redirect(cvsId, from, to) => RedirectKeeps(q, counter, cvsId, from, to);
    case Join(id, address) => JoinKeeps(q, counter, id, address);
    case Depart(id) => DepartKeeps(q, counter, id);
    case End(cvsId) => EndKeeps(q, counter, cvsId);
    case Elsewhere =>
  }
}
