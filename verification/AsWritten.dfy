/** Where the source, taken literally, does not do what the rest of it relies on: the slide towards
    the head, the guard of redirect, the iterator of the offline loop, and a load of sixteen bits.
    Each operation is built here from what the source says, with the exact condition under which it
    takes the step the state machine takes, and an example where it does not. */
module AsWritten {
  import opened Types
  import opened LoadOrder
  import opened Rosters
  import opened Dispatch
  import opened Invariants

  // Undefined is what the language leaves open.
  datatype Outcome = Hangs | Crashes | Undefined | Finished(next: Next)

  // ---------- ending a conversation: the slide towards the head never ends once it starts ----------

  // The parts of coherence the operations need in order to run at all.
  ghost predicate Attached(q: State) {
    Agrees(q.roster) && forall id :: id in q.convs ==> q.convs[id].agent in q.roster.pool
  }

  lemma CoherentAttached(q: State)
    requires Coherent(q)
    ensures Attached(q)
  {
  }

  /** A conversation leaves its agent, if that removal comes back, and then the pool. */
  function DropAsWritten(q: State, cvsId: nat): (dropped: Option<State>)
    requires Attached(q) && cvsId in q.convs
    ensures dropped.Some? ==> Attached(dropped.value)
  {
    match RemoveAsWritten(q.roster, q.convs[cvsId].agent, cvsId)
    case None => None
    case Some(r) => Some(q.(roster := r, convs := q.convs - {cvsId}))
  }

  function ConversationEnd(q: State, counter: nat, cvsId: nat): Outcome
    requires Attached(q)
  {
    if cvsId !in q.convs then Finished(Next(q, counter, REJECTED))
    else
      var c := q.convs[cvsId];
      var ended := Some((q.roster.pool[c.agent].id, UserConversation(c.user.id, cvsId)));
      match DropAsWritten(q, cvsId)
      case None => Hangs
      case Some(q1) => Finished(Next(q1, counter, REJECTED.(ended := ended)))
  }

  /** Would u, with n conversations less, still stand where it stands: is nobody directly ahead of it
      who is not strictly lighter? */
  predicate Clear(r: Roster, u: nat, n: nat)
    requires Agrees(r) && u in r.pool && n <= r.pool[u].load
  {
    var i, a := IndexOf(r.order, u), r.pool[u];
    i == 0 || Gt(Key(a.load - n, a.capacity), r.pool[r.order[i - 1]].OrderKey())
  }

  predicate Blocked(r: Roster, u: nat)
    requires Agrees(r) && u in r.pool
  {
    r.pool[u].load > 0 && !Clear(r, u, 1)
  }

  lemma AheadKey(r: Roster, u: nat, a: AgentRec)
    requires Agrees(r) && u in r.pool && IndexOf(r.order, u) > 0
    ensures var i := IndexOf(r.order, u);
            && Listed(r.order, r.pool[u := a])
            && Keys(r.order, r.pool[u := a])[i] == a.OrderKey()
            && Keys(r.order, r.pool[u := a])[i - 1] == r.pool[r.order[i - 1]].OrderKey()
  {
    assert r.order[IndexOf(r.order, u) - 1] != u;
  }

  /** The removal as written comes back if and only if nobody blocks, and then it did what the state
      machine's removal does. */
  lemma RemoveReturnsExactly(r: Roster, u: nat, cvsId: nat)
    requires Agrees(r) && u in r.pool && cvsId in r.pool[u].cvs && r.pool[u].load > 0
    ensures RemoveAsWritten(r, u, cvsId).Some? <==> !Blocked(r, u)
    ensures !Blocked(r, u) ==> RemoveAsWritten(r, u, cvsId).value == RemoveConversation(r, u, cvsId)
  {
    hide Distinct, Keys, Moved;
    var a := r.pool[u];
    var a' := a.(cvs := a.cvs - {cvsId}, load := Dec16(a.load));
    var i := IndexOf(r.order, u);
    MovedNowhere(r.order, i);
    if i > 0 {
      AheadKey(r, u, a');
    }
  }

  /** Dropping hangs if and only if the agent is blocked; otherwise it is the state machine's. */
  lemma DropReturnsExactly(q: State, cvsId: nat)
    requires Coherent(q) && cvsId in q.convs
    ensures DropAsWritten(q, cvsId).Some? <==> !Blocked(q.roster, q.convs[cvsId].agent)
    ensures DropAsWritten(q, cvsId).Some? ==> DropAsWritten(q, cvsId).value == DropConversation(q, cvsId)
  {
    hide Distinct, Listed, Covers, InLoadOrder, Blocked, RemoveAsWritten, RemoveConversation;
    DropInverse(q.roster.pool, q.convs, cvsId);
    RemoveReturnsExactly(q.roster, q.convs[cvsId].agent, cvsId);
  }

  /** Ending a conversation hangs the server if and only if the conversation exists and its agent
      would have to move up; otherwise it takes the state machine's step. */
  lemma EndHangsExactly(q: State, counter: nat, cvsId: nat)
    requires Coherent(q)
    ensures ConversationEnd(q, counter, cvsId) == Hangs <==>
            cvsId in q.convs && Blocked(q.roster, q.convs[cvsId].agent)
    ensures ConversationEnd(q, counter, cvsId) != Hangs ==>
              ConversationEnd(q, counter, cvsId) == Finished(Dispatch.ConversationEnd(q, counter, cvsId))
  {
    hide Sound, Blocked, DropAsWritten, DropConversation;
    if cvsId in q.convs {
      DropReturnsExactly(q, cvsId);
    }
  }

  /** Two agents with one conversation each. */
  const TWO_BUSY := State(
    7, [],
    Roster([11, 12],
           map[11 := AgentRec(Umid(11, 1), "", Available, 2, 1, {1}),
               12 := AgentRec(Umid(12, 1), "", Available, 2, 1, {2})], {}),
    map[1 := ConvRec(7, 11, User(Umid(20, 1), 0)), 2 := ConvRec(7, 12, User(Umid(21, 1), 0))])

  lemma TwoBusyCoherent()
    ensures Coherent(TWO_BUSY)
  {
    var r := TWO_BUSY.roster;
    assert r.order[0] == 11 && r.order[1] == 12;
    assert Agrees(r);
    assert Sorted(Keys(r.order, r.pool));
    assert LoadsCount(r.pool) by {
      hide Agrees, Wf, Inverse;
    }
    assert Inverse(r.pool, TWO_BUSY.convs) by {
      hide Agrees, Wf, LoadsCount;
    }
  }

  /** Ending the first agent's conversation is fine; ending the second's hangs. */
  lemma EndMayHang()
    ensures Coherent(TWO_BUSY)
    ensures ConversationEnd(TWO_BUSY, 2, 1).Finished?
    ensures ConversationEnd(TWO_BUSY, 2, 2) == Hangs
  {
    var r := TWO_BUSY.roster;
    TwoBusyCoherent();
    CoherentAttached(TWO_BUSY);
    hide Distinct, Covers, InLoadOrder, LoadsCount, Inverse;
    assert IndexOf(r.order, 11) == 0;
    assert IndexOf(r.order, 12) == 1 by { assert r.order[1..] == [12]; }
    EndHangsExactly(TWO_BUSY, 2, 1);
    EndHangsExactly(TWO_BUSY, 2, 2);
  }

  // ---------- redirect: the guard joins its two tests with `and` ----------

  /** The conversation is taken from `from`, whoever owns it, if that removal comes back; it changes
      owner; and it enters the set of `to`. */
  function HandOverAsWritten(q: State, cvsId: nat, from: nat, to: nat): (handed: Option<State>)
    requires Attached(q) && cvsId in q.convs && from in q.roster.pool && to in q.roster.pool
    ensures handed.Some? ==> Agrees(handed.value.roster)
  {
    match RemoveAsWritten(q.roster, from, cvsId)
    case None => None
    case Some(r1) =>
      AddConversationAgrees(r1, to, cvsId);
      Some(q.(roster := AddConversation(r1, to, cvsId), convs := q.convs[cvsId := q.convs[cvsId].(agent := to)]))
  }

  /** A missing conversation passes the first test and is dereferenced in the second; any other passes
      the guard and is handed over. */
  function AgentRedirect(q: State, counter: nat, cvsId: nat, from: Umid, to: Umid): Outcome
    requires Attached(q)
  {
    if !Find(q.roster, from) || !Find(q.roster, to) then Finished(Next(q, counter, REJECTED))
    else if cvsId !in q.convs then Crashes
    else
      match HandOverAsWritten(q, cvsId, from.uin, to.uin)
      case None => Hangs
      case Some(q1) => Finished(Next(DoInvite(q1), counter, Reply(true, invites := Invitations(q1))))
  }

  // Whatever moves between two agents, the others' records stay as they are.
  lemma OthersKeepTheirs(r: Roster, from: nat, to: nat, cvsId: nat, u: nat)
    requires Agrees(r) && from in r.pool && to in r.pool && u in r.pool && u != from && u != to
    ensures Agrees(RemoveConversation(r, from, cvsId))
    ensures var r' := AddConversation(RemoveConversation(r, from, cvsId), to, cvsId);
            u in r'.pool && r'.pool[u] == r.pool[u]
  {
    hide Distinct, Listed, Covers, IndexOf, HeadSlot, TailSlot, Moved, Keys;
    RemoveConversationAgrees(r, from, cvsId);
  }

  /** A conversation handed over from an agent that does not own it stays in the set of the one that
      does, while the pool says it is the new agent's. */
  lemma StrayHandOver(q: State, cvsId: nat, from: nat, to: nat)
    requires Coherent(q) && cvsId in q.convs && from in q.roster.pool && to in q.roster.pool
    requires q.convs[cvsId].agent != from && q.convs[cvsId].agent != to
    ensures !Inverse(DoInvite(HandOver(q, cvsId, from, to)).roster.pool, HandOver(q, cvsId, from, to).convs)
  {
    hide Distinct, Listed, Covers, InLoadOrder, LoadsCount, AddConversation, RemoveConversation, Eligibles;
    var u := q.convs[cvsId].agent;
    OthersKeepTheirs(q.roster, from, to, cvsId, u);
    var pool := DoInvite(HandOver(q, cvsId, from, to)).roster.pool;
    assert u in pool && cvsId in pool[u].cvs;
    assert HandOver(q, cvsId, from, to).convs[cvsId].agent == to;
  }

  /** A redirect to the agent that owns the conversation already, in another's name, changes nothing. */
  lemma HandOverToOwner(q: State, cvsId: nat, from: nat, to: nat)
    requires Coherent(q) && cvsId in q.convs && from in q.roster.pool && to in q.roster.pool
    requires q.convs[cvsId].agent == to != from
    ensures HandOver(q, cvsId, from, to) == q
  {
    assert cvsId !in q.roster.pool[from].cvs;
    assert RemoveConversation(q.roster, from, cvsId) == q.roster;
    assert AddConversation(q.roster, to, cvsId) == q.roster;
    assert q.convs[cvsId := q.convs[cvsId].(agent := to)] == q.convs;
  }

  /** Taking a conversation from an agent hangs if and only if the agent owns it and is blocked;
      otherwise the handing over is the state machine's, whoever owns the conversation. */
  lemma TakingHangsExactly(q: State, cvsId: nat, from: nat, to: nat)
    requires Coherent(q) && cvsId in q.convs && from in q.roster.pool && to in q.roster.pool
    ensures var handed := HandOverAsWritten(q, cvsId, from, to);
            && (handed.None? <==> q.convs[cvsId].agent == from && Blocked(q.roster, from))
            && (handed.Some? ==> handed.value == HandOver(q, cvsId, from, to))
  {
    hide Distinct, Listed, Covers, InLoadOrder, Blocked, IndexOf, HeadSlot, Keys, AddConversation, SettleToHead;
    if cvsId in q.roster.pool[from].cvs {
      DropInverse(q.roster.pool, q.convs, cvsId);
      RemoveReturnsExactly(q.roster, from, cvsId);
    }
  }

  /** Between known agents, redirect as written finishes and leaves conversations and agents inverse
      to each other if and only if the conversation exists and belongs to one of the two, and no
      agent blocks the owner if that is `from`. */
  lemma RedirectSafeExactly(q: State, counter: nat, cvsId: nat, from: Umid, to: Umid)
    requires Coherent(q) && Find(q.roster, from) && Find(q.roster, to)
    requires q.roster.pool[to.uin].load < 0xFFFF
    ensures var outcome := AgentRedirect(q, counter, cvsId, from, to);
            outcome.Finished? && Coherent(outcome.next.state) <==>
            && cvsId in q.convs
            && q.convs[cvsId].agent in {from.uin, to.uin}
            && !(q.convs[cvsId].agent == from.uin && Blocked(q.roster, from.uin))
  {
    hide Distinct, Listed, Covers, InLoadOrder, LoadsCount, Inverse, HandOver, Invite, Invitations, Blocked,
      HandOverAsWritten;
    if cvsId in q.convs {
      var owner := q.convs[cvsId].agent;
      var q1 := HandOver(q, cvsId, from.uin, to.uin);
      TakingHangsExactly(q, cvsId, from.uin, to.uin);
      if owner == from.uin {
        HandOverCoherent(q, cvsId, to.uin);
        DoInviteCoherent(q1);
      } else if owner == to.uin {
        HandOverToOwner(q, cvsId, from.uin, to.uin);
        DoInviteCoherent(q1);
      } else {
        StrayHandOver(q, cvsId, from.uin, to.uin);
      }
    }
  }

  lemma DoInviteCoherent(q: State)
    requires Coherent(q)
    ensures Coherent(DoInvite(q))
  {
    hide Distinct, Listed, Covers, InLoadOrder, LoadsCount, Inverse;
    InviteKeeps(q.roster, |q.users|);
    MarkInverse(q.roster.pool, q.convs, Chosen(q.roster, |q.users|));
  }

  /** It takes the state machine's step if and only if an agent is unknown, or `from` owns the
      conversation and nobody blocks it. */
  lemma RedirectAgreesExactly(q: State, counter: nat, cvsId: nat, from: Umid, to: Umid)
    requires Coherent(q)
    ensures AgentRedirect(q, counter, cvsId, from, to) ==
              Finished(Dispatch.AgentRedirect(q, counter, cvsId, from, to)) <==>
            || !Find(q.roster, from) || !Find(q.roster, to)
            || (cvsId in q.convs && q.convs[cvsId].agent == from.uin && !Blocked(q.roster, from.uin))
  {
    hide Distinct, Listed, Covers, InLoadOrder, LoadsCount, Inverse, HandOver, DoInvite, Invitations, Blocked,
      HandOverAsWritten;
    if Find(q.roster, from) && Find(q.roster, to) && cvsId in q.convs {
      TakingHangsExactly(q, cvsId, from.uin, to.uin);
    }
  }

  /** Agent 11 has one conversation, agent 12 none. */
  const ONE_BUSY := State(
    7, [],
    Roster([12, 11],
           map[11 := AgentRec(Umid(11, 1), "", Available, 2, 1, {1}),
               12 := AgentRec(Umid(12, 1), "", Available, 2, 0, {})], {}),
    map[1 := ConvRec(7, 11, User(Umid(20, 1), 0))])

  lemma OneBusyCoherent()
    ensures Coherent(ONE_BUSY)
  {
    var r := ONE_BUSY.roster;
    assert r.order[0] == 12 && r.order[1] == 11;
    assert Agrees(r);
    assert Sorted(Keys(r.order, r.pool));
    assert LoadsCount(r.pool) by {
      hide Agrees, Wf, Inverse;
    }
    assert Inverse(r.pool, ONE_BUSY.convs) by {
      hide Agrees, Wf, LoadsCount;
    }
  }

  /** Agent 12 takes over the conversation of agent 11 by redirecting it from itself to itself; a
      conversation nobody has crashes the server. */
  lemma RedirectMayTakeOver()
    ensures Coherent(ONE_BUSY)
    ensures var outcome := AgentRedirect(ONE_BUSY, 1, 1, Umid(12, 1), Umid(12, 1));
            outcome.Finished? && !Coherent(outcome.next.state)
    ensures AgentRedirect(ONE_BUSY, 1, 2, Umid(11, 1), Umid(12, 1)) == Crashes
  {
    hide DoInvite, HandOver, Invitations, HandOverAsWritten, Coherent, Attached;
    OneBusyCoherent();
    CoherentAttached(ONE_BUSY);
    TakingHangsExactly(ONE_BUSY, 1, 12, 12);
    RedirectSafeExactly(ONE_BUSY, 1, 1, Umid(12, 1), Umid(12, 1));
  }

  // ---------- offline: an erased iterator, and one removal after the other ----------

  /** The loop: an id without a conversation is passed over; the first conversation dropped takes its
      own id out of the set the loop is standing on, and moving on from there is undefined. */
  function LoopAsWritten(q: State, ids: seq<nat>): Outcome
    requires Attached(q)
    decreases |ids|
  {
    if ids == [] then Finished(Next(q, 0, Reply(true)))
    else if ids[0] !in q.convs then LoopAsWritten(q, ids[1..])
    else if DropAsWritten(q, ids[0]).None? then Hangs
    else Undefined
  }

  function AgentOffline(q: State, counter: nat, id: Umid): Outcome
    requires Attached(q)
  {
    if !Find(q.roster, id) then Finished(Next(q, counter, REJECTED))
    else
      match LoopAsWritten(q, Ascending(q.roster.pool[id.uin].cvs))
      case Finished(_) => Left(q, counter, id.uin, [])
      case stuck => stuck
  }

  /** The agent leaves if its load is zero, and agents are invited. */
  function Left(q: State, counter: nat, u: nat, returned: seq<UserConversation>): Outcome
    requires Attached(q) && u in q.roster.pool
  {
    var q1 := if q.roster.pool[u].load == 0 then (EraseKeepsAgreement(q.roster, u); q.(roster := Erase(q.roster, u)))
              else q;
    Finished(Next(DoInvite(q1), counter, Reply(true, invites := Invitations(q1), returned := returned)))
  }

  lemma EraseKeepsAgreement(r: Roster, u: nat)
    requires Agrees(r) && u in r.pool
    ensures Agrees(Erase(r, u))
  {
    EraseKeepsMembers(r.order, r.pool, IndexOf(r.order, u));
  }

  /** Offline as written hangs if and only if the agent has conversations and is blocked; it is
      undefined if and only if the agent has conversations and is not blocked; for an agent without
      conversations, or an unknown one, it takes the state machine's step. */
  lemma OfflineAsWrittenExactly(q: State, counter: nat, id: Umid)
    requires Coherent(q)
    ensures var outcome, busy := AgentOffline(q, counter, id), Find(q.roster, id) && q.roster.pool[id.uin].load > 0;
            && (outcome == Hangs <==> busy && Blocked(q.roster, id.uin))
            && (outcome == Undefined <==> busy && !Blocked(q.roster, id.uin))
            && (!busy ==> outcome == Finished(Dispatch.AgentOffline(q, counter, id)))
  {
    hide Distinct, Listed, Covers, InLoadOrder, Inverse, Blocked, DropAsWritten, Ascending, Erase, DoInvite,
      Invitations, Backwards;
    if Find(q.roster, id) {
      var ids := Ascending(q.roster.pool[id.uin].cvs);
      OwnsAscending(q, id.uin);
      if ids != [] {
        DropReturnsExactly(q, ids[0]);
      }
    }
  }

  /** With the iterator mended, so that the loop goes over a snapshot of the ids, and all else as
      written. */
  function DrainAsWritten(q: State, ids: seq<nat>): (drained: Option<State>)
    requires Attached(q)
    ensures drained.Some? ==> Attached(drained.value) && drained.value.roster.pool.Keys == q.roster.pool.Keys
    decreases |ids|
  {
    if ids == [] then Some(q)
    else if ids[0] !in q.convs then DrainAsWritten(q, ids[1..])
    else
      match DropAsWritten(q, ids[0])
      case None => None
      case Some(q1) => DrainAsWritten(q1.(users := [q.convs[ids[0]].user] + q.users), ids[1..])
  }

  function MendedOffline(q: State, counter: nat, id: Umid): Outcome
    requires Attached(q)
  {
    if !Find(q.roster, id) then Finished(Next(q, counter, REJECTED))
    else
      var ids := Ascending(q.roster.pool[id.uin].cvs);
      match DrainAsWritten(q, ids)
      case None => Hangs
      case Some(q1) => Left(q1, counter, id.uin, Returned(q.convs, ids))
  }

  // A drain that comes back is the state machine's.
  lemma {:induction false} DrainAgrees(q: State, ids: seq<nat>)
    requires Coherent(q)
    ensures DrainAsWritten(q, ids).Some? ==> DrainAsWritten(q, ids).value == Drain(q, ids)
    decreases |ids|
  {
    hide Sound, Blocked, DropAsWritten, DropConversation;
    if ids != [] {
      if ids[0] in q.convs {
        DropReturnsExactly(q, ids[0]);
        CoherentAttached(Requeue(q, ids[0]));
      }
      DrainAgrees(Requeue(q, ids[0]), ids[1..]);
    }
  }

  // The lighter an agent gets, the sooner it has to move up.
  lemma ClearWithFewer(r: Roster, u: nat, n: nat)
    requires Agrees(r) && u in r.pool && 0 < n <= r.pool[u].load && Clear(r, u, n)
    ensures !Blocked(r, u)
  {
  }

  // An unblocked removal leaves the list as it is, and one conversation less to go.
  lemma UnblockedStep(q: State, u: nat, id: nat, n: nat)
    requires Coherent(q) && id in q.convs && q.convs[id].agent == u && u in q.roster.pool
    requires 0 < n <= q.roster.pool[u].load && !Blocked(q.roster, u)
    ensures var r' := Requeue(q, id).roster;
            && u in r'.pool && r'.pool[u].load == q.roster.pool[u].load - 1
            && (Clear(r', u, n - 1) <==> Clear(q.roster, u, n))
  {
    hide Distinct, Listed, InLoadOrder, LoadsCount, HeadSlot, Keys, RemoveConversation;
    var r, r' := q.roster, Requeue(q, id).roster;
    DropInverse(q.roster.pool, q.convs, id);
    RemoveReturnsExactly(r, u, id);
    assert r'.order == r.order;
    var i := IndexOf(r.order, u);
    if i > 0 {
      assert r.order[i - 1] != u by { FirstIndex(r.order, u, i - 1); }
    }
  }

  lemma {:induction false} FirstIndex(order: seq<nat>, u: nat, k: nat)
    requires u in order && k < IndexOf(order, u)
    ensures order[k] != u
    decreases |order|
  {
    if k > 0 {
      FirstIndex(order[1..], u, k - 1);
    }
  }

  lemma {:induction false} DrainReturnsExactly(q: State, u: nat, ids: seq<nat>)
    requires Coherent(q)
    requires u in q.roster.pool && Owned(q, u, ids) && |ids| <= q.roster.pool[u].load
    ensures DrainAsWritten(q, ids).Some? <==> ids == [] || Clear(q.roster, u, |ids|)
    decreases |ids|
  {
    hide Distinct, Listed, Covers, InLoadOrder, LoadsCount, Inverse, Clear, DropAsWritten, RemoveConversation,
      Backwards, DrainedPool, OthersOf, DropConversation, Attached;
    if ids != [] {
      var id := ids[0];
      DropInverse(q.roster.pool, q.convs, id);
      DropReturnsExactly(q, id);
      if Clear(q.roster, u, |ids|) {
        ClearWithFewer(q.roster, u, |ids|);
      }
      if !Blocked(q.roster, u) {
        UnblockedStep(q, u, id, |ids|);
        RequeueEffect(q, u, id);
        assert ids[..1] == [id];
        OwnedRest(q, Requeue(q, id), u, ids);
        CoherentAttached(Requeue(q, id));
        DrainReturnsExactly(Requeue(q, id), u, ids[1..]);
      }
    }
  }

  /** With the iterator mended, going offline hangs if and only if the agent has conversations and
      somebody stands directly ahead of it who either has some too or has no larger capacity;
      otherwise it takes the state machine's step. */
  lemma MendedOfflineExactly(q: State, counter: nat, id: Umid)
    requires Coherent(q)
    ensures MendedOffline(q, counter, id) == Hangs <==>
            && Find(q.roster, id)
            && q.roster.pool[id.uin].load > 0
            && var i := IndexOf(q.roster.order, id.uin);
               i > 0 && var b := q.roster.pool[q.roster.order[i - 1]];
                        b.load > 0 || b.capacity <= q.roster.pool[id.uin].capacity
    ensures MendedOffline(q, counter, id) != Hangs ==>
              MendedOffline(q, counter, id) == Finished(Dispatch.AgentOffline(q, counter, id))
  {
    hide Distinct, Listed, InLoadOrder, Inverse, DrainAsWritten, Ascending, Drain, DoInvite, Invitations, Erase,
      Returned, Attached, Backwards;
    if Find(q.roster, id) {
      var u := id.uin;
      var ids := Ascending(q.roster.pool[u].cvs);
      OwnsAscending(q, u);
      DrainReturnsExactly(q, u, ids);
      DrainAgrees(q, ids);
    }
  }

  // ---------- load: a sixteen-bit counter ----------

  /** Connecting a user under a new id keeps the queue coherent if and only if the agent's load is
      below 65535. */
  lemma ConnectCoherentExactly(q: State, cvsId: nat, u: nat)
    requires Coherent(q) && u in q.roster.pool && q.users != [] && cvsId !in q.convs
    ensures Coherent(Connect(q, cvsId, u)) <==> q.roster.pool[u].load < 0xFFFF
  {
    hide Distinct, Listed, Covers, InLoadOrder, IndexOf, TailSlot, Moved, Keys;
    if q.roster.pool[u].load < 0xFFFF {
      AddCoherent(q.roster, q.convs, cvsId, ConvRec(q.queueId, u, q.users[0]));
    } else {
      LoadWraps(q, cvsId, u);
    }
  }

  /** One more conversation and the load reads zero, so the agent counts as free to leave while it
      holds 65536 conversations. */
  lemma LoadWraps(q: State, cvsId: nat, u: nat)
    requires Coherent(q) && u in q.roster.pool && q.users != [] && cvsId !in q.convs
    requires q.roster.pool[u].load == 0xFFFF
    ensures var pool := Connect(q, cvsId, u).roster.pool;
            u in pool && pool[u].load == 0 && |pool[u].cvs| == 0x1_0000 && !LoadsCount(pool)
  {
    hide Distinct, Listed, Covers, InLoadOrder, IndexOf, TailSlot, Moved, Keys;
    var a := q.roster.pool[u];
    assert cvsId !in a.cvs;
    assert |a.cvs + {cvsId}| == |a.cvs| + 1;
    assert Connect(q, cvsId, u).roster.pool[u].cvs == a.cvs + {cvsId};
  }
}
