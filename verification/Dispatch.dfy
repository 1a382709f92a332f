/** The dispatch engine of one queue as a state machine: every operation of the server holds the
    queue's mutex for its whole body, so each is one step from a state to a state. The heap
    classes are proved to compute exactly these steps. */
module Dispatch {
  import opened Types
  import opened LoadOrder
  import opened Rosters

  datatype ConvRec = ConvRec(queueId: nat, agent: nat, user: User)

  datatype State = State(queueId: nat, users: seq<User>, roster: Roster, convs: map<nat, ConvRec>)

  function Empty(queueId: nat): State {
    State(queueId, [], EMPTY_ROSTER, map[])
  }

  /** What an operation tells its caller: its return value and the lists it fills. */
  datatype Reply = Reply(
    ok: bool,
    position: nat := 0,
    invites: seq<Umid> := [],
    told: seq<UserInfo> := [],
    returned: seq<UserConversation> := [],
    accepted: Option<ConversationInfo> := None,
    ended: Option<(Umid, UserConversation)> := None)

  const REJECTED := Reply(false)

  /** `seq` is the shared conversation-id counter, which operations of other queues also move. */
  datatype Next = Next(state: State, counter: nat, reply: Reply)

  // ---- invariants of a single state ----

  /** Conversations and agents are exact inverses of each other. */
  ghost predicate Inverse(pool: map<nat, AgentRec>, convs: map<nat, ConvRec>) {
    && (forall u, id :: u in pool && id in pool[u].cvs ==> id in convs && convs[id].agent == u)
    && (forall id :: id in convs ==> convs[id].agent in pool && id in pool[convs[id].agent].cvs)
  }

  ghost predicate LoadsCount(pool: map<nat, AgentRec>) {
    forall u :: u in pool ==> pool[u].load == |pool[u].cvs|
  }

  ghost predicate Sound(r: Roster, convs: map<nat, ConvRec>) {
    Wf(r) && LoadsCount(r.pool) && Inverse(r.pool, convs)
  }

  ghost predicate Coherent(q: State) {
    Sound(q.roster, q.convs)
  }

  /** The sixteen-bit counters do not overflow. */
  ghost predicate Bounded(q: State) {
    |q.users| <= 0xFFFF && |q.roster.inviting| <= 0xFFFF
  }

  /** Every conversation id in use has been handed out by the counter. */
  ghost predicate Issued(q: State, counter: nat) {
    counter < UINT64_LIMIT && forall id :: id in q.convs ==> id <= counter
  }

  // ---- parts ----

  function DoInvite(q: State): State
    requires Agrees(q.roster)
  {
    q.(roster := Invite(q.roster, |q.users|))
  }

  function Invitations(q: State): seq<Umid>
    requires Agrees(q.roster)
  {
    Ids(q.roster.pool, Chosen(q.roster, |q.users|))
  }

  // Every waiting user from position `from` on, with its one-based position.
  function Positions(users: seq<User>, from: nat): (told: seq<UserInfo>)
    requires from <= |users|
    ensures |told| == |users| - from
    ensures forall k :: 0 <= k < |told| ==> told[k] == UserInfo(users[from + k].id, from + k + 1)
  {
    seq(|users| - from, k requires 0 <= k < |users| - from => UserInfo(users[from + k].id, from + k + 1))
  }

  /** The first waiting place of a login, or the queue's length. */
  function FirstAt(users: seq<User>, id: Umid): (k: nat)
    ensures k <= |users|
    ensures k < |users| ==> users[k].id == id
    ensures forall j :: 0 <= j < k ==> users[j].id != id
  {
    if users == [] || users[0].id == id then 0 else 1 + FirstAt(users[1..], id)
  }

  /** A conversation leaves its agent and then the pool. */
  function DropConversation(q: State, cvsId: nat): (q': State)
    requires Coherent(q) && cvsId in q.convs
    ensures Coherent(q')
  {
    var u := q.convs[cvsId].agent;
    var q' := q.(roster := RemoveConversation(q.roster, u, cvsId), convs := q.convs - {cvsId});
    DropConversationCoherent(q, cvsId);
    q'
  }

  lemma DropInverse(pool: map<nat, AgentRec>, convs: map<nat, ConvRec>, id: nat)
    requires LoadsCount(pool) && Inverse(pool, convs) && id in convs
    ensures var u := convs[id].agent; var a := pool[u];
            var pool' := pool[u := a.(cvs := a.cvs - {id}, load := Dec16(a.load))];
            a.load > 0 && LoadsCount(pool') && Inverse(pool', convs - {id})
  {
    var a := pool[convs[id].agent];
    assert |a.cvs - {id}| == |a.cvs| - 1;
  }

  lemma DropConversationCoherent(q: State, cvsId: nat)
    requires Coherent(q) && cvsId in q.convs
    ensures Sound(RemoveConversation(q.roster, q.convs[cvsId].agent, cvsId), q.convs - {cvsId})
  {
    DropInverse(q.roster.pool, q.convs, cvsId);
    RemoveConversationKeeps(q.roster, q.convs[cvsId].agent, cvsId);
  }

  // ---- operations ----

  function AgentPresence(q: State, counter: nat, id: Umid, capacity: uint16, verified: Option<string>): Next
    requires Coherent(q)
  {
    if verified.None? || id.uin in q.roster.pool then Next(q, counter, REJECTED)
    else
      var a := AgentRec(id, verified.value, Available, capacity, 0, {});
      InsertKeeps(q.roster, a);
      var q1 := q.(roster := Insert(q.roster, a));
      Next(DoInvite(q1), counter, Reply(true, invites := Invitations(q1)))
  }

  function AgentAbsence(q: State, counter: nat, id: Umid): Next
    requires Coherent(q)
  {
    if !Find(q.roster, id) || q.roster.pool[id.uin].load > 0 then Next(q, counter, REJECTED)
    else Next(q.(roster := Erase(q.roster, id.uin)), counter, Reply(true))
  }

  /** One turn of the offline loop: the conversation is dropped and its user goes back to the
      front of the queue; an id without a conversation is skipped. */
  function Requeue(q: State, cvsId: nat): (q': State)
    requires Coherent(q)
    ensures Coherent(q')
  {
    if cvsId !in q.convs then q
    else DropConversation(q, cvsId).(users := [q.convs[cvsId].user] + q.users)
  }

  function Drain(q: State, ids: seq<nat>): (q': State)
    requires Coherent(q)
    ensures Coherent(q')
    decreases |ids|
  {
    if ids == [] then q else Drain(Requeue(q, ids[0]), ids[1..])
  }

  function Returned(convs: map<nat, ConvRec>, ids: seq<nat>): seq<UserConversation>
    decreases |ids|
  {
    if ids == [] then []
    else if ids[0] in convs then
      [UserConversation(convs[ids[0]].user.id, ids[0])] + Returned(convs - {ids[0]}, ids[1..])
    else Returned(convs, ids[1..])
  }

  function AgentOffline(q: State, counter: nat, id: Umid): Next
    requires Coherent(q)
  {
    if !Find(q.roster, id) then Next(q, counter, REJECTED)
    else
      var ids := Ascending(q.roster.pool[id.uin].cvs);
      var q1, returned := Drain(q, ids), Returned(q.convs, ids);
      var q2 := if id.uin in q1.roster.pool && q1.roster.pool[id.uin].load == 0
                then (EraseKeeps(q1.roster, id.uin); q1.(roster := Erase(q1.roster, id.uin)))
                else q1;
      Next(DoInvite(q2), counter, Reply(true, invites := Invitations(q2), returned := returned))
  }

  function AgentAccept(q: State, counter: nat, id: Umid): Next
    requires Coherent(q)
  {
    if !Find(q.roster, id) || id.uin !in q.roster.inviting then Next(q, counter, REJECTED)
    else
      AnswerKeeps(q.roster, id.uin, Available);
      var r1 := Answer(q.roster, id.uin, Available);
      if q.users == [] then Next(q.(roster := r1), counter, REJECTED)
      else Serve(q.(roster := r1), counter, id.uin)
  }

  /** The agent takes the user at the front, under the next conversation id. */
  function Serve(q: State, counter: nat, u: nat): Next
    requires Agrees(q.roster) && u in q.roster.pool && q.users != []
  {
    var cvsId := (counter + 1) % UINT64_LIMIT;
    if cvsId in q.convs then Next(q, cvsId, REJECTED)
    else
      var user := q.users[0];
      var q1 := Connect(q, cvsId, u);
      var info := ConversationInfo(cvsId, q.roster.pool[u].id, q.roster.pool[u].name, user.id, user.address);
      Next(DoInvite(q1), cvsId,
           Reply(true, invites := Invitations(q1), told := Positions(q1.users, 0), accepted := Some(info)))
  }

  function Connect(q: State, cvsId: nat, u: nat): (q': State)
    requires Agrees(q.roster) && u in q.roster.pool && q.users != []
    ensures Agrees(q'.roster)
  {
    AddConversationAgrees(q.roster, u, cvsId);
    State(q.queueId, q.users[1..], AddConversation(q.roster, u, cvsId),
          q.convs[cvsId := ConvRec(q.queueId, u, q.users[0])])
  }

  function AgentRefuse(q: State, counter: nat, id: Umid): Next
    requires Coherent(q)
  {
    var ok := Find(q.roster, id) && id.uin in q.roster.inviting;
    var q1 := if ok then (AnswerKeeps(q.roster, id.uin, Refused); q.(roster := Answer(q.roster, id.uin, Refused)))
              else q;
    Next(DoInvite(q1), counter, Reply(ok, invites := Invitations(q1)))
  }

  function AgentRedirect(q: State, counter: nat, cvsId: nat, from: Umid, to: Umid): Next
    requires Coherent(q)
  {
    if !Find(q.roster, from) || !Find(q.roster, to) then Next(q, counter, REJECTED)
    else if cvsId !in q.convs || q.convs[cvsId].agent != from.uin then Next(q, counter, REJECTED)
    else
      var q1 := HandOver(q, cvsId, from.uin, to.uin);
      Next(DoInvite(q1), counter, Reply(true, invites := Invitations(q1)))
  }

  /** The conversation leaves one agent's set, changes owner, and enters the other's. */
  function HandOver(q: State, cvsId: nat, from: nat, to: nat): (q': State)
    requires Agrees(q.roster) && cvsId in q.convs && from in q.roster.pool && to in q.roster.pool
    ensures Agrees(q'.roster)
  {
    RemoveConversationAgrees(q.roster, from, cvsId);
    var r1 := RemoveConversation(q.roster, from, cvsId);
    AddConversationAgrees(r1, to, cvsId);
    q.(roster := AddConversation(r1, to, cvsId), convs := q.convs[cvsId := q.convs[cvsId].(agent := to)])
  }

  function UserJoin(q: State, counter: nat, id: Umid, address: nat): Next
    requires Coherent(q)
  {
    var q1 := q.(users := q.users + [User(id, address)]);
    Next(DoInvite(q1), counter,
         Reply(true, position := |q1.users| % 0x1_0000, invites := Invitations(q1)))
  }

  function UserDepart(q: State, counter: nat, id: Umid): Next {
    var k := FirstAt(q.users, id);
    if k == |q.users| then Next(q, counter, REJECTED)
    else
      var users := Without(q.users, k);
      Next(q.(users := users), counter, Reply(true, told := Positions(users, k)))
  }

  // The conversation is dropped, yet the call always answers false and invites nobody.
  function ConversationEnd(q: State, counter: nat, cvsId: nat): Next
    requires Coherent(q)
  {
    if cvsId !in q.convs then Next(q, counter, REJECTED)
    else
      var c := q.convs[cvsId];
      Next(DropConversation(q, cvsId), counter,
           REJECTED.(ended := Some((q.roster.pool[c.agent].id, UserConversation(c.user.id, cvsId)))))
  }

  // ---- one step ----

  datatype Event =
    | Presence(id: Umid, capacity: uint16, verified: Option<string>)
    | Absence(id: Umid)
    | Offline(id: Umid)
    | Accept(id: Umid)
    | Refuse(id: Umid)
    | Redirect(cvsId: nat, from: Umid, to: Umid)
    | Join(id: Umid, address: nat)
    | Depart(id: Umid)
    | End(cvsId: nat)
    | Elsewhere  // another queue takes a conversation id

  function Step(q: State, counter: nat, ev: Event): Next
    requires Coherent(q)
  {
    match ev
    case Presence(id, capacity, verified) => AgentPresence(q, counter, id, capacity, verified)
    case Absence(id) => AgentAbsence(q, counter, id)
    case Offline(id) => AgentOffline(q, counter, id)
    case Accept(id) => AgentAccept(q, counter, id)
    case Refuse(id) => AgentRefuse(q, counter, id)
    case Redirect(cvsId, from, to) => AgentRedirect(q, counter, cvsId, from, to)
    case Join(id, address) => UserJoin(q, counter, id, address)
    case Depart(id) => UserDepart(q, counter, id)
    case End(cvsId) => ConversationEnd(q, counter, cvsId)
    case Elsewhere => Next(q, (counter + 1) % UINT64_LIMIT, Reply(true))
  }

  /** The counters have room for what the event is about to count. */
  ghost predicate Room(q: State, counter: nat, ev: Event) {
    match ev
    case Offline(id) => Find(q.roster, id) ==> |q.users| + |q.roster.pool[id.uin].cvs| <= 0xFFFF
    case Accept(id) =>
      counter + 1 < UINT64_LIMIT && (Find(q.roster, id) ==> q.roster.pool[id.uin].load < 0xFFFF)
    case Redirect(_, from, to) =>
      Find(q.roster, to) && from.uin != to.uin ==> q.roster.pool[to.uin].load < 0xFFFF
    case Join(_, _) => |q.users| < 0xFFFF
    case Elsewhere => counter + 1 < UINT64_LIMIT
    case _ => true
  }
}
