/** The users of a queue: they are conserved, they are served first come first served but for
    those an offline agent returns, and they are told their true positions. */
module Waiting {
  import opened Types
  import opened LoadOrder
  import opened Rosters
  import opened Dispatch
  import opened Invariants
  import opened Histories

  /** What a step does to the waiting users and the conversations, and what it reports of them. */
  ghost predicate UsersStep(c: Config, ev: Event, next: Next)
    requires Coherent(c.state)
  {
    var q, q', reply := c.state, next.state, next.reply;
    match ev
    case Join(id, address) =>
      && q'.users == q.users + [User(id, address)] && q'.convs == q.convs
      && reply.told == [] && reply.position == |q.users| + 1
    case Accept(id) =>
      if reply.ok then
        && q.users != [] && c.counter + 1 !in q.convs
        && q'.users == q.users[1..]
        && q'.convs == q.convs[c.counter + 1 := ConvRec(q.queueId, id.uin, q.users[0])]
        && reply.told == Positions(q'.users, 0)
      else q'.users == q.users && q'.convs == q.convs && reply.told == []
    case Depart(id) =>
      var k := FirstAt(q.users, id);
      if k < |q.users| then
        q'.users == Without(q.users, k) && q'.convs == q.convs && reply.told == Positions(q'.users, k)
      else q'.users == q.users && q'.convs == q.convs && reply.told == []
    case Offline(id) =>
      if Find(q.roster, id) then
        var ids := Ascending(q.roster.pool[id.uin].cvs);
        && Owned(q, id.uin, ids)
        && q'.users == Backwards(q.convs, ids) + q.users
        && q'.convs == q.convs - ToSet(ids)
        && reply.told == []
      else q'.users == q.users && q'.convs == q.convs && reply.told == []
    case End(id) =>
      q'.users == q.users && q'.convs == q.convs - {id} && reply.told == []
    case Redirect(id, _, to) =>
      && q'.users == q.users && reply.told == []
      && if reply.ok then id in q.convs && q'.convs == q.convs[id := q.convs[id].(agent := to.uin)]
         else q'.convs == q.convs
    case _ => q'.users == q.users && q'.convs == q.convs && reply.told == []
  }

  lemma StepUsers(c: Config, ev: Event)
    requires Sane(c) && Room(c.state, c.counter, ev)
    ensures UsersStep(c, ev, After(c, ev))
  {
    hide Distinct, Listed, Covers, InLoadOrder, LoadsCount, Inverse, Invite, Invitations, Insert, Erase,
      AddConversation, RemoveConversation, Answer, Drain, Backwards, Positions;
    match ev
    case Offline(id) =>
      if Find(c.state.roster, id) {
        OwnsAscending(c.state, id.uin);
        ToSetAscending(c.state.roster.pool[id.uin].cvs);
        OfflineDrains(c.state, c.counter, id);
      }
    case End(id) =>
      assert id !in c.state.convs ==> c.state.convs - {id} == c.state.convs;
    case _ =>
  }

  // ---- conservation ----

  ghost function Pick(convs: map<nat, ConvRec>): (id: nat)
    requires convs != map[]
    ensures id in convs
  {
    var id :| id in convs;
    id
  }

  lemma MinusOne(convs: map<nat, ConvRec>, id: nat)
    requires id in convs
    ensures |convs - {id}| < |convs|
  {
    assert convs.Keys == (convs - {id}).Keys + {id};
  }

  lemma MinusTwo(convs: map<nat, ConvRec>, a: nat, b: nat)
    ensures convs - {a} - {b} == convs - {b} - {a}
  {
  }

  /** The users being served. */
  ghost function Serving(convs: map<nat, ConvRec>): multiset<User>
    decreases |convs|
  {
    if convs == map[] then multiset{}
    else
      MinusOne(convs, Pick(convs));
      multiset{convs[Pick(convs)].user} + Serving(convs - {Pick(convs)})
  }

  lemma {:induction false} ServingTake(convs: map<nat, ConvRec>, id: nat)
    requires id in convs
    ensures Serving(convs) == multiset{convs[id].user} + Serving(convs - {id})
    decreases |convs|
  {
    var first := Pick(convs);
    if first != id {
      MinusOne(convs, first);
      MinusOne(convs, id);
      ServingTake(convs - {first}, id);
      ServingTake(convs - {id}, first);
      MinusTwo(convs, first, id);
    }
  }

  lemma ServingPut(convs: map<nat, ConvRec>, id: nat, c: ConvRec)
    requires id !in convs
    ensures Serving(convs[id := c]) == Serving(convs) + multiset{c.user}
  {
    ServingTake(convs[id := c], id);
    assert convs[id := c] - {id} == convs;
  }

  lemma PutElsewhere(convs: map<nat, ConvRec>, id: nat, c: ConvRec)
    ensures convs[id := c] - {id} == convs - {id}
  {
  }

  lemma ServingReassign(convs: map<nat, ConvRec>, id: nat, to: nat)
    requires id in convs
    ensures Serving(convs[id := convs[id].(agent := to)]) == Serving(convs)
  {
    hide Serving;
    ServingTake(convs, id);
    ServingTake(convs[id := convs[id].(agent := to)], id);
    PutElsewhere(convs, id, convs[id].(agent := to));
  }

  lemma {:induction false} ServingReturned(convs: map<nat, ConvRec>, ids: seq<nat>)
    requires Distinct(ids) && forall k :: 0 <= k < |ids| ==> ids[k] in convs
    ensures multiset(Backwards(convs, ids)) + Serving(convs - ToSet(ids)) == Serving(convs)
    decreases |ids|
  {
    hide Serving, Backwards;
    if ids == [] {
      assert convs - ToSet(ids) == convs;
    } else {
      var convs1 := convs - ToSet(ids[..1]);
      FirstReturned(convs, ids);
      BackwardsTrans(convs, convs1, ids);
      ServingReturned(convs1, ids[1..]);
      ServingTake(convs, ids[0]);
    }
  }

  lemma FirstReturned(convs: map<nat, ConvRec>, ids: seq<nat>)
    requires ids != [] && ids[0] in convs
    ensures convs - ToSet(ids[..1]) == convs - {ids[0]}
    ensures Backwards(convs, ids[..1]) == [convs[ids[0]].user]
  {
    assert ToSet(ids[..1]) == {ids[0]};
  }

  /** Everyone who joined is waiting, being served, departed, or done. */
  ghost predicate Balanced(q: State, h: History) {
    multiset(q.users) + Serving(q.convs) + h.departed + h.ended == h.joined
  }

  lemma DropAt(users: seq<User>, k: nat)
    requires k < |users|
    ensures multiset(users) == multiset(Without(users, k)) + multiset{users[k]}
  {
    assert users == users[..k] + [users[k]] + users[k + 1..];
  }

  lemma FrontMoves(q: State, q': State, id: nat, conv: ConvRec)
    requires q.users != [] && id !in q.convs && conv.user == q.users[0]
    requires q'.users == q.users[1..] && q'.convs == q.convs[id := conv]
    ensures multiset(q'.users) + Serving(q'.convs) == multiset(q.users) + Serving(q.convs)
  {
    hide Serving;
    ServingPut(q.convs, id, conv);
    assert q.users == [q.users[0]] + q.users[1..];
  }

  lemma AcceptBalanced(c: Config, h: History, ev: Event)
    requires Sane(c) && Room(c.state, c.counter, ev) && ev.Accept?
    requires Balanced(c.state, h) && |h.tickets| == |c.state.users|
    ensures Balanced(After(c, ev).state, Track(c, h, ev, After(c, ev)))
  {
    hide Wf, LoadsCount, Inverse, Bounded, Issued, Step, Serving, Without, Backwards, Positions, Tell, Doubled, LeftoverAfter,
      RedirectedAfter, Invites, Ascending;
    var q := c.state;
    StepUsers(c, ev);
    if After(c, ev).reply.ok {
      FrontMoves(q, After(c, ev).state, c.counter + 1, ConvRec(q.queueId, ev.id.uin, q.users[0]));
    }
  }

  lemma DepartBalanced(c: Config, h: History, ev: Event)
    requires Sane(c) && Room(c.state, c.counter, ev) && ev.Depart?
    requires Balanced(c.state, h) && |h.tickets| == |c.state.users|
    ensures Balanced(After(c, ev).state, Track(c, h, ev, After(c, ev)))
  {
    hide Wf, LoadsCount, Inverse, Bounded, Issued, Step, Serving, Without, Backwards, Positions, Tell, Doubled, LeftoverAfter,
      RedirectedAfter, Invites, Ascending;
    var q := c.state;
    StepUsers(c, ev);
    if FirstAt(q.users, ev.id) < |q.users| {
      DropAt(q.users, FirstAt(q.users, ev.id));
    }
  }

  lemma OfflineBalanced(c: Config, h: History, ev: Event)
    requires Sane(c) && Room(c.state, c.counter, ev) && ev.Offline?
    requires Balanced(c.state, h) && |h.tickets| == |c.state.users|
    ensures Balanced(After(c, ev).state, Track(c, h, ev, After(c, ev)))
  {
    hide Wf, LoadsCount, Inverse, Bounded, Issued, Step, Serving, Without, Backwards, Positions, Tell, Doubled, LeftoverAfter,
      RedirectedAfter, Invites, Ascending;
    var q := c.state;
    StepUsers(c, ev);
    if Find(q.roster, ev.id) {
      ServingReturned(q.convs, Ascending(q.roster.pool[ev.id.uin].cvs));
    }
  }

  lemma EndBalanced(c: Config, h: History, ev: Event)
    requires Sane(c) && Room(c.state, c.counter, ev) && ev.End?
    requires Balanced(c.state, h) && |h.tickets| == |c.state.users|
    ensures Balanced(After(c, ev).state, Track(c, h, ev, After(c, ev)))
  {
    hide Wf, LoadsCount, Inverse, Bounded, Issued, Step, Serving, Without, Backwards, Positions, Tell, Doubled, LeftoverAfter,
      RedirectedAfter, Invites, Ascending;
    var q := c.state;
    StepUsers(c, ev);
    if ev.cvsId in q.convs {
      ServingTake(q.convs, ev.cvsId);
    } else {
      assert q.convs - {ev.cvsId} == q.convs;
    }
  }

  lemma RedirectBalanced(c: Config, h: History, ev: Event)
    requires Sane(c) && Room(c.state, c.counter, ev) && ev.Redirect?
    requires Balanced(c.state, h) && |h.tickets| == |c.state.users|
    ensures Balanced(After(c, ev).state, Track(c, h, ev, After(c, ev)))
  {
    hide Wf, LoadsCount, Inverse, Bounded, Issued, Step, Serving, Without, Backwards, Positions, Tell, Doubled, LeftoverAfter,
      RedirectedAfter, Invites, Ascending;
    var q := c.state;
    StepUsers(c, ev);
    if After(c, ev).reply.ok {
      ServingReassign(q.convs, ev.cvsId, ev.to.uin);
    }
  }

  /** Every operation conserves the users. */
  lemma StepBalanced(c: Config, h: History, ev: Event)
    requires Sane(c) && Room(c.state, c.counter, ev)
    requires Balanced(c.state, h) && |h.tickets| == |c.state.users|
    ensures Balanced(After(c, ev).state, Track(c, h, ev, After(c, ev)))
  {
    hide Wf, LoadsCount, Inverse, Step, Serving, Tell, Doubled, LeftoverAfter, RedirectedAfter, Invites;
    match ev
    case Accept(_) => AcceptBalanced(c, h, ev);
    case Depart(_) => DepartBalanced(c, h, ev);
    case Offline(_) => OfflineBalanced(c, h, ev);
    case End(_) => EndBalanced(c, h, ev);
    case Redirect(_, _, _) => RedirectBalanced(c, h, ev);
    case _ => StepUsers(c, ev);
  }

}
