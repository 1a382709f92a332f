/** What an operation changes, in terms of the state before it: every agent's record, the inviting set,
    the list, and whom it invites. */
module Changes {
  import opened Types
  import opened LoadOrder
  import opened Rosters
  import opened Dispatch
  import opened Invariants
  import opened Histories
  import opened InvitedFirst
  import opened Effects

  // ---- what the operation itself does to the agents, before anybody is invited ----

  // The accounts whose invitation the event answers.
  ghost function Consumed(q: State, ev: Event): set<nat> {
    match ev
    case Accept(id) => if Asked(q, id) then {id.uin} else {}
    case Refuse(id) => if Asked(q, id) then {id.uin} else {}
    case _ => {}
  }

  ghost predicate Pooled(q: State, ev: Event, u: nat) {
    match ev
    case Presence(id, _, _) => u in q.roster.pool || (Succeeds(q, ev) && u == id.uin)
    case Absence(id) => u in q.roster.pool && !(Succeeds(q, ev) && u == id.uin)
    case Offline(id) => u in q.roster.pool && !(Succeeds(q, ev) && u == id.uin)
    case _ => u in q.roster.pool
  }

  /** The record of an account is the one it registered with, conversations and state aside. */
  ghost predicate SamePerson(q: State, ev: Event, u: nat, a: AgentRec) {
    if u in q.roster.pool then
      a.id == q.roster.pool[u].id && a.name == q.roster.pool[u].name && a.capacity == q.roster.pool[u].capacity
    else
      && ev.Presence? && ev.verified.Some?
      && a.id == ev.id && a.name == ev.verified.value && a.capacity == ev.capacity
  }

  /** The state changes only by an answer; a newcomer is available. */
  ghost function StateAfter(q: State, ev: Event, u: nat): AgentState {
    if u !in q.roster.pool then Available
    else if u !in Consumed(q, ev) then q.roster.pool[u].state
    else if ev.Refuse? then Refused
    else Available
  }

  ghost predicate OwnRecords(q: State, ev: Event, r: Roster) {
    && (forall u :: u in r.pool <==> Pooled(q, ev, u))
    && (forall u :: u in r.pool ==> SamePerson(q, ev, u, r.pool[u]) && r.pool[u].state == StateAfter(q, ev, u))
    && r.inviting == q.roster.inviting - Consumed(q, ev)
  }

  // ---- the list ----

  // The accounts whose node the event puts in, takes out or moves.
  ghost function Touched(q: State, ev: Event): set<nat> {
    if ev.End? then (if ev.cvsId in q.convs then {q.convs[ev.cvsId].agent} else {})
    else if !Succeeds(q, ev) then {}
    else match ev
      case Presence(id, _, _) => {id.uin}
      case Absence(id) => {id.uin}
      case Offline(id) => {id.uin}
      case Accept(id) => {id.uin}
      case Redirect(_, from, to) => {from.uin, to.uin}
      case _ => {}
  }

  /** The accounts of a list that are not in us, in order. */
  function Rest(order: seq<nat>, us: set<nat>): (rest: seq<nat>)
    ensures forall u :: u in rest <==> u in order && u !in us
  {
    if order == [] then []
    else if order[0] in us then Rest(order[1..], us)
    else [order[0]] + Rest(order[1..], us)
  }

  ghost predicate LastOfEquals(order: seq<nat>, pool: map<nat, AgentRec>, u: nat) {
    forall j, k :: 0 <= j < k < |order| && order[j] == u && u in pool && order[k] in pool ==>
      || pool[order[k]].load > pool[u].load
      || (pool[order[k]].load == pool[u].load && pool[order[k]].capacity < pool[u].capacity)
  }

  ghost predicate FirstOfEquals(order: seq<nat>, pool: map<nat, AgentRec>, u: nat) {
    forall j, k :: 0 <= j < k < |order| && order[k] == u && u in pool && order[j] in pool ==>
      || pool[order[j]].load < pool[u].load
      || (pool[order[j]].load == pool[u].load && pool[order[j]].capacity > pool[u].capacity)
  }

  /** The others keep their order; an agent that took on a conversation, or registered, stands behind
      those as loaded and as capable, and one that gave one up ahead of them. */
  ghost predicate Relisted(q: State, ev: Event, r: Roster) {
    && Rest(r.order, Touched(q, ev)) == Rest(q.roster.order, Touched(q, ev))
    && (Touched(q, ev) == {} ==> r.order == q.roster.order)
    && (ev.End? && ev.cvsId in q.convs ==> FirstOfEquals(r.order, r.pool, q.convs[ev.cvsId].agent))
    && (Succeeds(q, ev) ==>
          match ev
          case Presence(id, _, _) => LastOfEquals(r.order, r.pool, id.uin)
          case Accept(id) => LastOfEquals(r.order, r.pool, id.uin)
          case Redirect(_, from, to) =>
            && LastOfEquals(r.order, r.pool, to.uin)
            && (from.uin != to.uin ==> FirstOfEquals(Rest(r.order, {to.uin}), r.pool, from.uin))
          case _ => true)
  }

  // ---- lists ----

  lemma {:induction false} RestWithout(order: seq<nat>, i: nat, us: set<nat>)
    requires i < |order| && order[i] in us
    ensures Rest(Without(order, i), us) == Rest(order, us)
    decreases |order|
  {
    if i == 0 {
      assert Without(order, 0) == order[1..];
    } else {
      assert Without(order, i)[0] == order[0];
      assert Without(order, i)[1..] == Without(order[1..], i - 1);
      RestWithout(order[1..], i - 1, us);
    }
  }

  lemma {:induction false} FirstOfRest(order: seq<nat>, us: set<nat>, pool: map<nat, AgentRec>, u: nat)
    requires FirstOfEquals(order, pool, u)
    ensures FirstOfEquals(Rest(order, us), pool, u)
    decreases |order|
  {
    if order != [] {
      assert forall j, k :: 0 <= j < k < |order[1..]| ==> order[1..][j] == order[j + 1] && order[1..][k] == order[k + 1];
      FirstOfRest(order[1..], us, pool, u);
      var rest := Rest(order[1..], us);
      if order[0] !in us {
        forall k | 0 < k < |[order[0]] + rest| && ([order[0]] + rest)[k] == u
          ensures u in order[1..]
        {
          assert rest[k - 1] in rest;
        }
        assert forall k :: 0 < k < |[order[0]] + rest| ==> ([order[0]] + rest)[k] == rest[k - 1];
      }
    }
  }

  lemma SlideKeepsRest(order: seq<nat>, i: nat, slot: nat, us: set<nat>)
    requires i < |order| && slot < |order| && order[i] in us
    ensures Rest(Moved(order, i, slot), us) == Rest(order, us)
  {
    hide Rest;
    MovedKeepsOthers(order, i, slot);
    RestWithout(order, i, us);
    RestWithout(Moved(order, i, slot), slot, us);
  }

  // What stands behind a node after its slide is a node that stood elsewhere before.
  lemma BehindSlot(order: seq<nat>, pool: map<nat, AgentRec>, i: nat, slot: nat, k: nat)
    requires i < |order| && slot < k < |order| && Listed(order, pool)
    requires BehindEquals(Without(Keys(order, pool), i), slot, Keys(order, pool)[i])
    ensures Moved(order, i, slot)[k] in pool
    ensures !MayPrecede(pool[Moved(order, i, slot)[k]].OrderKey(), pool[order[i]].OrderKey())
  {
    hide MayPrecede;
    MovedAt(order, i, slot, k);
    var keys := Keys(order, pool);
    var was := if k - 1 < i then k - 1 else k;
    assert Moved(order, i, slot)[k] == order[was];
    assert Without(keys, i)[k - 1] == keys[was];
  }

  // A node slid to the right place stands behind, or ahead of, its equals.
  lemma TailPlace(order: seq<nat>, pool: map<nat, AgentRec>, i: nat)
    requires i < |order| && Distinct(order) && Listed(order, pool) && LooseToTail(order, pool, i)
    ensures var order' := Moved(order, i, TailSlot(Keys(order, pool), i));
            LastOfEquals(order', pool, order[i]) && forall us :: order[i] in us ==> Rest(order', us) == Rest(order, us)
  {
    hide LooseToTail, Keys, TailSlot, Moved, Rest, BehindEquals;
    var slot := TailSlot(Keys(order, pool), i);
    var order' := Moved(order, i, slot);
    BehindItsEquals(order, pool, i);
    MovedAt(order, i, slot, slot);
    MovedDistinct(order, i, slot);
    forall us | order[i] in us ensures Rest(order', us) == Rest(order, us) {
      SlideKeepsRest(order, i, slot, us);
    }
    forall j, k | 0 <= j < k < |order'| && order'[j] == order[i]
      ensures order'[k] in pool && !MayPrecede(pool[order'[k]].OrderKey(), pool[order[i]].OrderKey())
    {
      assert j == slot;
      BehindSlot(order, pool, i, slot, k);
    }
  }

  lemma BehindItsEquals(order: seq<nat>, pool: map<nat, AgentRec>, i: nat)
    requires i < |order| && Listed(order, pool) && LooseToTail(order, pool, i)
    ensures var keys := Keys(order, pool); BehindEquals(Without(keys, i), TailSlot(keys, i), keys[i])
  {
    OrderToTailCorrect(Keys(order, pool), i);
  }

  lemma HeadPlace(order: seq<nat>, pool: map<nat, AgentRec>, i: nat)
    requires i < |order| && Distinct(order) && Listed(order, pool) && LooseToHead(order, pool, i)
    ensures var order' := Moved(order, i, HeadSlot(Keys(order, pool), i));
            FirstOfEquals(order', pool, order[i]) && forall us :: order[i] in us ==> Rest(order', us) == Rest(order, us)
  {
    hide LooseToHead;
    var keys := Keys(order, pool);
    var slot := HeadSlot(keys, i);
    var order' := Moved(order, i, slot);
    assert AheadOfEquals(Without(keys, i), slot, keys[i]) by { AheadOfItsEquals(order, pool, i); }
    MovedKeepsOthers(order, i, slot);
    MovedDistinct(order, i, slot);
    forall us | order[i] in us ensures Rest(order', us) == Rest(order, us) {
      RestWithout(order, i, us);
      RestWithout(order', slot, us);
    }
    forall j, k | 0 <= j < k < |order'| && order'[k] == order[i]
      ensures !MayPrecede(pool[order[i]].OrderKey(), pool[order'[j]].OrderKey())
    {
      assert order'[slot] == order[i];
      assert k == slot;
      MovedAt(order, i, slot, j);
      assert Without(order, i)[j] == order'[j];
      assert Without(keys, i)[j] == pool[order'[j]].OrderKey();
    }
  }

  lemma AheadOfItsEquals(order: seq<nat>, pool: map<nat, AgentRec>, i: nat)
    requires i < |order| && Listed(order, pool) && LooseToHead(order, pool, i)
    ensures var keys := Keys(order, pool); AheadOfEquals(Without(keys, i), HeadSlot(keys, i), keys[i])
  {
    OrderToHeadCorrect(Keys(order, pool), i);
  }

  // ---- the roster's operations on the list ----

  lemma InsertPlaces(r: Roster, a: AgentRec)
    requires Wf(r) && a.id.uin !in r.pool
    ensures var r' := Insert(r, a);
            && LastOfEquals(r'.order, r'.pool, a.id.uin)
            && Rest(r'.order, {a.id.uin}) == Rest(r.order, {a.id.uin})
  {
    hide Keys, Moved, TailSlot, MayPrecede, LastOfEquals, Rest;
    var pool, order := r.pool[a.id.uin := a], [a.id.uin] + r.order;
    MembersInserted(r.order, r.pool, a);
    KeysInserted(r.order, r.pool, a);
    assert LooseToTail(order, pool, 0);
    TailPlace(order, pool, 0);
    RestWithout(order, 0, {a.id.uin});
    assert Without(order, 0) == r.order;
  }

  lemma AddPlaces(r: Roster, u: nat, id: nat)
    requires Wf(r) && u in r.pool && id !in r.pool[u].cvs && r.pool[u].load < 0xFFFF
    ensures var r' := AddConversation(r, u, id);
            && LastOfEquals(r'.order, r'.pool, u)
            && forall us :: u in us ==> Rest(r'.order, us) == Rest(r.order, us)
  {
    hide Keys, Moved, TailSlot, LastOfEquals, Rest;
    var a := r.pool[u].(cvs := r.pool[u].cvs + {id}, load := Inc16(r.pool[u].load));
    KeyRises(r, u, a);
    TailPlace(r.order, r.pool[u := a], IndexOf(r.order, u));
  }

  lemma RemovePlaces(r: Roster, u: nat, id: nat)
    requires Wf(r) && u in r.pool && id in r.pool[u].cvs && r.pool[u].load > 0
    ensures var r' := RemoveConversation(r, u, id);
            && FirstOfEquals(r'.order, r'.pool, u)
            && forall us :: u in us ==> Rest(r'.order, us) == Rest(r.order, us)
  {
    hide Keys, Moved, HeadSlot, FirstOfEquals, Rest;
    var a := r.pool[u].(cvs := r.pool[u].cvs - {id}, load := Dec16(r.pool[u].load));
    KeyFalls(r, u, a);
    HeadPlace(r.order, r.pool[u := a], IndexOf(r.order, u));
  }

  lemma ErasePlaces(r: Roster, u: nat)
    requires Agrees(r) && u in r.pool
    ensures Rest(Erase(r, u).order, {u}) == Rest(r.order, {u})
  {
    hide Rest;
    RestWithout(r.order, IndexOf(r.order, u), {u});
  }

  // ---- each operation, before anybody is invited ----

  ghost predicate CallsInvite(q: State, ev: Event) {
    match ev
    case Presence(_, _, _) => Succeeds(q, ev)
    case Accept(_) => Succeeds(q, ev)
    case Redirect(_, _, _) => Succeeds(q, ev)
    case Offline(_) => Succeeds(q, ev)
    case Refuse(_) => true
    case Join(_, _) => true
    case _ => false
  }

  /** The state in which the operation comes to invite, or which it leaves if it does not. */
  ghost predicate Uninvited(c: Config, ev: Event, q1: State)
    requires Coherent(c.state)
  {
    var next := After(c, ev);
    && Wf(q1.roster)
    && if CallsInvite(c.state, ev) then next.state == DoInvite(q1) && next.reply.invites == Invitations(q1)
       else next.state == q1 && next.reply.invites == []
  }

  ghost predicate OwnStep(c: Config, ev: Event, q1: State)
    requires Coherent(c.state)
  {
    Uninvited(c, ev, q1) && OwnRecords(c.state, ev, q1.roster) && Relisted(c.state, ev, q1.roster)
  }

  lemma PresenceOwn(c: Config, ev: Event) returns (q1: State)
    requires Sane(c) && ev.Presence?
    ensures OwnStep(c, ev, q1)
  {
    hide Distinct, Listed, Covers, InLoadOrder, LoadsCount, Inverse, DoInvite, Invitations, Keys, Moved, TailSlot,
      LastOfEquals, Rest;
    var q := c.state;
    q1 := q;
    if Succeeds(q, ev) {
      var a := AgentRec(ev.id, ev.verified.value, Available, ev.capacity, 0, {});
      InsertKeeps(q.roster, a);
      InsertPlaces(q.roster, a);
      q1 := q.(roster := Insert(q.roster, a));
    }
  }

  lemma ErasedRoster(r: Roster, u: nat)
    requires Wf(r) && u in r.pool
    ensures var r' := Erase(r, u);
            Wf(r') && r'.pool == r.pool - {u} && r'.inviting == r.inviting && Rest(r'.order, {u}) == Rest(r.order, {u})
  {
    hide Rest;
    EraseKeeps(r, u);
    ErasePlaces(r, u);
  }

  lemma AbsenceOwn(c: Config, ev: Event) returns (q1: State)
    requires Sane(c) && ev.Absence?
    ensures OwnStep(c, ev, q1)
  {
    hide Distinct, Listed, Covers, InLoadOrder, LoadsCount, Inverse, Erase, Rest;
    var q := c.state;
    FindKnows(q, ev.id);
    q1 := q;
    if Succeeds(q, ev) {
      ErasedRoster(q.roster, ev.id.uin);
      q1 := q.(roster := Erase(q.roster, ev.id.uin));
    }
  }

  lemma OfflineUninvited(c: Config, ev: Event)
    requires Sane(c) && ev.Offline? && Succeeds(c.state, ev)
    ensures Uninvited(c, ev, WithoutAgent(c.state, ev.id.uin))
  {
    hide Agrees, InLoadOrder, LoadsCount, Inverse, WithoutAgent, DoInvite, Invitations, AgentOffline, Bounded, Issued, Known;
    FindKnows(c.state, ev.id);
    OfflineDrains(c.state, c.counter, ev.id);
  }

  lemma OfflineOwn(c: Config, ev: Event) returns (q1: State)
    requires Sane(c) && ev.Offline?
    ensures OwnStep(c, ev, q1)
  {
    hide Distinct, Listed, Covers, InLoadOrder, LoadsCount, Inverse, Erase, Rest, Uninvited, Backwards, Ascending;
    var q := c.state;
    q1 := q;
    if Succeeds(q, ev) {
      ErasedRoster(q.roster, ev.id.uin);
      OfflineUninvited(c, ev);
      q1 := WithoutAgent(q, ev.id.uin);
    } else {
      OfflineUnknown(c, ev);
    }
  }

  lemma OfflineUnknown(c: Config, ev: Event)
    requires Sane(c) && ev.Offline? && !Succeeds(c.state, ev)
    ensures Uninvited(c, ev, c.state)
  {
    hide Distinct, Listed, Covers, InLoadOrder, LoadsCount, Inverse, DoInvite, Invitations, Drain, Erase, Returned;
    FindKnows(c.state, ev.id);
  }

  // What the acceptance makes of the roster.
  lemma AcceptPlaces(q: State, u: nat, id: nat)
    requires Coherent(q) && u in q.roster.pool && q.roster.pool[u].load < 0xFFFF && id !in q.convs
    ensures var r1 := Answer(q.roster, u, Available);
            Agrees(r1) && var r, r' := q.roster, AddConversation(r1, u, id);
            && Wf(r')
            && r'.inviting == r.inviting - {u}
            && r'.pool.Keys == r.pool.Keys
            && (forall v :: v in r.pool ==>
                  && r'.pool[v].id == r.pool[v].id && r'.pool[v].name == r.pool[v].name
                  && r'.pool[v].capacity == r.pool[v].capacity
                  && r'.pool[v].state == if v == u then Available else r.pool[v].state)
            && LastOfEquals(r'.order, r'.pool, u)
            && Rest(r'.order, {u}) == Rest(r.order, {u})
  {
    hide Distinct, Listed, Covers, InLoadOrder, LoadsCount, AddConversation, LastOfEquals, Rest;
    var r1 := Answer(q.roster, u, Available);
    AnswerKeeps(q.roster, u, Available);
    assert id !in q.roster.pool[u].cvs;
    AddsOne(r1, u, id);
    AddPlaces(r1, u, id);
    AddConversationKeeps(r1, u, id);
  }

  lemma AcceptServes(c: Config, ev: Event) returns (q1: State)
    requires Sane(c) && Room(c.state, c.counter, ev) && ev.Accept? && Succeeds(c.state, ev)
    ensures OwnStep(c, ev, q1)
  {
    hide Distinct, Listed, Covers, InLoadOrder, LoadsCount, Inverse, DoInvite, Invitations, Positions, AddConversation,
      LastOfEquals, Rest;
    var q, u, id := c.state, ev.id.uin, c.counter + 1;
    FindKnows(q, ev.id);
    FreshId(c);
    AcceptPlaces(q, u, id);
    q1 := Connect(q.(roster := Answer(q.roster, u, Available)), id, u);
  }

  lemma AcceptOwn(c: Config, ev: Event) returns (q1: State)
    requires Sane(c) && Room(c.state, c.counter, ev) && ev.Accept?
    ensures OwnStep(c, ev, q1)
  {
    hide Distinct, Listed, Covers, InLoadOrder, LoadsCount, Inverse, DoInvite, Invitations, Positions, AddConversation,
      LastOfEquals, Rest, Connect;
    var q, u := c.state, ev.id.uin;
    FindKnows(q, ev.id);
    q1 := q;
    if Succeeds(q, ev) {
      q1 := AcceptServes(c, ev);
    } else if Asked(q, ev.id) {
      AnswerKeeps(q.roster, u, Available);
      q1 := q.(roster := Answer(q.roster, u, Available));
    }
  }

  lemma RefuseOwn(c: Config, ev: Event) returns (q1: State)
    requires Sane(c) && ev.Refuse?
    ensures OwnStep(c, ev, q1)
  {
    hide Distinct, Listed, Covers, InLoadOrder, LoadsCount, Inverse, DoInvite, Invitations, Rest;
    var q, u := c.state, ev.id.uin;
    FindKnows(q, ev.id);
    q1 := q;
    if Asked(q, ev.id) {
      AnswerKeeps(q.roster, u, Refused);
      q1 := q.(roster := Answer(q.roster, u, Refused));
    }
  }

  lemma RedirectOwn(c: Config, ev: Event) returns (q1: State)
    requires Sane(c) && Room(c.state, c.counter, ev) && ev.Redirect?
    ensures OwnStep(c, ev, q1)
  {
    hide Distinct, Listed, Covers, InLoadOrder, LoadsCount, Inverse, DoInvite, Invitations, HandOver, Rest,
      FirstOfEquals, LastOfEquals, OwnRecords;
    var q := c.state;
    FindKnows(q, ev.from);
    FindKnows(q, ev.to);
    q1 := q;
    if Succeeds(q, ev) {
      HandOverCoherent(q, ev.cvsId, ev.to.uin);
      HandOverPlaces(q, ev.cvsId, ev.to.uin);
      q1 := HandOver(q, ev.cvsId, ev.from.uin, ev.to.uin);
      RedirectRecords(c, ev);
    } else {
      NothingChanges(q, ev);
    }
  }

  lemma NothingChanges(q: State, ev: Event)
    requires ev.Redirect? && !Succeeds(q, ev)
    ensures OwnRecords(q, ev, q.roster)
  {
    hide Succeeds;
  }

  lemma HandOverRecords(q: State, id: nat, to: nat)
    requires Coherent(q) && id in q.convs && to in q.roster.pool
    requires to != q.convs[id].agent ==> q.roster.pool[to].load < 0xFFFF
    ensures var r, r' := q.roster, HandOver(q, id, q.convs[id].agent, to).roster;
            && r'.inviting == r.inviting && r'.pool.Keys == r.pool.Keys
            && forall u :: u in r.pool ==>
                 && r'.pool[u].id == r.pool[u].id && r'.pool[u].name == r.pool[u].name
                 && r'.pool[u].capacity == r.pool[u].capacity && r'.pool[u].state == r.pool[u].state
  {
    hide Distinct, Listed, Covers, InLoadOrder, LoadsCount, RemoveConversation, AddConversation;
    var from := q.convs[id].agent;
    DropInverse(q.roster.pool, q.convs, id);
    RemovesOne(q.roster, from, id);
    RemoveConversationAgrees(q.roster, from, id);
    AddsOne(RemoveConversation(q.roster, from, id), to, id);
  }

  lemma RedirectRecords(c: Config, ev: Event)
    requires Sane(c) && Room(c.state, c.counter, ev) && ev.Redirect? && Succeeds(c.state, ev)
    ensures OwnRecords(c.state, ev, HandOver(c.state, ev.cvsId, ev.from.uin, ev.to.uin).roster)
  {
    hide Distinct, Listed, Covers, InLoadOrder, LoadsCount, Inverse, HandOver;
    HandOverRecords(c.state, ev.cvsId, ev.to.uin);
  }

  lemma HandOverPlaces(q: State, id: nat, to: nat)
    requires Coherent(q) && id in q.convs && to in q.roster.pool
    requires to != q.convs[id].agent ==> q.roster.pool[to].load < 0xFFFF
    ensures var from := q.convs[id].agent;
            var r' := HandOver(q, id, from, to).roster;
            && Rest(r'.order, {from, to}) == Rest(q.roster.order, {from, to})
            && LastOfEquals(r'.order, r'.pool, to)
            && (from != to ==> FirstOfEquals(Rest(r'.order, {to}), r'.pool, from))
  {
    hide Distinct, Listed, Covers, InLoadOrder, LoadsCount, RemoveConversation, AddConversation, Rest, LastOfEquals,
      FirstOfEquals;
    var from := q.convs[id].agent;
    DropInverse(q.roster.pool, q.convs, id);
    RemovesOne(q.roster, from, id);
    RemovePlaces(q.roster, from, id);
    RemoveConversationKeeps(q.roster, from, id);
    var r1 := RemoveConversation(q.roster, from, id);
    AddsOne(r1, to, id);
    AddPlaces(r1, to, id);
    var r' := AddConversation(r1, to, id);
    if from != to {
      FirstOfRest(r1.order, {to}, r1.pool, from);
      SameOthersFirst(Rest(r1.order, {to}), r1.pool, r'.pool, from, to);
    }
  }

  lemma SameOthersFirst(order: seq<nat>, pool: map<nat, AgentRec>, pool': map<nat, AgentRec>, u: nat, v: nat)
    requires FirstOfEquals(order, pool, u) && u != v && v !in order
    requires pool'.Keys == pool.Keys && forall w :: w in pool && w != v ==> pool'[w] == pool[w]
    ensures FirstOfEquals(order, pool', u)
  {
  }

  lemma DropPlaces(q: State, id: nat)
    requires Coherent(q) && id in q.convs
    ensures var u, r, r' := q.convs[id].agent, q.roster, DropConversation(q, id).roster;
            && Wf(r')
            && r'.inviting == r.inviting && r'.pool.Keys == r.pool.Keys
            && (forall v :: v in r.pool ==>
                  && r'.pool[v].id == r.pool[v].id && r'.pool[v].name == r.pool[v].name
                  && r'.pool[v].capacity == r.pool[v].capacity && r'.pool[v].state == r.pool[v].state)
            && FirstOfEquals(r'.order, r'.pool, u)
            && Rest(r'.order, {u}) == Rest(r.order, {u})
  {
    hide Distinct, Listed, Covers, InLoadOrder, LoadsCount, RemoveConversation, FirstOfEquals, Rest;
    var u := q.convs[id].agent;
    DropInverse(q.roster.pool, q.convs, id);
    RemovesOne(q.roster, u, id);
    RemovePlaces(q.roster, u, id);
    RemoveConversationKeeps(q.roster, u, id);
  }

  lemma EndOwn(c: Config, ev: Event) returns (q1: State)
    requires Sane(c) && ev.End?
    ensures OwnStep(c, ev, q1)
  {
    hide Distinct, Listed, Covers, InLoadOrder, LoadsCount, Inverse, DropConversation, Rest, FirstOfEquals;
    var q := c.state;
    q1 := q;
    if ev.cvsId in q.convs {
      DropPlaces(q, ev.cvsId);
      q1 := DropConversation(q, ev.cvsId);
    }
  }

  lemma LineOwn(c: Config, ev: Event) returns (q1: State)
    requires Sane(c) && (ev.Join? || ev.Depart? || ev.Elsewhere?)
    ensures OwnStep(c, ev, q1)
  {
    hide Distinct, Listed, Covers, InLoadOrder, LoadsCount, Inverse, DoInvite, Invitations, Rest, FirstAt, Positions;
    q1 := if ev.Join? then c.state.(users := c.state.users + [User(ev.id, ev.address)]) else After(c, ev).state;
  }

  // ---- every operation ----

  /** Whom the operation invited: who has an invitation out now and had none, or answered it. */
  ghost function Newly(q: State, ev: Event, q': State): set<nat> {
    q'.roster.inviting - (q.roster.inviting - Consumed(q, ev))
  }

  /** Agents come and go only by presence, absence and offline; their records keep identity and
      capacity, count their conversations, and change state only by an answer or an invitation. */
  ghost predicate Records(q: State, ev: Event, q': State) {
    && (forall u :: u in q'.roster.pool <==> Pooled(q, ev, u))
    && (forall u :: u in q'.roster.pool ==>
          var a := q'.roster.pool[u];
          && SamePerson(q, ev, u, a)
          && a.state == (if u in Newly(q, ev, q') then AgentState.Inviting else StateAfter(q, ev, u))
          && (forall id :: id in a.cvs <==> id in q'.convs && q'.convs[id].agent == u)
          && a.load == |a.cvs|)
    && q.roster.inviting - Consumed(q, ev) <= q'.roster.inviting
  }

  /** Nobody is invited but by an operation that invites; those who are had been available and not
      invited, and were the first in the list. The operation reports exactly them, in list order. */
  ghost predicate InvitesFirst(q: State, ev: Event, next: Next) {
    var us, r' := Newly(q, ev, next.state), next.state.roster;
    && ListsLogins(r', us, next.reply.invites)
    && (forall u :: u in us ==> StateAfter(q, ev, u) == Available)
    && if CallsInvite(q, ev) then FirstInvited(r', us, |next.state.users|) else us == {}
  }

  ghost predicate SameLoads(r: Roster, r': Roster) {
    && r'.order == r.order && r'.pool.Keys == r.pool.Keys
    && forall u :: u in r.pool ==> r'.pool[u].load == r.pool[u].load && r'.pool[u].capacity == r.pool[u].capacity
  }

  lemma RelistedInvited(q: State, ev: Event, r: Roster, r': Roster)
    requires Relisted(q, ev, r) && SameLoads(r, r')
    ensures Relisted(q, ev, r')
  {
    hide Rest, Touched, Succeeds;
  }

  // Everybody and nobody invited: the two ways an operation ends.
  lemma EndsInvited(c: Config, ev: Event, q1: State)
    requires Coherent(c.state) && OwnStep(c, ev, q1) && CallsInvite(c.state, ev)
    ensures var next := After(c, ev);
            && InvitesFirst(c.state, ev, next)
            && Relisted(c.state, ev, next.state.roster)
            && OnlyInvites(q1.roster, next.state.roster, Newly(c.state, ev, next.state))
            && next.state.convs == q1.convs
  {
    hide Sound, Agrees, InLoadOrder, Succeeds, Step, CallsInvite, Consumed, ListsLogins, FirstInvited, DoInvite, Invitations, Chosen, ToSet,
      Relisted, Pooled, SamePerson;
    var next := After(c, ev);
    DoInviteInvitesFirst(q1);
    var us := ToSet(Chosen(q1.roster, |q1.users|));
    assert Newly(c.state, ev, next.state) == us;
    RelistedInvited(c.state, ev, q1.roster, next.state.roster);
  }

  lemma EndsUninvited(c: Config, ev: Event, q1: State)
    requires Coherent(c.state) && OwnStep(c, ev, q1) && !CallsInvite(c.state, ev)
    ensures var next := After(c, ev);
            && next.state == q1
            && Newly(c.state, ev, q1) == {}
            && InvitesFirst(c.state, ev, next)
            && Relisted(c.state, ev, q1.roster)
  {
    hide Sound, Wf, Succeeds, Step, CallsInvite, Consumed, Relisted, Pooled, SamePerson;
  }

  lemma StepOwn(c: Config, ev: Event) returns (q1: State)
    requires Sane(c) && Room(c.state, c.counter, ev)
    ensures OwnStep(c, ev, q1)
  {
    hide OwnStep, Invariant;
    match ev {
      case Presence(_, _, _) => q1 := PresenceOwn(c, ev);
      case Absence(_) => q1 := AbsenceOwn(c, ev);
      case Offline(_) => q1 := OfflineOwn(c, ev);
      case Accept(_) => q1 := AcceptOwn(c, ev);
      case Refuse(_) => q1 := RefuseOwn(c, ev);
      case Redirect(_, _, _) => q1 := RedirectOwn(c, ev);
      case End(_) => q1 := EndOwn(c, ev);
      case _ => q1 := LineOwn(c, ev);
    }
  }

  /** Every operation invites whom it should, and tells its caller exactly that. */
  lemma StepInvitesFirst(c: Config, ev: Event)
    requires Sane(c) && Room(c.state, c.counter, ev)
    ensures InvitesFirst(c.state, ev, After(c, ev))
  {
    hide Sound, Bounded, Issued, InvitesFirst, OwnStep, Relisted, OnlyInvites, Newly;
    var q1 := StepOwn(c, ev);
    if CallsInvite(c.state, ev) {
      EndsInvited(c, ev, q1);
    } else {
      EndsUninvited(c, ev, q1);
    }
  }

  /** Every operation leaves the list as it should. */
  lemma StepRelists(c: Config, ev: Event)
    requires Sane(c) && Room(c.state, c.counter, ev)
    ensures Relisted(c.state, ev, After(c, ev).state.roster)
  {
    hide Sound, Bounded, Issued, InvitesFirst, OwnStep, Relisted, OnlyInvites, Newly;
    var q1 := StepOwn(c, ev);
    if CallsInvite(c.state, ev) {
      EndsInvited(c, ev, q1);
    } else {
      EndsUninvited(c, ev, q1);
    }
  }

  // Records before and after the invitations.
  lemma RecordsInvited(q: State, ev: Event, r: Roster, q': State)
    requires OwnRecords(q, ev, r) && OnlyInvites(r, q'.roster, Newly(q, ev, q'))
    requires Coherent(q')
    ensures Records(q, ev, q')
  {
    hide Wf, Pooled, Consumed, SamePerson;
    forall u | u in q'.roster.pool ensures SamePerson(q, ev, u, q'.roster.pool[u]) {
      SameIdentity(q, ev, u, r.pool[u], q'.roster.pool[u]);
    }
  }

  lemma SameIdentity(q: State, ev: Event, u: nat, a: AgentRec, b: AgentRec)
    requires SamePerson(q, ev, u, a) && a.id == b.id && a.name == b.name && a.capacity == b.capacity
    ensures SamePerson(q, ev, u, b)
  {
  }

  lemma NobodyInvited(r: Roster)
    ensures OnlyInvites(r, r, {})
  {
  }

  /** Every operation leaves the records as it should. */
  lemma StepRecords(c: Config, ev: Event)
    requires Sane(c) && Room(c.state, c.counter, ev)
    ensures Records(c.state, ev, After(c, ev).state)
  {
    hide Sound, Bounded, Issued, Uninvited, Relisted, OwnRecords, OnlyInvites, Newly, Records, Step, InvitesFirst, Succeeds;
    StepKeeps(c.state, c.counter, ev);
    var q1 := StepOwn(c, ev);
    if CallsInvite(c.state, ev) {
      EndsInvited(c, ev, q1);
    } else {
      EndsUninvited(c, ev, q1);
      NobodyInvited(q1.roster);
    }
    RecordsInvited(c.state, ev, q1.roster, After(c, ev).state);
  }

  /** A refusal is accepted from exactly the logins that were asked; it consumes the invitation, makes
      the agent refuse, and does not invite it again. */
  lemma RefuseSettles(c: Config, ev: Event)
    requires Sane(c) && ev.Refuse?
    ensures var next, u := After(c, ev), ev.id.uin;
            && (next.reply.ok <==> Asked(c.state, ev.id))
            && (next.reply.ok ==>
                  && u in next.state.roster.pool && next.state.roster.pool[u].state == Refused
                  && u !in next.state.roster.inviting
                  && forall k :: 0 <= k < |next.reply.invites| ==> next.reply.invites[k].uin != u)
  {
    hide Invariant, Step, FirstInvited;
    StepSucceeds(c, ev);
    StepRecords(c, ev);
    StepInvitesFirst(c, ev);
  }
}
