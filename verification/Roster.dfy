/** The agents of one queue: the pool keyed by account number, the load order the pool's agents
    are linked in, and the set of accounts with an invitation out. */
module Rosters {
  import opened Types
  import opened LoadOrder

  datatype AgentRec = AgentRec(
    id: Umid, name: string, state: AgentState, capacity: uint16, load: uint16, cvs: set<nat>)
  {
    function OrderKey(): Key {
      Key(load, capacity)
    }
  }

  datatype Roster = Roster(order: seq<nat>, pool: map<nat, AgentRec>, inviting: set<nat>)

  const EMPTY_ROSTER := Roster([], map[], {})

  /** The list names every pooled agent exactly once and nobody else. */
  ghost predicate Agrees(r: Roster) {
    && Distinct(r.order)
    && Listed(r.order, r.pool)
    && Covers(r.order, r.pool)
    && (forall u :: u in r.pool ==> r.pool[u].id.uin == u)
  }

  ghost predicate Covers(order: seq<nat>, pool: map<nat, AgentRec>) {
    forall u :: u in pool ==> u in order
  }

  ghost predicate Listed(order: seq<nat>, pool: map<nat, AgentRec>) {
    forall k :: 0 <= k < |order| ==> order[k] in pool
  }

  function Keys(order: seq<nat>, pool: map<nat, AgentRec>): (keys: seq<Key>)
    requires Listed(order, pool)
    ensures |keys| == |order|
    ensures forall k :: 0 <= k < |order| ==> keys[k] == pool[order[k]].OrderKey()
  {
    seq(|order|, k requires 0 <= k < |order| => pool[order[k]].OrderKey())
  }

  ghost predicate InLoadOrder(r: Roster)
    requires Agrees(r)
  {
    Sorted(Keys(r.order, r.pool))
  }

  function IndexOf(order: seq<nat>, u: nat): (i: nat)
    requires u in order
    ensures i < |order| && order[i] == u
  {
    if order[0] == u then 0 else 1 + IndexOf(order[1..], u)
  }

  // ---- operations ----

  /** The login is known only under the exact identity it registered with. */
  predicate Find(r: Roster, id: Umid) {
    id.uin in r.pool && r.pool[id.uin].id.multpt == id.multpt
  }

  function Insert(r: Roster, a: AgentRec): Roster
    requires Agrees(r) && a.id.uin !in r.pool
  {
    var pool, order := r.pool[a.id.uin := a], [a.id.uin] + r.order;
    r.(pool := pool, order := Moved(order, 0, TailSlot(Keys(order, pool), 0)))
  }

  // The account's invitation, if one is out, stays in the inviting set.
  function Erase(r: Roster, u: nat): Roster
    requires Agrees(r) && u in r.pool
  {
    r.(pool := r.pool - {u}, order := Without(r.order, IndexOf(r.order, u)))
  }

  /** The pool after u's record became a, with u's node slid towards the tail (or the head). */
  function SettleToTail(r: Roster, u: nat, a: AgentRec): Roster
    requires Agrees(r) && u in r.pool
  {
    var i, pool := IndexOf(r.order, u), r.pool[u := a];
    r.(pool := pool, order := Moved(r.order, i, TailSlot(Keys(r.order, pool), i)))
  }

  function SettleToHead(r: Roster, u: nat, a: AgentRec): Roster
    requires Agrees(r) && u in r.pool
  {
    var i, pool := IndexOf(r.order, u), r.pool[u := a];
    r.(pool := pool, order := Moved(r.order, i, HeadSlot(Keys(r.order, pool), i)))
  }

  function AddConversation(r: Roster, u: nat, cvsId: nat): Roster
    requires Agrees(r) && u in r.pool
  {
    var a := r.pool[u];
    if cvsId in a.cvs then r
    else SettleToTail(r, u, a.(cvs := a.cvs + {cvsId}, load := Inc16(a.load)))
  }

  function RemoveConversation(r: Roster, u: nat, cvsId: nat): Roster
    requires Agrees(r) && u in r.pool
  {
    var a := r.pool[u];
    if cvsId !in a.cvs then r
    else SettleToHead(r, u, a.(cvs := a.cvs - {cvsId}, load := Dec16(a.load)))
  }

  /** The removal with the slide towards the head as the source has it: it comes back only if the
      slide has nothing to move. */
  function RemoveAsWritten(r: Roster, u: nat, cvsId: nat): (removed: Option<Roster>)
    requires Agrees(r) && u in r.pool
    ensures removed.Some? ==> Agrees(removed.value) && removed.value.pool.Keys == r.pool.Keys
  {
    var a := r.pool[u];
    if cvsId !in a.cvs then Some(r)
    else
      var a' := a.(cvs := a.cvs - {cvsId}, load := Dec16(a.load));
      var i, pool := IndexOf(r.order, u), r.pool[u := a'];
      if HeadSlot(Keys(r.order, pool), i) == i then Some(r.(pool := pool)) else None
  }

  /** An answered invitation leaves the inviting set and decides the agent's state. */
  function Answer(r: Roster, u: nat, state: AgentState): Roster
    requires u in r.pool
  {
    r.(pool := r.pool[u := r.pool[u].(state := state)], inviting := r.inviting - {u})
  }

  predicate Eligible(a: AgentRec, inviting: set<nat>) {
    a.capacity > a.load && a.state == Available && a.id.uin !in inviting
  }

  /** The agents that could be invited now, in load order. */
  function Eligibles(order: seq<nat>, pool: map<nat, AgentRec>, inviting: set<nat>): (el: seq<nat>)
    requires Listed(order, pool)
    ensures forall u :: u in el <==> u in order && Eligible(pool[u], inviting)
    ensures |el| <= |order|
  {
    if order == [] then []
    else
      var rest, u := Eligibles(order[..|order| - 1], pool, inviting), order[|order| - 1];
      if Eligible(pool[u], inviting) then rest + [u] else rest
  }

  function Mark(pool: map<nat, AgentRec>, chosen: seq<nat>): map<nat, AgentRec> {
    map u | u in pool :: if u in chosen then pool[u].(state := Inviting) else pool[u]
  }

  function Least(s: set<nat>): (m: nat)
    requires s != {}
    ensures m in s && forall x :: x in s ==> m <= x
  {
    HasLeast(s);
    var m :| m in s && forall x :: x in s ==> m <= x;
    m
  }

  lemma HasLeast(s: set<nat>)
    requires s != {}
    ensures exists m :: m in s && forall x :: x in s ==> m <= x
  {
    var y :| y in s;
    LeastBelow(s, y);
  }

  lemma {:induction false} LeastBelow(s: set<nat>, y: nat)
    requires y in s
    ensures exists m :: m in s && forall x :: x in s ==> m <= x
    decreases y
  {
    if x :| x in s && x < y {
      LeastBelow(s, x);
    } else {
      assert forall x :: x in s ==> y <= x;
    }
  }

  /** A set's elements from least to greatest, as the server's ordered sets iterate. */
  function Ascending(s: set<nat>): (ids: seq<nat>)
    ensures forall x :: x in ids <==> x in s
    ensures forall i, j :: 0 <= i < j < |ids| ==> ids[i] < ids[j]
    ensures |ids| == |s|
  {
    if s == {} then []
    else
      var m := Least(s);
      [m] + Ascending(s - {m})
  }

  function ToSet(s: seq<nat>): set<nat> {
    set u | u in s
  }

  function Min(x: nat, y: nat): nat {
    if x <= y then x else y
  }

  function Shortfall(waiting: nat, inviting: nat): nat {
    if waiting > inviting then waiting - inviting else 0
  }

  /** Whom `do_invite` picks: the first eligible agents in load order, as many as there are
      waiting users without an invitation out on their behalf. */
  function Chosen(r: Roster, waiting: nat): (chosen: seq<nat>)
    requires Agrees(r)
    ensures forall u :: u in chosen ==> u in r.pool && Eligible(r.pool[u], r.inviting)
  {
    var el := Eligibles(r.order, r.pool, r.inviting);
    assert forall k :: 0 <= k < |el| ==> el[k] in el;
    el[..Min(|el|, Shortfall(waiting, |r.inviting|))]
  }

  function Invite(r: Roster, waiting: nat): Roster
    requires Agrees(r)
  {
    var chosen := Chosen(r, waiting);
    r.(pool := Mark(r.pool, chosen), inviting := r.inviting + ToSet(chosen))
  }

  function Ids(pool: map<nat, AgentRec>, us: seq<nat>): (ids: seq<Umid>)
    requires Listed(us, pool)
    ensures |ids| == |us| && forall k :: 0 <= k < |us| ==> ids[k] == pool[us[k]].id
  {
    seq(|us|, k requires 0 <= k < |us| => pool[us[k]].id)
  }

  // ---- every operation keeps pool and list in agreement, and the list in load order ----

  ghost predicate Wf(r: Roster) {
    Agrees(r) && InLoadOrder(r)
  }

  /** The list names every pooled agent once; lighter agents stand first and, at equal load, those with
      the larger capacity. */
  lemma LightestFirst(r: Roster)
    requires Wf(r)
    ensures forall i, j :: 0 <= i < j < |r.order| ==>
              && r.order[i] != r.order[j] && r.order[i] in r.pool && r.order[j] in r.pool
              && var a, b := r.pool[r.order[i]], r.pool[r.order[j]];
                 a.load < b.load || (a.load == b.load && a.capacity >= b.capacity)
    ensures forall u :: u in r.pool ==> exists k :: 0 <= k < |r.order| && r.order[k] == u
  {
    hide Keys;
    forall i, j | 0 <= i < j < |r.order|
      ensures MayPrecede(r.pool[r.order[i]].OrderKey(), r.pool[r.order[j]].OrderKey())
    {
      assert MayPrecede(Keys(r.order, r.pool)[i], Keys(r.order, r.pool)[j]);
    }
    forall u | u in r.pool ensures exists k :: 0 <= k < |r.order| && r.order[k] == u {
      assert u in r.order;
    }
  }

  lemma KeysMoved(order: seq<nat>, pool: map<nat, AgentRec>, i: nat, j: nat)
    requires i < |order| && j < |order|
    requires Listed(order, pool)
    ensures Listed(Moved(order, i, j), pool)
    ensures Keys(Moved(order, i, j), pool) == Moved(Keys(order, pool), i, j)
  {
    MovedElements(order, i, j);
    forall k | 0 <= k < |order|
      ensures Keys(Moved(order, i, j), pool)[k] == Moved(Keys(order, pool), i, j)[k]
    {
      MovedAt(order, i, j, k);
      MovedAt(Keys(order, pool), i, j, k);
    }
  }

  lemma SortedWithout(keys: seq<Key>, i: nat)
    requires i < |keys| && Sorted(keys)
    ensures Sorted(Without(keys, i))
  {
  }

  lemma SlideKeepsMembers(order: seq<nat>, pool: map<nat, AgentRec>, i: nat, j: nat)
    requires i < |order| && j < |order|
    requires Distinct(order) && Listed(order, pool) && Covers(order, pool)
    ensures var order' := Moved(order, i, j);
            Distinct(order') && Listed(order', pool) && Covers(order', pool)
  {
    MovedElements(order, i, j);
    MovedDistinct(order, i, j);
    forall k | 0 <= k < |order| ensures Moved(order, i, j)[k] in order {
      assert Moved(order, i, j)[k] in Moved(order, i, j);
    }
  }

  // Sorted but for position i, which may stand too far left (or, below, too far right).
  ghost predicate LooseToTail(order: seq<nat>, pool: map<nat, AgentRec>, i: nat)
    requires i < |order| && Listed(order, pool)
  {
    && Sorted(Without(Keys(order, pool), i))
    && forall k :: 0 <= k < i ==> MayPrecede(Keys(order, pool)[k], Keys(order, pool)[i])
  }

  ghost predicate LooseToHead(order: seq<nat>, pool: map<nat, AgentRec>, i: nat)
    requires i < |order| && Listed(order, pool)
  {
    && Sorted(Without(Keys(order, pool), i))
    && forall k :: i < k < |order| ==> MayPrecede(Keys(order, pool)[i], Keys(order, pool)[k])
  }

  lemma SlideToTail(order: seq<nat>, pool: map<nat, AgentRec>, i: nat)
    requires i < |order| && Listed(order, pool) && LooseToTail(order, pool, i)
    ensures var order' := Moved(order, i, TailSlot(Keys(order, pool), i));
            Listed(order', pool) && Sorted(Keys(order', pool))
  {
    OrderToTailCorrect(Keys(order, pool), i);
    KeysMoved(order, pool, i, TailSlot(Keys(order, pool), i));
  }

  lemma SlideToHead(order: seq<nat>, pool: map<nat, AgentRec>, i: nat)
    requires i < |order| && Listed(order, pool) && LooseToHead(order, pool, i)
    ensures var order' := Moved(order, i, HeadSlot(Keys(order, pool), i));
            Listed(order', pool) && Sorted(Keys(order', pool))
  {
    OrderToHeadCorrect(Keys(order, pool), i);
    KeysMoved(order, pool, i, HeadSlot(Keys(order, pool), i));
  }

  lemma MembersInserted(order: seq<nat>, pool: map<nat, AgentRec>, a: AgentRec)
    requires Distinct(order) && Listed(order, pool) && Covers(order, pool) && a.id.uin !in pool
    ensures var order', pool' := [a.id.uin] + order, pool[a.id.uin := a];
            Distinct(order') && Listed(order', pool') && Covers(order', pool')
  {
    var order', pool' := [a.id.uin] + order, pool[a.id.uin := a];
    forall u | u in pool' ensures u in order' {
      assert u == order'[0] || u in order;
    }
  }

  lemma KeysInserted(order: seq<nat>, pool: map<nat, AgentRec>, a: AgentRec)
    requires Listed(order, pool) && a.id.uin !in pool
    ensures var order', pool' := [a.id.uin] + order, pool[a.id.uin := a];
            Listed(order', pool') && Without(Keys(order', pool'), 0) == Keys(order, pool)
  {
    var order', pool' := [a.id.uin] + order, pool[a.id.uin := a];
    forall k | 0 <= k < |order| ensures order'[k + 1] == order[k] && pool'[order[k]] == pool[order[k]] {
    }
  }

  lemma InsertKeeps(r: Roster, a: AgentRec)
    requires Wf(r) && a.id.uin !in r.pool
    ensures Wf(Insert(r, a))
  {
    var pool, order := r.pool[a.id.uin := a], [a.id.uin] + r.order;
    MembersInserted(r.order, r.pool, a);
    KeysInserted(r.order, r.pool, a);
    assert LooseToTail(order, pool, 0);
    SlideToTail(order, pool, 0);
    SlideKeepsMembers(order, pool, 0, TailSlot(Keys(order, pool), 0));
  }

  lemma EraseKeepsMembers(order: seq<nat>, pool: map<nat, AgentRec>, i: nat)
    requires i < |order|
    requires Distinct(order) && Listed(order, pool) && Covers(order, pool)
    ensures var order', pool' := Without(order, i), pool - {order[i]};
            Distinct(order') && Listed(order', pool') && Covers(order', pool')
  {
    var order', pool' := Without(order, i), pool - {order[i]};
    forall v | v in pool' ensures v in order' {
      var k :| 0 <= k < |order| && order[k] == v;
      assert order'[if k < i then k else k - 1] == v;
    }
  }

  lemma KeysErased(order: seq<nat>, pool: map<nat, AgentRec>, i: nat)
    requires i < |order| && Distinct(order) && Listed(order, pool)
    ensures var order', pool' := Without(order, i), pool - {order[i]};
            Listed(order', pool') && Keys(order', pool') == Without(Keys(order, pool), i)
  {
  }

  lemma EraseKeeps(r: Roster, u: nat)
    requires Wf(r) && u in r.pool
    ensures Wf(Erase(r, u))
  {
    var i := IndexOf(r.order, u);
    EraseKeepsMembers(r.order, r.pool, i);
    KeysErased(r.order, r.pool, i);
    SortedWithout(Keys(r.order, r.pool), i);
  }

  lemma KeysButOne(order: seq<nat>, pool: map<nat, AgentRec>, i: nat, a: AgentRec)
    requires i < |order| && Distinct(order) && Listed(order, pool)
    ensures Without(Keys(order, pool[order[i] := a]), i) == Without(Keys(order, pool), i)
  {
  }

  // Only u's record changes, its key rising (or falling): the order is sorted but for u.
  lemma KeyRises(r: Roster, u: nat, a: AgentRec)
    requires Wf(r) && u in r.pool && MayPrecede(r.pool[u].OrderKey(), a.OrderKey())
    ensures Listed(r.order, r.pool[u := a])
    ensures LooseToTail(r.order, r.pool[u := a], IndexOf(r.order, u))
  {
    var i, keys := IndexOf(r.order, u), Keys(r.order, r.pool);
    KeysButOne(r.order, r.pool, i, a);
    SortedWithout(keys, i);
    var keys' := Keys(r.order, r.pool[u := a]);
    forall k | 0 <= k < i ensures MayPrecede(keys'[k], a.OrderKey()) {
      assert MayPrecede(keys[k], keys[i]);
    }
  }

  lemma KeyFalls(r: Roster, u: nat, a: AgentRec)
    requires Wf(r) && u in r.pool && MayPrecede(a.OrderKey(), r.pool[u].OrderKey())
    ensures Listed(r.order, r.pool[u := a])
    ensures LooseToHead(r.order, r.pool[u := a], IndexOf(r.order, u))
  {
    var i, keys := IndexOf(r.order, u), Keys(r.order, r.pool);
    KeysButOne(r.order, r.pool, i, a);
    SortedWithout(keys, i);
    var keys' := Keys(r.order, r.pool[u := a]);
    forall k | i < k < |keys| ensures MayPrecede(a.OrderKey(), keys'[k]) {
      assert MayPrecede(keys[i], keys[k]);
    }
  }

  lemma SettleToTailKeeps(r: Roster, u: nat, a: AgentRec)
    requires Wf(r) && u in r.pool && a.id == r.pool[u].id
    requires MayPrecede(r.pool[u].OrderKey(), a.OrderKey())
    ensures Wf(SettleToTail(r, u, a))
  {
    var i, pool := IndexOf(r.order, u), r.pool[u := a];
    KeyRises(r, u, a);
    SlideToTail(r.order, pool, i);
    SlideKeepsMembers(r.order, pool, i, TailSlot(Keys(r.order, pool), i));
  }

  lemma SettleToHeadKeeps(r: Roster, u: nat, a: AgentRec)
    requires Wf(r) && u in r.pool && a.id == r.pool[u].id
    requires MayPrecede(a.OrderKey(), r.pool[u].OrderKey())
    ensures Wf(SettleToHead(r, u, a))
  {
    var i, pool := IndexOf(r.order, u), r.pool[u := a];
    KeyFalls(r, u, a);
    SlideToHead(r.order, pool, i);
    SlideKeepsMembers(r.order, pool, i, HeadSlot(Keys(r.order, pool), i));
  }

  lemma AddConversationKeeps(r: Roster, u: nat, cvsId: nat)
    requires Wf(r) && u in r.pool && r.pool[u].load < 0xFFFF
    ensures Wf(AddConversation(r, u, cvsId))
  {
    var a := r.pool[u];
    if cvsId !in a.cvs {
      SettleToTailKeeps(r, u, a.(cvs := a.cvs + {cvsId}, load := Inc16(a.load)));
    }
  }

  lemma RemoveConversationKeeps(r: Roster, u: nat, cvsId: nat)
    requires Wf(r) && u in r.pool && (cvsId in r.pool[u].cvs ==> r.pool[u].load > 0)
    ensures Wf(RemoveConversation(r, u, cvsId))
  {
    var a := r.pool[u];
    if cvsId in a.cvs {
      SettleToHeadKeeps(r, u, a.(cvs := a.cvs - {cvsId}, load := Dec16(a.load)));
    }
  }

  lemma AddConversationAgrees(r: Roster, u: nat, cvsId: nat)
    requires Agrees(r) && u in r.pool
    ensures Agrees(AddConversation(r, u, cvsId))
  {
    var a, i := r.pool[u], IndexOf(r.order, u);
    if cvsId !in a.cvs {
      var pool := AddConversation(r, u, cvsId).pool;
      SlideKeepsMembers(r.order, pool, i, TailSlot(Keys(r.order, pool), i));
    }
  }

  lemma RemoveConversationAgrees(r: Roster, u: nat, cvsId: nat)
    requires Agrees(r) && u in r.pool
    ensures Agrees(RemoveConversation(r, u, cvsId))
  {
    var a, i := r.pool[u], IndexOf(r.order, u);
    if cvsId in a.cvs {
      var pool := RemoveConversation(r, u, cvsId).pool;
      SlideKeepsMembers(r.order, pool, i, HeadSlot(Keys(r.order, pool), i));
    }
  }

  lemma SameKeysKeeps(r: Roster, r': Roster)
    requires Wf(r) && r'.order == r.order && r'.pool.Keys == r.pool.Keys
    requires forall u :: u in r.pool ==>
               r'.pool[u].id == r.pool[u].id && r'.pool[u].OrderKey() == r.pool[u].OrderKey()
    ensures Wf(r')
  {
    assert Keys(r'.order, r'.pool) == Keys(r.order, r.pool);
  }

  lemma AnswerKeeps(r: Roster, u: nat, state: AgentState)
    requires Wf(r) && u in r.pool
    ensures Wf(Answer(r, u, state))
  {
    SameKeysKeeps(r, Answer(r, u, state));
  }

  lemma InviteKeeps(r: Roster, waiting: nat)
    requires Wf(r)
    ensures Wf(Invite(r, waiting))
  {
    SameKeysKeeps(r, Invite(r, waiting));
  }

  // What adding or removing a conversation does to the pool, leaving the order aside.
  lemma AddsOne(r: Roster, u: nat, id: nat)
    requires Agrees(r) && u in r.pool && id !in r.pool[u].cvs && r.pool[u].load < 0xFFFF
    ensures var r', a := AddConversation(r, u, id), r.pool[u];
            && r'.pool == r.pool[u := a.(cvs := a.cvs + {id}, load := a.load + 1)]
            && r'.inviting == r.inviting
  {
    hide Distinct, Listed, Covers, IndexOf, TailSlot, Moved, Keys;
  }

  lemma RemovesOne(r: Roster, u: nat, id: nat)
    requires Agrees(r) && u in r.pool && id in r.pool[u].cvs && r.pool[u].load > 0
    ensures var r', a := RemoveConversation(r, u, id), r.pool[u];
            && r'.pool == r.pool[u := a.(cvs := a.cvs - {id}, load := a.load - 1)]
            && r'.inviting == r.inviting
  {
    hide Distinct, Listed, Covers, IndexOf, HeadSlot, Moved, Keys;
  }
}
