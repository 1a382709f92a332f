/** An agent node: its own counters, and its place in the queue's doubly linked load order. */
module Agents {
  import opened Types
  import opened LoadOrder
  import opened Rosters

  class Agent {
    const id: Umid
    const name: string
    const capacity: uint16
    var state: AgentState
    var load: uint16
    var prev: Agent?
    var next: Agent?
    var conversations: set<nat>

    constructor (id: Umid, name: string, capacity: uint16)
      ensures this.id == id && this.name == name && this.capacity == capacity
      ensures state == Available && load == 0 && conversations == {} && prev == null && next == null
    {
      this.id, this.name, this.capacity := id, name, capacity;
      state, load, conversations := Available, 0, {};
      prev, next := null, null;
    }

    function OrderKey(): Key
      reads this`load
    {
      Key(load, capacity)
    }

    predicate IsStrongAval()
      reads this`load, this`state
    {
      capacity > load && state == Available
    }

    ghost function Rec(): AgentRec
      reads this`state, this`load, this`conversations
    {
      AgentRec(id, name, state, capacity, load, conversations)
    }

    /** Slides this node past every successor that does not belong behind it. */
    method OrderToTail(ghost head: Agent, ghost list: seq<Agent>, ghost i: nat) returns (ghost list': seq<Agent>)
      requires Linked(head, list) && i < |list| && list[i] == this
      modifies head`next, list`prev, list`next
      ensures list' == Moved(list, i, TailSlot(old(KeysOf(list)), i))
      ensures StopsTailwards(old(KeysOf(list)), i, TailSlot(old(KeysOf(list)), i))
      ensures Linked(head, list')
    {
      hide Distinct, Moved, KeysOf, StopsTailwards;
      TailSlotStops(KeysOf(list), i, i);
      list' := list;
      ghost var j := i;
      MovedNowhere(list, i);
      while next != null && !Gt(next.OrderKey(), OrderKey())
        invariant i <= j < |list| && list' == Moved(list, i, j) && list'[j] == this
        invariant Linked(head, list')
        invariant TailSlotFrom(old(KeysOf(list)), i, j) == TailSlot(old(KeysOf(list)), i)
        decreases |list| - j
      {
        SameNodes(list, i, j);
        assert LinkedAt(head, list', j);
        MovedAt(list, i, j, j + 1);
        MovedStep(list, i, j);
        SwapWithNext(head, list', j);
        j := j + 1;
        list' := Moved(list, i, j);
      }
      assert LinkedAt(head, list', j);
      if j + 1 < |list| {
        MovedAt(list, i, j, j + 1);
      }
    }

    /** One step of the slide towards the tail. */
    method SwapWithNext(ghost head: Agent, ghost list: seq<Agent>, ghost j: nat)
      requires Linked(head, list) && j + 1 < |list| && list[j] == this
      modifies head`next, list`prev, list`next
      ensures Linked(head, list[j := list[j + 1]][j + 1 := this])
    {
      assert LinkedAt(head, list, j) && LinkedAt(head, list, j + 1);
      assert j > 0 ==> LinkedAt(head, list, j - 1);
      assert j + 2 < |list| ==> LinkedAt(head, list, j + 2);
      var other := next;
      other.prev := this.prev;
      this.prev := other;
      other.prev.next := other;
      this.next := other.next;
      other.next := this;
      if this.next != null {
        this.next.prev := this;
      }
      ghost var list' := list[j := list[j + 1]][j + 1 := this];
      SwapDistinct(head, list, j);
      forall k | 0 <= k < |list'| ensures LinkedAt(head, list', k) {
        assert old(LinkedAt(head, list, k));
      }
    }

    /** Slides this node ahead of every predecessor that it does not belong behind. */
    method OrderToHead(ghost head: Agent, ghost list: seq<Agent>, ghost i: nat) returns (ghost list': seq<Agent>)
      requires Linked(head, list) && i < |list| && list[i] == this
      modifies head`next, list`prev, list`next
      ensures list' == Moved(list, i, HeadSlot(old(KeysOf(list)), i))
      ensures StopsHeadwards(old(KeysOf(list)), i, HeadSlot(old(KeysOf(list)), i))
      ensures Linked(head, list')
    {
      hide Distinct, Moved, KeysOf, StopsHeadwards;
      HeadSlotStops(KeysOf(list), i, i);
      list' := list;
      ghost var j: nat := i;
      MovedNowhere(list, i);
      assert LinkedAt(head, list', j);
      assert j > 0 ==> LinkedAt(head, list', j - 1);
      while prev.prev != null && !Gt(OrderKey(), prev.OrderKey())
        invariant j <= i && list' == Moved(list, i, j) && list'[j] == this
        invariant Linked(head, list')
        invariant LinkedAt(head, list', j) && (j > 0 ==> LinkedAt(head, list', j - 1))
        invariant HeadSlotFrom(old(KeysOf(list)), i, j) == HeadSlot(old(KeysOf(list)), i)
        decreases j
      {
        SameNodes(list, i, j);
        MovedAt(list, i, j, j - 1);
        MovedStepBack(list, i, j);
        SwapWithPrev(head, list', j);
        j := j - 1;
        list' := Moved(list, i, j);
        assert LinkedAt(head, list', j);
        assert j > 0 ==> LinkedAt(head, list', j - 1);
      }
      if j > 0 {
        MovedAt(list, i, j, j - 1);
      }
    }

    /** One step of the slide towards the head, with the neighbour's old predecessor linked to this
        node; `SwapWithPrevAsWritten` shows what the source assigns instead. */
    method SwapWithPrev(ghost head: Agent, ghost list: seq<Agent>, ghost j: nat)
      requires Linked(head, list) && 0 < j < |list| && list[j] == this
      modifies head`next, list`prev, list`next
      ensures Linked(head, list[j - 1 := this][j := list[j - 1]])
    {
      assert LinkedAt(head, list, j) && LinkedAt(head, list, j - 1);
      assert j > 1 ==> LinkedAt(head, list, j - 2);
      assert j + 1 < |list| ==> LinkedAt(head, list, j + 1);
      var other := prev;
      this.prev := other.prev;
      this.prev.next := this;
      other.prev := this;
      other.next := this.next;
      this.next := other;
      if other.next != null {
        other.next.prev := other;
      }
      ghost var list' := list[j - 1 := this][j := list[j - 1]];
      SwapDistinct(head, list, j - 1);
      forall k | 0 <= k < |list'| ensures LinkedAt(head, list', k) {
        assert old(LinkedAt(head, list, k));
      }
    }

    /** The step towards the head as the source has it: the neighbour's predecessor is overwritten
        before it is followed, and the two nodes end up linked only to each other. */
    method SwapWithPrevAsWritten()
      requires prev != null && prev != this
      modifies this`prev, this`next, prev`prev, prev`next
      ensures prev == old(prev) && next == prev && prev.prev == this && prev.next == this
    {
      var other := prev;
      this.prev := other.prev;
      other.prev := this;
      other.prev.next := this;
      other.next := this.next;
      this.next := other;
      if other.next != null {
        other.next.prev := other;
      }
    }

    /** The slide towards the head as the source has it, given `fuel` rounds of its loop. It comes
        back exactly when nothing has to move, and then it has moved nothing; otherwise no number
        of rounds is enough. */
    method OrderToHeadAsWritten(ghost head: Agent, ghost list: seq<Agent>, ghost i: nat, fuel: nat)
      returns (returned: bool)
      requires Linked(head, list) && i < |list| && list[i] == this
      modifies list`prev, list`next
      ensures returned <==> fuel > 0 && HeadSlot(old(KeysOf(list)), i) == i
      ensures returned ==> Linked(head, list)
      ensures !returned && fuel > 0 ==> prev != null && next == prev && prev.next == this && prev.prev == this
    {
      assert LinkedAt(head, list, i);
      assert i > 0 ==> LinkedAt(head, list, i - 1);
      ghost var other := prev;
      returned := false;
      var rounds := 0;
      while rounds < fuel
        invariant rounds <= fuel
        invariant rounds == 0 ==> prev == other && Linked(head, list) && LinkedAt(head, list, i) && (i > 0 ==> LinkedAt(head, list, i - 1))
        invariant rounds > 0 ==> i > 0 && other == list[i - 1] && !Gt(OrderKey(), other.OrderKey())
        invariant rounds > 0 ==> prev == other && next == other && other.prev == this && other.next == this
      {
        if prev.prev == null || Gt(OrderKey(), prev.OrderKey()) {
          return true;
        }
        SwapWithPrevAsWritten();
        rounds := rounds + 1;
      }
    }

    /** Unlinks this node. */
    method Erase(ghost head: Agent, ghost list: seq<Agent>, ghost i: nat) returns (ok: bool)
      requires Linked(head, list) && i < |list| && list[i] == this
      modifies head`next, list`prev, list`next
      ensures ok && prev == null && next == null
      ensures Linked(head, Without(list, i))
    {
      assert LinkedAt(head, list, i);
      assert i > 0 ==> LinkedAt(head, list, i - 1);
      assert i + 1 < |list| ==> LinkedAt(head, list, i + 1);
      if prev == null {
        return false;
      }
      prev.next := next;
      if next != null {
        next.prev := prev;
      }
      prev := null;
      next := null;
      ghost var list' := Without(list, i);
      WithoutDistinct(head, list, i);
      forall k | 0 <= k < |list'| ensures LinkedAt(head, list', k) {
        assert old(LinkedAt(head, list, if k < i then k else k + 1));
      }
      return true;
    }

    /** Links a new node in behind this sentinel and slides it to its place. */
    method Insert(agent: Agent, ghost list: seq<Agent>) returns (ok: bool, ghost list': seq<Agent>)
      requires Linked(this, list) && agent !in list && agent != this
      modifies this`next, list`prev, list`next, agent`prev, agent`next
      ensures ok && Linked(this, list')
      ensures list' == Moved([agent] + list, 0, TailSlot(old(KeysOf([agent] + list)), 0))
    {
      hide Moved, TailSlot, KeysOf;
      assert list != [] ==> LinkedAt(this, list, 0);
      agent.next := this.next;
      if agent.next != null {
        agent.next.prev := agent;
      }
      this.next := agent;
      agent.prev := this;
      ghost var longer := [agent] + list;
      forall k | 0 <= k < |longer| ensures LinkedAt(this, longer, k) {
        assert k > 0 ==> old(LinkedAt(this, list, k - 1));
      }
      list' := agent.OrderToTail(this, longer, 0);
      ok := true;
    }

    method AddConversation(cvsId: nat, ghost head: Agent, ghost list: seq<Agent>, ghost i: nat)
      returns (ok: bool, ghost list': seq<Agent>)
      requires Linked(head, list) && i < |list| && list[i] == this
      modifies this`load, this`conversations, head`next, list`prev, list`next
      ensures ok <==> cvsId !in old(conversations)
      ensures conversations == old(conversations) + {cvsId}
      ensures load == if ok then Inc16(old(load)) else old(load)
      ensures list' == if ok then Moved(list, i, TailSlot(KeysOf(list), i)) else list
      ensures Linked(head, list')
    {
      hide Moved, Distinct, KeysOf, TailSlot;
      if cvsId in conversations {
        return false, list;
      }
      conversations := conversations + {cvsId};
      load := Inc16(load);
      ghost var keys := KeysOf(list);
      list' := OrderToTail(head, list, i);
      assert KeysOf(list) == keys;
      ok := true;
    }

    method RemoveConversation(cvsId: nat, ghost head: Agent, ghost list: seq<Agent>, ghost i: nat)
      returns (ok: bool, ghost list': seq<Agent>)
      requires Linked(head, list) && i < |list| && list[i] == this
      modifies this`load, this`conversations, head`next, list`prev, list`next
      ensures ok <==> cvsId in old(conversations)
      ensures conversations == old(conversations) - {cvsId}
      ensures load == if ok then Dec16(old(load)) else old(load)
      ensures list' == if ok then Moved(list, i, HeadSlot(KeysOf(list), i)) else list
      ensures Linked(head, list')
    {
      hide Moved, Distinct, KeysOf, HeadSlot;
      if cvsId !in conversations {
        return false, list;
      }
      conversations := conversations - {cvsId};
      load := Dec16(load);
      ghost var keys := KeysOf(list);
      list' := OrderToHead(head, list, i);
      assert KeysOf(list) == keys;
      ok := true;
    }

    /** The removal with the slide as the source has it, given `fuel` rounds. */
    method RemoveConversationAsWritten(cvsId: nat, ghost head: Agent, ghost list: seq<Agent>, ghost i: nat, fuel: nat)
      returns (returned: bool, ok: bool)
      requires Linked(head, list) && i < |list| && list[i] == this
      modifies this`load, this`conversations, list`prev, list`next
      ensures ok <==> cvsId in old(conversations)
      ensures conversations == old(conversations) - {cvsId}
      ensures load == if ok then Dec16(old(load)) else old(load)
      ensures returned <==> !ok || (fuel > 0 && HeadSlot(KeysOf(list), i) == i)
      ensures returned ==> Linked(head, list)
    {
      hide Distinct, KeysOf, HeadSlot;
      if cvsId !in conversations {
        return true, false;
      }
      conversations := conversations - {cvsId};
      load := Dec16(load);
      ghost var keys := KeysOf(list);
      returned := OrderToHeadAsWritten(head, list, i, fuel);
      assert KeysOf(list) == keys;
      ok := true;
    }
  }

  lemma WithoutMembers(list: seq<Agent>, i: nat)
    requires i < |list|
    ensures forall k :: 0 <= k < |list| ==> list[k] == list[i] || list[k] in Without(list, i)
  {
    forall k | 0 <= k < |list| && k != i ensures list[k] in Without(list, i) {
      assert Without(list, i)[if k < i then k else k - 1] == list[k];
    }
  }

  lemma WithoutDistinct(head: Agent, list: seq<Agent>, i: nat)
    requires i < |list| && Distinct(list) && head !in list
    ensures Distinct(Without(list, i)) && head !in Without(list, i)
  {
  }

  lemma SwapDistinct(head: Agent, list: seq<Agent>, j: nat)
    requires j + 1 < |list| && Distinct(list) && head !in list
    ensures var list' := list[j := list[j + 1]][j + 1 := list[j]];
            Distinct(list') && head !in list'
  {
  }

  function Before(head: Agent, list: seq<Agent>, k: nat): Agent
    requires k < |list|
  {
    if k == 0 then head else list[k - 1]
  }

  function Behind(list: seq<Agent>, k: nat): Agent?
    requires k < |list|
  {
    if k + 1 < |list| then list[k + 1] else null
  }

  ghost predicate LinkedAt(head: Agent, list: seq<Agent>, k: nat)
    requires k < |list|
    reads list`prev, list`next
  {
    list[k].prev == Before(head, list, k) && list[k].next == Behind(list, k)
  }

  /** Following `next` from the head sentinel visits exactly the nodes of the list, in order, and
      ends at null; `prev` leads back. */
  ghost predicate Linked(head: Agent, list: seq<Agent>)
    reads head`prev, head`next, list`prev, list`next
  {
    && head !in list && Distinct(list)
    && head.prev == null && head.next == (if list == [] then null else list[0])
    && forall k :: 0 <= k < |list| ==> LinkedAt(head, list, k)
  }

  lemma Distinguished(list: seq<Agent>, i: nat)
    requires Distinct(list) && i < |list|
    ensures forall k :: 0 <= k < |list| && k != i ==> list[k] != list[i]
  {
  }

  lemma LinkedDistinct(head: Agent, list: seq<Agent>)
    requires Linked(head, list)
    ensures Distinct(list)
  {
  }

  ghost function KeysOf(list: seq<Agent>): (keys: seq<Key>)
    reads list`load
    ensures |keys| == |list|
    ensures forall k :: 0 <= k < |list| ==> keys[k] == list[k].OrderKey()
  {
    if list == [] then [] else KeysOf(list[..|list| - 1]) + [list[|list| - 1].OrderKey()]
  }

  ghost predicate SameMembers(a: seq<Agent>, b: seq<Agent>) {
    Included(a, b) && Included(b, a)
  }

  ghost predicate Included(a: seq<Agent>, b: seq<Agent>) {
    forall k :: 0 <= k < |a| ==> a[k] in b
  }

  lemma SameMembersSelf(a: seq<Agent>)
    ensures SameMembers(a, a)
  {
  }

  lemma SameMembersTrans(a: seq<Agent>, b: seq<Agent>, c: seq<Agent>)
    requires SameMembers(a, b) && SameMembers(b, c)
    ensures SameMembers(a, c) && Included(a, b) && Included(a, c)
  {
  }

  lemma SameMembersIn(a: seq<Agent>, b: seq<Agent>, agent: Agent)
    requires SameMembers(a, b) && agent in a
    ensures agent in b && forall k :: 0 <= k < |b| ==> b[k] in a
  {
  }

  lemma MovedMembers(list: seq<Agent>, i: nat, j: nat)
    requires i < |list| && j < |list|
    ensures SameMembers(list, Moved(list, i, j))
  {
    MovedElements(list, i, j);
    forall k | 0 <= k < |list| ensures Moved(list, i, j)[k] in list && list[k] in Moved(list, i, j) {
      assert list[k] in list;
      assert Moved(list, i, j)[k] in Moved(list, i, j);
    }
  }

  lemma AllIncluded(list: seq<Agent>)
    ensures Included(list, list)
  {
  }

  lemma FrontMembers(list: seq<Agent>, agent: Agent, slot: nat)
    requires slot <= |list| && Distinct(list) && agent !in list
    ensures Included(list, Moved([agent] + list, 0, slot)) && Distinct(Moved([agent] + list, 0, slot))
  {
    var longer := [agent] + list;
    MovedMembers(longer, 0, slot);
    assert forall k :: 0 <= k < |list| ==> longer[k + 1] == list[k];
    MovedDistinct(longer, 0, slot);
  }

  lemma SameNodes(list: seq<Agent>, i: nat, j: nat)
    requires i < |list| && j < |list|
    ensures forall k :: 0 <= k < |list| ==> Moved(list, i, j)[k] in list
    ensures Moved(list, i, j)[j] == list[i]
  {
    MovedElements(list, i, j);
    forall k | 0 <= k < |list| ensures Moved(list, i, j)[k] in list {
      assert Moved(list, i, j)[k] in Moved(list, i, j);
    }
  }

  lemma MarkOne(pool: map<nat, AgentRec>, u: nat)
    requires u in pool
    ensures Mark(pool, [u]) == pool[u := pool[u].(state := AgentState.Inviting)]
  {
  }

  function Uins(list: seq<Agent>): (order: seq<nat>)
    ensures |order| == |list| && forall k :: 0 <= k < |list| ==> order[k] == list[k].id.uin
  {
    seq(|list|, k requires 0 <= k < |list| => list[k].id.uin)
  }

  ghost function Recs(pool: map<nat, Agent>): (recs: map<nat, AgentRec>)
    reads pool.Values`state, pool.Values`load, pool.Values`conversations
    ensures recs.Keys == pool.Keys
    ensures forall u :: u in pool ==> recs[u] == pool[u].Rec()
  {
    map u | u in pool :: pool[u].Rec()
  }

  /** The list holds exactly the pool's agents. */
  ghost predicate Pooled(pool: map<nat, Agent>, list: seq<Agent>) {
    && (forall k :: 0 <= k < |list| ==> list[k].id.uin in pool && pool[list[k].id.uin] == list[k])
    && (forall u :: u in pool ==> pool[u] in list && pool[u].id.uin == u)
  }

  lemma PooledMoved(pool: map<nat, Agent>, list: seq<Agent>, i: nat, j: nat)
    requires Pooled(pool, list) && i < |list| && j < |list|
    ensures Pooled(pool, Moved(list, i, j)) && Uins(Moved(list, i, j)) == Moved(Uins(list), i, j)
  {
    var list' := Moved(list, i, j);
    MovedElements(list, i, j);
    forall k | 0 <= k < |list|
      ensures list'[k].id.uin in pool && pool[list'[k].id.uin] == list'[k]
      ensures Uins(list')[k] == Moved(Uins(list), i, j)[k]
    {
      assert list'[k] in list' && list'[k] in list;
      MovedAt(list, i, j, k);
      MovedAt(Uins(list), i, j, k);
    }
  }

  lemma PooledInserted(pool: map<nat, Agent>, list: seq<Agent>, agent: Agent)
    requires Pooled(pool, list) && agent.id.uin !in pool
    ensures Pooled(pool[agent.id.uin := agent], [agent] + list) && Uins([agent] + list) == [agent.id.uin] + Uins(list)
  {
    var pool', list' := pool[agent.id.uin := agent], [agent] + list;
    forall u | u in pool' ensures pool'[u] in list' {
      assert u == agent.id.uin ==> list'[0] == pool'[u];
    }
  }

  lemma PooledErased(pool: map<nat, Agent>, list: seq<Agent>, i: nat)
    requires Pooled(pool, list) && i < |list| && Distinct(list)
    ensures Pooled(pool - {list[i].id.uin}, Without(list, i)) && Uins(Without(list, i)) == Without(Uins(list), i)
  {
    var pool', list' := pool - {list[i].id.uin}, Without(list, i);
    forall u | u in pool' ensures pool'[u] in list' {
      var k :| 0 <= k < |list| && list[k] == pool[u];
      assert list'[if k < i then k else k - 1] == pool'[u];
    }
  }

  lemma PooledDistinct(pool: map<nat, Agent>, list: seq<Agent>)
    requires Pooled(pool, list) && Distinct(list)
    ensures Distinct(Uins(list))
  {
    forall i, j | 0 <= i < j < |list| ensures Uins(list)[i] != Uins(list)[j] {
      assert pool[list[i].id.uin] == list[i] && pool[list[j].id.uin] == list[j];
    }
  }

  lemma PooledAgrees(pool: map<nat, Agent>, list: seq<Agent>, r: Roster)
    requires Pooled(pool, list) && Distinct(list)
    requires r.order == Uins(list) && r.pool.Keys == pool.Keys && forall u :: u in pool ==> r.pool[u].id == pool[u].id
    ensures Agrees(r)
  {
    PooledDistinct(pool, list);
    forall u | u in r.pool ensures u in r.order {
      var k :| 0 <= k < |list| && list[k] == pool[u];
      assert r.order[k] == u;
    }
  }

  lemma PooledAt(pool: map<nat, Agent>, list: seq<Agent>, k: nat)
    requires Pooled(pool, list) && k < |list|
    ensures list[k].id.uin in pool && pool[list[k].id.uin] == list[k]
  {
  }

  lemma PooledKeys(pool: map<nat, Agent>, list: seq<Agent>)
    requires Pooled(pool, list)
    ensures forall u :: u in pool ==> pool[u].id.uin == u
  {
  }

  lemma KeysOfPool(pool: map<nat, Agent>, list: seq<Agent>)
    requires Pooled(pool, list)
    ensures Listed(Uins(list), Recs(pool)) && Keys(Uins(list), Recs(pool)) == KeysOf(list)
  {
    hide KeysOf;
  }

  /** The pooled agents of one queue: a map by account, the linked load order behind a sentinel,
      and the accounts with an invitation out. */
  class AgentManager {
    const head: Agent
    var pool: map<nat, Agent>
    var inviting: set<nat>
    ghost var list: seq<Agent>

    /** The list links exactly the pool's agents. */
    ghost predicate Shape()
      reads this, head`prev, head`next, list`prev, list`next
    {
      Linked(head, list) && Pooled(pool, list)
    }

    ghost function Model(): Roster
      reads this, pool.Values`state, pool.Values`load, pool.Values`conversations
    {
      Roster(Uins(list), Recs(pool), inviting)
    }

    ghost predicate Valid()
      reads this, head`prev, head`next, list`prev, list`next
      reads pool.Values`state, pool.Values`load, pool.Values`conversations
    {
      Shape() && Agrees(Model())
    }

    constructor ()
      ensures fresh(head) && Valid() && Model() == EMPTY_ROSTER
    {
      head := new Agent(Umid(0, 0), "", 0);
      pool, inviting, list := map[], {}, [];
    }

    // Where an agent's node stands.
    lemma Position(agent: Agent) returns (i: nat)
      requires Valid() && agent in list
      ensures i < |list| && list[i] == agent && i == IndexOf(Model().order, agent.id.uin)
      ensures agent.id.uin in pool && pool[agent.id.uin] == agent && agent.id.uin in Model().pool
    {
      i := IndexOf(Model().order, agent.id.uin);
      assert list[i].id.uin in pool && pool[list[i].id.uin] == list[i];
      var k :| 0 <= k < |list| && list[k] == agent;
      assert pool[list[k].id.uin] == list[k];
    }

    lemma ModelFields()
      ensures |Model().order| == |list| && Model().inviting == inviting
    {
    }

    lemma RecordOf(agent: Agent)
      requires Valid() && agent in list
      ensures agent.id.uin in Model().pool && Model().pool[agent.id.uin] == agent.Rec()
      ensures agent in pool.Values
    {
      var i := Position(agent);
    }

    lemma ModelKeys()
      ensures Model().pool.Keys == pool.Keys
    {
    }

    function InvitingNum(): uint16
      reads this`inviting
    {
      |inviting| % 0x1_0000
    }

    /** The pooled agent registered under exactly this login, if any. */
    function Find(id: Umid): Agent?
      reads this`pool
    {
      if id.uin !in pool then null
      else if pool[id.uin].id.multpt != id.multpt then null
      else pool[id.uin]
    }

    lemma FindIs(id: Umid)
      requires Valid()
      ensures Find(id) == null <==> !Rosters.Find(Model(), id)
      ensures Find(id) != null ==> Find(id) in list && Find(id) in pool.Values && Find(id).id == id
    {
      hide Distinct, Linked, Listed, Covers;
      if Find(id) != null {
        PooledKeys(pool, list);
        assert pool[id.uin] in list;
      }
    }

    /** A new agent enters the pool and the list, unless its account is already pooled. */
    method Insert(id: Umid, name: string, capacity: uint16) returns (agent: Agent?)
      requires Valid()
      modifies this, head`next, list`prev, list`next
      ensures Valid()
      ensures agent == null <==> id.uin in old(pool)
      ensures agent == null ==> Model() == old(Model()) && list == old(list) && pool == old(pool)
      ensures agent != null ==> fresh(agent) && pool == old(pool)[id.uin := agent]
      ensures Included(old(list), list)
      ensures agent != null ==>
                Model() == Rosters.Insert(old(Model()), AgentRec(id, name, Available, capacity, 0, {}))
    {
      hide Distinct, Moved, TailSlot, KeysOf, Keys, Pooled, Uins, Recs, Linked, Agrees, Included;
      AllIncluded(list);
      if id.uin in pool {
        return null;
      }
      var node := new Agent(id, name, capacity);
      ghost var nodes := list;
      Enlist(node);
      ghost var r := Model();
      var _, list' := head.Insert(node, nodes);
      assert Model() == r;
      PooledAgrees(pool, list, r);
      agent := node;
    }

    static lemma InsertIs(r: Roster, r': Roster, a: AgentRec, slot: nat)
      requires Agrees(r) && a.id.uin !in r.pool && r'.inviting == r.inviting && r'.pool == r.pool[a.id.uin := a]
      requires var longer := [a.id.uin] + r.order;
               Listed(longer, r'.pool) && slot == TailSlot(Keys(longer, r'.pool), 0) && r'.order == Moved(longer, 0, slot)
      ensures r' == Rosters.Insert(r, a)
    {
      hide Distinct, Covers, Moved, TailSlot, Keys;
    }

    // What pool and list become when the node is registered.
    lemma Enlisting(node: Agent)
      requires Valid() && node.id.uin !in pool && node !in list
      requires node.state == Available && node.load == 0 && node.conversations == {}
      ensures var pool', list' := pool[node.id.uin := node], Moved([node] + list, 0, TailSlot(KeysOf([node] + list), 0));
              && Pooled(pool', list') && Distinct(list') && Included(list, list')
              && Roster(Uins(list'), Recs(pool'), inviting)
                 == Rosters.Insert(Model(), AgentRec(node.id, node.name, Available, node.capacity, 0, {}))
    {
      hide Distinct, Moved, TailSlot, KeysOf, Keys, Pooled, Uins, Recs, Linked, Listed, Covers, Included, Rosters.Insert;
      var longer, pool' := [node] + list, pool[node.id.uin := node];
      var slot := TailSlot(KeysOf(longer), 0);
      LinkedDistinct(head, list);
      PooledInserted(pool, list, node);
      PooledMoved(pool', longer, 0, slot);
      FrontMembers(list, node, slot);
      KeysOfPool(pool', longer);
      assert Recs(pool') == Model().pool[node.id.uin := node.Rec()];
      InsertIs(Model(), Roster(Uins(Moved(longer, 0, slot)), Recs(pool'), inviting), node.Rec(), slot);
    }

    // The new node enters the pool, and the record of the list at the place where it will be linked.
    method Enlist(node: Agent)
      requires Valid() && node.id.uin !in pool && node !in list
      requires node.state == Available && node.load == 0 && node.conversations == {}
      modifies this`pool, this`list
      ensures pool == old(pool)[node.id.uin := node] && Pooled(pool, list) && Distinct(list)
      ensures list == Moved([node] + old(list), 0, TailSlot(KeysOf([node] + old(list)), 0))
      ensures Included(old(list), list)
      ensures Model() == Rosters.Insert(old(Model()), AgentRec(node.id, node.name, Available, node.capacity, 0, {}))
    {
      hide Distinct, Moved, TailSlot, KeysOf, Pooled, Uins, Recs, Linked, Agrees, Included, Rosters.Insert;
      Enlisting(node);
      ghost var list' := Moved([node] + list, 0, TailSlot(KeysOf([node] + list), 0));
      pool := pool[node.id.uin := node];
      list := list';
    }

    /** An idle agent leaves the list and the pool; its account stays in the inviting set. */
    method Erase(agent: Agent) returns (ok: bool)
      requires Valid() && agent in list
      modifies this`pool, this`list, head`next, list`prev, list`next
      ensures Valid()
      ensures ok <==> agent.load == 0
      ensures !ok ==> Model() == old(Model()) && list == old(list) && pool == old(pool)
      ensures ok ==> Model() == Rosters.Erase(old(Model()), agent.id.uin) && pool == old(pool) - {agent.id.uin}
      ensures ok ==> forall k :: 0 <= k < |old(list)| ==> old(list)[k] == agent || old(list)[k] in list
    {
      hide Distinct, Without, Agrees, Pooled, Uins, Recs, LinkedAt, IndexOf;
      if agent.load > 0 {
        return false;
      }
      ghost var i := Position(agent);
      Unlink(agent, i);
      pool := pool - {agent.id.uin};
      assert Recs(pool) == old(Recs(pool)) - {agent.id.uin};
      PooledAgrees(pool, list, Model());
      ok := true;
    }

    // The node leaves the list.
    method Unlink(agent: Agent, ghost i: nat)
      requires Linked(head, list) && Pooled(pool, list) && i < |list| && list[i] == agent
      modifies this`list, head`next, list`prev, list`next
      ensures Linked(head, list) && Pooled(pool - {agent.id.uin}, list)
      ensures Uins(list) == Without(old(Uins(list)), i)
      ensures forall k :: 0 <= k < |old(list)| ==> old(list)[k] == agent || old(list)[k] in list
    {
      hide Distinct, Without, Pooled, Uins, LinkedAt;
      WithoutMembers(list, i);
      PooledErased(pool, list, i);
      var _ := agent.Erase(head, list, i);
      list := Without(list, i);
    }

    // Only one agent's counters have changed.
    lemma RecsButOne(agent: Agent, before: map<nat, AgentRec>)
      requires before.Keys == pool.Keys && agent.id.uin in pool && pool[agent.id.uin] == agent
      requires forall v :: v in pool && v != agent.id.uin ==> pool[v].Rec() == before[v]
      ensures Recs(pool) == before[agent.id.uin := agent.Rec()]
    {
    }

    lemma KeysButOne(nodes: seq<Agent>, i: nat, before: seq<Key>)
      requires i < |nodes| && |before| == |nodes|
      requires forall k :: 0 <= k < |nodes| && k != i ==> nodes[k].OrderKey() == before[k]
      ensures KeysOf(nodes) == before[i := nodes[i].OrderKey()]
    {
    }

    // The record of the list takes a node to its new place.
    ghost method Relist(i: nat, slot: nat)
      requires i < |list| && slot < |list| && Pooled(pool, list)
      modifies this`list
      ensures list == Moved(old(list), i, slot) && Pooled(pool, list) && old(list)[i] in list
      ensures SameMembers(old(list), list)
      ensures Uins(list) == Moved(Uins(old(list)), i, slot)
    {
      hide Distinct, Moved, Pooled, Uins, SameMembers;
      PooledMoved(pool, list, i, slot);
      MovedMembers(list, i, slot);
      SameNodes(list, i, slot);
      list := Moved(list, i, slot);
      assert list[slot] == old(list)[i];
    }


    /** The agent's own `add_conversation`, with the record of the list kept up to date. */
    method AddConversation(agent: Agent, cvsId: nat) returns (ok: bool)
      requires Valid() && agent in list
      modifies this`list, agent`load, agent`conversations, head`next, list`prev, list`next
      ensures Valid() && agent in list && SameMembers(old(list), list)
      ensures ok <==> cvsId !in old(agent.conversations)
      ensures Model() == Rosters.AddConversation(old(Model()), agent.id.uin, cvsId)
    {
      hide Distinct, Moved, TailSlot, Agrees, KeysOf, Keys, Pooled, Uins, Recs, Linked, Listed, IndexOf;
      ghost var i := Position(agent);
      ghost var nodes, r := list, Model();
      PooledKeys(pool, nodes);
      LinkedDistinct(head, nodes);
      Distinguished(nodes, i);
      ghost var a := agent.Rec();
      ghost var keys := KeysOf(nodes)[i := Key(Inc16(agent.load), agent.capacity)];
      if cvsId !in agent.conversations {
        Relist(i, TailSlot(keys, i));
      }
      ghost var list';
      ok, list' := agent.AddConversation(cvsId, head, nodes, i);
      KeysButOne(nodes, i, old(KeysOf(nodes)));
      RecsButOne(agent, r.pool);
      assert list == list';
      KeysOfPool(pool, nodes);
      if ok {
        assert agent.Rec() == a.(cvs := a.cvs + {cvsId}, load := Inc16(a.load));
      } else {
        assert agent.Rec() == a;
      }
      assert Model() == Rosters.AddConversation(r, agent.id.uin, cvsId);
      AddConversationAgrees(r, agent.id.uin, cvsId);
    }

    /** The agent's own `remove_conversation`, with the record of the list kept up to date. */
    method RemoveConversation(agent: Agent, cvsId: nat) returns (ok: bool)
      requires Valid() && agent in list
      modifies this`list, agent`load, agent`conversations, head`next, list`prev, list`next
      ensures Valid() && agent in list && SameMembers(old(list), list)
      ensures ok <==> cvsId in old(agent.conversations)
      ensures Model() == Rosters.RemoveConversation(old(Model()), agent.id.uin, cvsId)
    {
      hide Distinct, Moved, HeadSlot, Agrees, KeysOf, Keys, Pooled, Uins, Recs, Linked, Listed, IndexOf;
      ghost var i := Position(agent);
      ghost var nodes, r := list, Model();
      PooledKeys(pool, nodes);
      LinkedDistinct(head, nodes);
      Distinguished(nodes, i);
      ghost var a := agent.Rec();
      ghost var keys := KeysOf(nodes)[i := Key(Dec16(agent.load), agent.capacity)];
      if cvsId in agent.conversations {
        Relist(i, HeadSlot(keys, i));
      }
      ghost var list';
      ok, list' := agent.RemoveConversation(cvsId, head, nodes, i);
      KeysButOne(nodes, i, old(KeysOf(nodes)));
      RecsButOne(agent, r.pool);
      assert list == list';
      if ok {
        KeysOfPool(pool, nodes);
        assert agent.Rec() == a.(cvs := a.cvs - {cvsId}, load := Dec16(a.load));
      } else {
        assert agent.Rec() == a;
      }
      assert Model() == Rosters.RemoveConversation(r, agent.id.uin, cvsId);
      RemoveConversationAgrees(r, agent.id.uin, cvsId);
    }

    /** The same removal as the source has it. No number of rounds lets it come back unless the roster
        says so, and then pool and list are the roster's. */
    method RemoveConversationAsWritten(agent: Agent, cvsId: nat, fuel: nat) returns (returned: bool, ok: bool)
      requires Valid() && agent in list && fuel > 0
      modifies agent`load, agent`conversations, list`prev, list`next
      ensures ok <==> cvsId in old(agent.conversations)
      ensures agent.id.uin in old(Model()).pool && Agrees(old(Model()))
      ensures returned <==> RemoveAsWritten(old(Model()), agent.id.uin, cvsId).Some?
      ensures returned ==> Valid() && Model() == RemoveAsWritten(old(Model()), agent.id.uin, cvsId).value
    {
      hide Distinct, HeadSlot, Agrees, KeysOf, Keys, Pooled, Uins, Recs, Linked, Listed, IndexOf;
      ghost var i := Position(agent);
      ghost var r := Model();
      RecordOf(agent);
      PooledKeys(pool, list);
      LinkedDistinct(head, list);
      Distinguished(list, i);
      ghost var a := agent.Rec();
      returned, ok := agent.RemoveConversationAsWritten(cvsId, head, list, i, fuel);
      KeysButOne(list, i, old(KeysOf(list)));
      RecsButOne(agent, r.pool);
      KeysOfPool(pool, list);
      if ok {
        assert agent.Rec() == a.(cvs := a.cvs - {cvsId}, load := Dec16(a.load));
      } else {
        assert agent.Rec() == a;
      }
    }

    /** An invited agent accepts: the invitation is consumed. */
    method Accept(id: Umid) returns (agent: Agent?)
      requires Valid()
      modifies this`inviting, pool.Values`state
      ensures Valid()
      ensures agent == null <==> !(Rosters.Find(old(Model()), id) && id.uin in old(inviting))
      ensures Model() == if agent != null then Answer(old(Model()), id.uin, Available) else old(Model())
      ensures agent != null ==> agent in list && agent.id == id
    {
      hide Distinct, Linked, Pooled, Covers, Listed, Recs, Uins;
      FindIs(id);
      agent := Find(id);
      if agent == null || id.uin !in inviting {
        return null;
      }
      Stamp(agent, Available, inviting - {id.uin});
    }

    method Refuse(id: Umid) returns (ok: bool)
      requires Valid()
      modifies this`inviting, pool.Values`state
      ensures Valid()
      ensures ok == (Rosters.Find(old(Model()), id) && id.uin in old(inviting))
      ensures Model() == if ok then Answer(old(Model()), id.uin, Refused) else old(Model())
    {
      hide Distinct, Linked, Pooled, Covers, Listed, Recs, Uins;
      FindIs(id);
      var agent := Find(id);
      if agent == null || id.uin !in inviting {
        return false;
      }
      Stamp(agent, Refused, inviting - {id.uin});
      ok := true;
    }

    // An agent's state and the inviting set change together.
    method Stamp(agent: Agent, state: AgentState, invited: set<nat>)
      requires Valid() && agent in list
      modifies this`inviting, agent`state
      ensures Valid() && agent.id.uin in old(Model()).pool && inviting == invited
      ensures var u, r := agent.id.uin, old(Model());
              Model() == r.(pool := r.pool[u := r.pool[u].(state := state)], inviting := invited)
    {
      hide Distinct, Pooled, Uins, Recs, Linked, Listed, IndexOf;
      ghost var i := Position(agent);
      ghost var r := Model();
      PooledKeys(pool, list);
      LinkedDistinct(head, list);
      inviting := invited;
      agent.state := state;
      RecsButOne(agent, r.pool);
      assert agent.Rec() == r.pool[agent.id.uin].(state := state);
      PooledAgrees(pool, list, Model());
    }

    /** Every pooled agent is reported once, in load order. */
    method GetList() returns (infos: seq<AgentInfo>, num: uint16)
      requires Valid() && |list| <= 0xFFFF
      ensures num == |Model().order| && |infos| == num
      ensures forall k :: 0 <= k < |infos| ==>
                infos[k] == AgentInfo(Model().pool[Model().order[k]].id, Model().pool[Model().order[k]].name)
    {
      hide Distinct, Pooled;
      infos, num := [], 0;
      var agent := head.next;
      ghost var k: nat := 0;
      while agent != null
        invariant k <= |list| && num == k == |infos|
        invariant agent == if k < |list| then list[k] else null
        invariant forall j :: 0 <= j < k ==> infos[j] == AgentInfo(list[j].id, list[j].name)
        decreases |list| - k
      {
        assert LinkedAt(head, list, k);
        num := Inc16(num);
        infos := infos + [AgentInfo(agent.id, agent.name)];
        agent := agent.next;
        k := k + 1;
      }
      forall j | 0 <= j < |infos|
        ensures Model().pool[Model().order[j]].id == list[j].id && Model().pool[Model().order[j]].name == list[j].name
      {
        PooledAt(pool, list, j);
      }
    }

    /** The next agent behind `after` (or from the head) that can be invited, now invited. */
    method Invite(after: Agent?, ghost from: nat) returns (agent: Agent?, ghost k: nat)
      requires Valid()
      requires if after == null then from == 0 else 0 < from <= |list| && list[from - 1] == after
      modifies this`inviting, pool.Values`state
      ensures Valid() && from <= k <= |list| == |old(Model()).order|
      ensures forall j :: from <= j < k ==> !Eligible(old(Model()).pool[Model().order[j]], old(inviting))
      ensures agent == null ==> k == |list| && Model() == old(Model())
      ensures agent != null ==>
                && k < |list| && list[k] == agent && old(Model()).order[k] == agent.id.uin
                && agent.id.uin in old(Model()).pool && old(Model()).pool[agent.id.uin].id == agent.id
                && Eligible(old(Model()).pool[agent.id.uin], old(inviting))
                && Model() == old(Model()).(pool := Mark(old(Model()).pool, [agent.id.uin]),
                                            inviting := old(inviting) + {agent.id.uin})
    {
      hide Distinct, Pooled, Recs, Uins, Mark, Covers;
      ghost var r := Model();
      assert from > 0 ==> LinkedAt(head, list, from - 1);
      agent, k := if after == null then head.next else after.next, from;
      while agent != null
        invariant from <= k <= |list|
        invariant agent == if k < |list| then list[k] else null
        invariant Valid() && Model() == r
        invariant forall j :: from <= j < k ==> !Eligible(r.pool[r.order[j]], r.inviting)
        decreases |list| - k
      {
        assert LinkedAt(head, list, k);
        PooledAt(pool, list, k);
        if agent.IsStrongAval() && agent.id.uin !in inviting {
          MarkOne(r.pool, agent.id.uin);
          Stamp(agent, AgentState.Inviting, inviting + {agent.id.uin});
          break;
        }
        agent := agent.next;
        k := k + 1;
      }
    }
  }
}
