/** Agents are kept in load order: lighter load first and, at equal load, larger capacity
    first. This module says what it means to slide one element of such an order towards the
    tail or the head, and proves where it ends up. */
module LoadOrder {
  import opened Types

  datatype Key = Key(load: uint16, capacity: uint16)

  // The comparison the server calls `operator>`: x belongs strictly behind y.
  predicate Gt(x: Key, y: Key) {
    x.load > y.load || (x.load == y.load && x.capacity < y.capacity)
  }

  /** What the order means: lighter load first and, at equal load, larger capacity first. */
  ghost predicate MayPrecede(x: Key, y: Key) {
    x.load < y.load || (x.load == y.load && x.capacity >= y.capacity)
  }

  ghost predicate Sorted(keys: seq<Key>) {
    forall i, j :: 0 <= i < j < |keys| ==> MayPrecede(keys[i], keys[j])
  }

  ghost predicate Distinct<T>(s: seq<T>) {
    forall i, j :: 0 <= i < j < |s| ==> s[i] != s[j]
  }

  function Without<T>(s: seq<T>, i: nat): (r: seq<T>)
    requires i < |s|
    ensures |r| == |s| - 1
  {
    s[..i] + s[i + 1..]
  }

  function InsertAt<T>(s: seq<T>, j: nat, x: T): (r: seq<T>)
    requires j <= |s|
    ensures |r| == |s| + 1
  {
    s[..j] + [x] + s[j..]
  }

  /** s with its i-th element taken out and put back at position j; the others keep their order. */
  function Moved<T>(s: seq<T>, i: nat, j: nat): (r: seq<T>)
    requires i < |s| && j < |s|
    ensures |r| == |s|
  {
    InsertAt(Without(s, i), j, s[i])
  }

  /** Where element i stops when it slides right, past every element that is not behind it. */
  function TailSlotFrom(keys: seq<Key>, i: nat, j: nat): (slot: nat)
    requires i <= j < |keys|
    ensures j <= slot < |keys|
    decreases |keys| - j
  {
    if j + 1 < |keys| && !Gt(keys[j + 1], keys[i]) then TailSlotFrom(keys, i, j + 1) else j
  }

  function TailSlot(keys: seq<Key>, i: nat): (slot: nat)
    requires i < |keys|
    ensures i <= slot < |keys|
  {
    TailSlotFrom(keys, i, i)
  }

  /** Where element i stops when it slides left, past every element that it is not behind. */
  function HeadSlotFrom(keys: seq<Key>, i: nat, j: nat): (slot: nat)
    requires j <= i < |keys|
    ensures slot <= j
    decreases j
  {
    if j > 0 && !Gt(keys[i], keys[j - 1]) then HeadSlotFrom(keys, i, j - 1) else j
  }

  function HeadSlot(keys: seq<Key>, i: nat): (slot: nat)
    requires i < |keys|
    ensures slot <= i
  {
    HeadSlotFrom(keys, i, i)
  }

  // ---- what moving an element does, position by position ----

  lemma MovedAt<T>(s: seq<T>, i: nat, j: nat, k: nat)
    requires i < |s| && j < |s| && k < |s|
    ensures Moved(s, i, j)[k] ==
            if k == j then s[i]
            else if k < j then (if k < i then s[k] else s[k + 1])
            else if k - 1 < i then s[k - 1]
            else s[k]
  {
  }

  lemma MovedElements<T>(s: seq<T>, i: nat, j: nat)
    requires i < |s| && j < |s|
    ensures multiset(Moved(s, i, j)) == multiset(s)
    ensures forall x :: x in Moved(s, i, j) <==> x in s
  {
    var others := Without(s, i);
    calc {
      multiset(Moved(s, i, j));
      multiset(others[..j]) + multiset{s[i]} + multiset(others[j..]);
      multiset(others[..j] + others[j..]) + multiset{s[i]};
      { assert others == others[..j] + others[j..]; }
      multiset(s[..i]) + multiset(s[i + 1..]) + multiset{s[i]};
      multiset(s[..i] + [s[i]] + s[i + 1..]);
      { assert s == s[..i] + [s[i]] + s[i + 1..]; }
      multiset(s);
    }
    forall x ensures x in Moved(s, i, j) <==> x in s {
      assert x in Moved(s, i, j) <==> x in multiset(Moved(s, i, j));
    }
  }

  lemma MovedDistinct<T>(s: seq<T>, i: nat, j: nat)
    requires i < |s| && j < |s| && Distinct(s)
    ensures Distinct(Moved(s, i, j))
  {
    var r := Moved(s, i, j);
    forall a, b | 0 <= a < b < |r| ensures r[a] != r[b] {
      MovedAt(s, i, j, a);
      MovedAt(s, i, j, b);
    }
  }

  lemma MovedKeepsOthers<T>(s: seq<T>, i: nat, j: nat)
    requires i < |s| && j < |s|
    ensures Moved(s, i, j)[j] == s[i] && Without(Moved(s, i, j), j) == Without(s, i)
  {
  }

  // One more step of the slide swaps two neighbours.
  lemma MovedStep<T>(s: seq<T>, i: nat, j: nat)
    requires i < |s| && j + 1 < |s|
    ensures var r := Moved(s, i, j);
            Moved(s, i, j + 1) == r[j := r[j + 1]][j + 1 := r[j]]
  {
  }

  lemma MovedStepBack<T>(s: seq<T>, i: nat, j: nat)
    requires i < |s| && 0 < j < |s|
    ensures var r := Moved(s, i, j);
            Moved(s, i, j - 1) == r[j - 1 := r[j]][j := r[j - 1]]
  {
  }

  lemma MovedNowhere<T>(s: seq<T>, i: nat)
    requires i < |s|
    ensures Moved(s, i, i) == s
  {
  }

  // ---- where the slide ends ----

  /** x fits into position j of an order when nothing before j is behind x and x is behind
      nothing from j on. */
  lemma InsertSorted(others: seq<Key>, j: nat, x: Key)
    requires j <= |others| && Sorted(others)
    requires forall k :: 0 <= k < j ==> MayPrecede(others[k], x)
    requires forall k :: j <= k < |others| ==> MayPrecede(x, others[k])
    ensures Sorted(InsertAt(others, j, x))
  {
    var r := InsertAt(others, j, x);
    forall a, b | 0 <= a < b < |r| ensures MayPrecede(r[a], r[b]) {
      assert r[a] == if a < j then others[a] else if a == j then x else others[a - 1];
      assert r[b] == if b < j then others[b] else if b == j then x else others[b - 1];
    }
  }

  ghost predicate BehindEquals(others: seq<Key>, j: nat, x: Key)
    requires j <= |others|
  {
    && (forall k :: 0 <= k < j ==> MayPrecede(others[k], x))
    && (forall k :: j <= k < |others| ==> !MayPrecede(others[k], x))
  }

  ghost predicate AheadOfEquals(others: seq<Key>, j: nat, x: Key)
    requires j <= |others|
  {
    && (forall k :: 0 <= k < j ==> !MayPrecede(x, others[k]))
    && (forall k :: j <= k < |others| ==> MayPrecede(x, others[k]))
  }

  /** Where the slide towards the tail stops: past every key not behind this one, short of the first
      that is. */
  ghost predicate StopsTailwards(keys: seq<Key>, i: nat, j: nat) {
    && i <= j < |keys|
    && (forall k :: i < k <= j ==>
          keys[k].load < keys[i].load || (keys[k].load == keys[i].load && keys[k].capacity >= keys[i].capacity))
    && (j + 1 < |keys| ==>
          keys[j + 1].load > keys[i].load
          || (keys[j + 1].load == keys[i].load && keys[j + 1].capacity < keys[i].capacity))
  }

  ghost predicate StopsHeadwards(keys: seq<Key>, i: nat, j: nat) {
    && j <= i < |keys|
    && (forall k :: j <= k < i ==>
          keys[k].load > keys[i].load || (keys[k].load == keys[i].load && keys[k].capacity <= keys[i].capacity))
    && (j > 0 ==>
          keys[j - 1].load < keys[i].load
          || (keys[j - 1].load == keys[i].load && keys[j - 1].capacity > keys[i].capacity))
  }

  lemma {:induction false} TailSlotStops(keys: seq<Key>, i: nat, j: nat)
    requires i <= j < |keys| && forall k :: i < k <= j ==> MayPrecede(keys[k], keys[i])
    ensures StopsTailwards(keys, i, TailSlotFrom(keys, i, j))
    decreases |keys| - j
  {
    if j + 1 < |keys| && !Gt(keys[j + 1], keys[i]) {
      TailSlotStops(keys, i, j + 1);
    }
  }

  lemma {:induction false} HeadSlotStops(keys: seq<Key>, i: nat, j: nat)
    requires j <= i < |keys| && forall k :: j <= k < i ==> MayPrecede(keys[i], keys[k])
    ensures StopsHeadwards(keys, i, HeadSlotFrom(keys, i, j))
    decreases j
  {
    if j > 0 && !Gt(keys[i], keys[j - 1]) {
      HeadSlotStops(keys, i, j - 1);
    }
  }

  lemma {:induction false} TailSlotFromStops(keys: seq<Key>, i: nat, j: nat)
    requires i <= j < |keys| && Sorted(Without(keys, i))
    requires forall k :: 0 <= k < j ==> MayPrecede(Without(keys, i)[k], keys[i])
    ensures BehindEquals(Without(keys, i), TailSlotFrom(keys, i, j), keys[i])
    decreases |keys| - j
  {
    var others := Without(keys, i);
    if j + 1 < |keys| {
      assert others[j] == keys[j + 1];
      if MayPrecede(keys[j + 1], keys[i]) {
        TailSlotFromStops(keys, i, j + 1);
      } else {
        forall k | j <= k < |others| ensures !MayPrecede(others[k], keys[i]) {
          assert k == j || MayPrecede(others[j], others[k]);
        }
      }
    }
  }

  lemma {:induction false} HeadSlotFromStops(keys: seq<Key>, i: nat, j: nat)
    requires j <= i < |keys| && Sorted(Without(keys, i))
    requires forall k :: j <= k < |keys| - 1 ==> MayPrecede(keys[i], Without(keys, i)[k])
    ensures AheadOfEquals(Without(keys, i), HeadSlotFrom(keys, i, j), keys[i])
    decreases j
  {
    var others := Without(keys, i);
    if j > 0 {
      assert others[j - 1] == keys[j - 1];
      if MayPrecede(keys[i], keys[j - 1]) {
        HeadSlotFromStops(keys, i, j - 1);
      } else {
        forall k | 0 <= k < j ensures !MayPrecede(keys[i], others[k]) {
          assert k == j - 1 || MayPrecede(others[k], others[j - 1]);
        }
      }
    }
  }

  /** `order_to_tail`: when everything is sorted but element i, which may stand too far left,
      sliding it right sorts the list, keeps the order of all others, and puts it behind all
      elements of equal key; no other slot does. */
  lemma OrderToTailCorrect(keys: seq<Key>, i: nat)
    requires i < |keys| && Sorted(Without(keys, i))
    requires forall k :: 0 <= k < i ==> MayPrecede(keys[k], keys[i])
    ensures Sorted(Moved(keys, i, TailSlot(keys, i)))
    ensures forall j :: 0 <= j < |keys| ==>
              (j == TailSlot(keys, i) <==> BehindEquals(Without(keys, i), j, keys[i]))
  {
    var others, slot := Without(keys, i), TailSlot(keys, i);
    forall k | 0 <= k < i ensures MayPrecede(others[k], keys[i]) {
      assert others[k] == keys[k];
    }
    TailSlotFromStops(keys, i, i);
    InsertSorted(others, slot, keys[i]);
    forall j | 0 <= j < |keys| && j != slot ensures !BehindEquals(others, j, keys[i]) {
      assert if j < slot then MayPrecede(others[j], keys[i]) else !MayPrecede(others[slot], keys[i]);
    }
  }

  /** `order_to_head`: the mirror image; the element ends ahead of all elements of equal key. */
  lemma OrderToHeadCorrect(keys: seq<Key>, i: nat)
    requires i < |keys| && Sorted(Without(keys, i))
    requires forall k :: i < k < |keys| ==> MayPrecede(keys[i], keys[k])
    ensures Sorted(Moved(keys, i, HeadSlot(keys, i)))
    ensures forall j :: 0 <= j < |keys| ==>
              (j == HeadSlot(keys, i) <==> AheadOfEquals(Without(keys, i), j, keys[i]))
  {
    var others, slot := Without(keys, i), HeadSlot(keys, i);
    forall k | i <= k < |others| ensures MayPrecede(keys[i], others[k]) {
      assert others[k] == keys[k + 1];
    }
    HeadSlotFromStops(keys, i, i);
    InsertSorted(others, slot, keys[i]);
    forall j | 0 <= j < |keys| && j != slot ensures !AheadOfEquals(others, j, keys[i]) {
      assert if j < slot then !MayPrecede(keys[i], others[j]) else MayPrecede(keys[i], others[slot]);
    }
  }
}
