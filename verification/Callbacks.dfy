/**
  The pending-callback queue as a value: a deque of requests numbered by a 31-bit wrapping index.
  A request is found by its distance from the front, never by searching; a request in the middle
  is dropped by clearing its callback (a tombstone) and collected when it reaches the front.

  The reference the operations are compared with is `Live`: a finite map from index to request.
 */
module Callbacks {
  import opened Types

  type uint32 = x: int | 0 <= x < 0x1_0000_0000

  const SEQ_INDEX_MASK: uint32 := 0x7FFF_FFFF
  const SEQ_INDEX_NONE: uint32 := 0xFFFF_FFFF

  // How many indexes there are before they repeat.
  const RING: int := 0x8000_0000

  const NULL: nat := 0

  datatype Payload = Payload(kind: nat, context: nat, uid: uint32, gid: uint32, gtype: nat, other: uint32)

  datatype Entry = Entry(callback: nat, payload: Payload, reqTime: int, index: uint32)

  // entries is the deque, last the index given out most recently.
  datatype Ring = Ring(entries: seq<Entry>, last: uint32)

  datatype Dealt = Dealt(ring: Ring, ok: bool, info: Option<Entry>)

  // The bitwise `x & SEQ_INDEX_MASK`: the mask is 2^31 - 1.
  function Masked(x: uint32): uint32 {
    x % RING
  }

  // The distance of an index from the front, in 32-bit unsigned arithmetic.
  function Offset(index: uint32, front: uint32): uint32 {
    Masked((index - front) % 0x1_0000_0000)
  }

  function Tombstone(e: Entry): Entry {
    e.(callback := NULL)
  }

  predicate Alive(e: Entry) {
    e.callback != NULL
  }

  predicate Late(e: Entry, now: int, timeout: int) {
    now - e.reqTime > timeout
  }

  // ---------- the operations ----------

  // The constructor of a request ignores its argument for the field other.
  function Made(callback: nat, payload: Payload, stamp: int, index: uint32): Entry {
    Entry(callback, payload.(other := 0), stamp, index)
  }

  function Add(r: Ring, callback: nat, payload: Payload, stamp: int): Ring {
    if callback == NULL then r else
      var index := Masked((r.last + 1) % 0x1_0000_0000);
      Ring(r.entries + [Made(callback, payload, stamp, index)], index)
  }

  function Cleared(q: seq<Entry>, d: nat): seq<Entry>
    requires d < |q|
  {
    q[d := Tombstone(q[d])]
  }

  function Remove(r: Ring, index: uint32): Ring {
    if index == SEQ_INDEX_NONE || r.entries == [] then r
    else if r.entries[0].index == index then r.(entries := r.entries[1..])
    else
      var d := Offset(index, r.entries[0].index);
      if d < |r.entries| then r.(entries := Cleared(r.entries, d)) else r
  }

  // The queue without the tombstones at its front.
  function Trimmed(q: seq<Entry>): seq<Entry> {
    if q == [] || Alive(q[0]) then q else Trimmed(q[1..])
  }

  function Deal(r: Ring, index: uint32): Dealt {
    if index == SEQ_INDEX_NONE then Dealt(r, true, None)
    else if r.entries == [] then Dealt(r, false, None)
    else if r.entries[0].index == index then
      Dealt(r.(entries := Trimmed(r.entries[1..])), true, Some(r.entries[0]))
    else
      var d := Offset(index, r.entries[0].index);
      if d < |r.entries| && r.entries[d].index == index then
        Dealt(r.(entries := Cleared(r.entries, d)), true, Some(r.entries[d]))
      else Dealt(r, false, None)
  }

  // How many entries a check takes from the front.
  function Leaving(q: seq<Entry>, now: int, timeout: int): (n: nat)
    ensures n <= |q|
    ensures n < |q| ==> Alive(q[n]) && !Late(q[n], now, timeout)
    ensures forall i :: 0 <= i < n ==> !Alive(q[i]) || Late(q[i], now, timeout)
  {
    if q == [] || (Alive(q[0]) && !Late(q[0], now, timeout)) then 0 else 1 + Leaving(q[1..], now, timeout)
  }

  // The requests a check calls back with a timeout, in order.
  function Expired(q: seq<Entry>, now: int, timeout: int): seq<Entry> {
    if q == [] then []
    else if Alive(q[0]) && Late(q[0], now, timeout) then [q[0]] + Expired(q[1..], now, timeout)
    else Expired(q[1..], now, timeout)
  }

  function Called(r: Ring, now: int, timeout: int): seq<Entry> {
    Expired(r.entries[..Leaving(r.entries, now, timeout)], now, timeout)
  }

  function Check(r: Ring, now: int, timeout: int): Ring {
    r.(entries := r.entries[Leaving(r.entries, now, timeout)..])
  }

  // ---------- the numbering ----------

  // The last entry has the index given out last, and indexes count down from it towards the front.
  predicate Numbered(r: Ring) {
    && |r.entries| <= RING
    && r.last < RING
    && forall i :: 0 <= i < |r.entries| ==> r.entries[i].index == (r.last - (|r.entries| - 1 - i)) % RING
  }

  lemma WrapsAround(a: int, b: int, i: int)
    requires a == b % RING
    ensures (a + i) % RING == (b + i) % RING
  {
    var k := b / RING;
    assert b == k * RING + a;
    var m := (a + i) / RING;
    assert b + i == (k + m) * RING + (a + i) % RING;
  }

  // Entry i carries the index front + i, modulo the wrap, and the last one the index given out last.
  lemma CountsFromFront(r: Ring, i: nat)
    requires Numbered(r) && i < |r.entries|
    ensures r.entries[i].index == (r.entries[0].index + i) % RING
    ensures r.entries[|r.entries| - 1].index == r.last
  {
    WrapsAround(r.entries[0].index, r.last - (|r.entries| - 1), i);
  }

  lemma AddKeepsNumbering(r: Ring, callback: nat, payload: Payload, stamp: int)
    requires Numbered(r) && |r.entries| < RING
    ensures Numbered(Add(r, callback, payload, stamp))
  {
    if callback != NULL {
      var r' := Add(r, callback, payload, stamp);
      assert r'.last == (r.last + 1) % RING;
      forall i | 0 <= i < |r'.entries|
        ensures r'.entries[i].index == (r'.last - (|r'.entries| - 1 - i)) % RING
      {
        WrapsAround(r'.last, r.last + 1, -(|r'.entries| - 1 - i));
      }
    }
  }

  lemma DropKeepsNumbering(r: Ring, n: nat)
    requires Numbered(r) && n <= |r.entries|
    ensures Numbered(r.(entries := r.entries[n..]))
  {
    var q := r.entries[n..];
    forall i | 0 <= i < |q| ensures q[i].index == (r.last - (|q| - 1 - i)) % RING {
      assert q[i] == r.entries[n + i];
    }
  }

  lemma ClearKeepsNumbering(r: Ring, d: nat)
    requires Numbered(r) && d < |r.entries|
    ensures Numbered(r.(entries := Cleared(r.entries, d)))
  {
  }

  // No operation disturbs the numbering; an add needs one free index.
  lemma NumberingKept(r: Ring, callback: nat, payload: Payload, stamp: int, index: uint32, now: int, timeout: int)
    requires Numbered(r)
    ensures |r.entries| < RING ==> Numbered(Add(r, callback, payload, stamp))
    ensures Numbered(Remove(r, index))
    ensures Numbered(Deal(r, index).ring)
    ensures Numbered(Check(r, now, timeout))
  {
    hide Numbered, Offset;
    if |r.entries| < RING {
      AddKeepsNumbering(r, callback, payload, stamp);
    }
    DropKeepsNumbering(r, Leaving(r.entries, now, timeout));
    if r.entries != [] {
      DropKeepsNumbering(r, 1);
      var n := TrimmedDrops(r.entries[1..]);
      DropKeepsNumbering(r.(entries := r.entries[1..]), n);
      var d := Offset(index, r.entries[0].index);
      if d < |r.entries| {
        ClearKeepsNumbering(r, d);
      }
    }
  }

  lemma {:induction false} TrimmedDrops(q: seq<Entry>) returns (n: nat)
    ensures n <= |q| && Trimmed(q) == q[n..]
    ensures n < |q| ==> Alive(q[n])
    ensures forall i :: 0 <= i < n ==> !Alive(q[i])
  {
    if q == [] || Alive(q[0]) {
      n := 0;
    } else {
      var m := TrimmedDrops(q[1..]);
      n := m + 1;
      assert q[n..] == q[1..][m..];
      assert n < |q| ==> q[n] == q[1..][m];
      assert forall i :: 0 < i < n ==> q[i] == q[1..][i - 1];
    }
  }

  // ---------- the offset against a linear search ----------

  // The first position holding an index, or the length.
  function Search(q: seq<Entry>, index: uint32): (i: nat)
    ensures i <= |q|
    ensures i < |q| ==> q[i].index == index
    ensures forall k :: 0 <= k < i ==> q[k].index != index
  {
    if q == [] || q[0].index == index then 0 else 1 + Search(q[1..], index)
  }

  lemma OffsetMeets(front: uint32, index: uint32, i: nat)
    requires front < RING && i < RING
    ensures (front + i) % RING == index <==> index <= SEQ_INDEX_MASK && Offset(index, front) == i
  {
  }

  lemma OffsetIsSearch(r: Ring, index: uint32)
    requires Numbered(r) && r.entries != []
    ensures var d := Offset(index, r.entries[0].index);
            Search(r.entries, index) == if index <= SEQ_INDEX_MASK && d < |r.entries| then d else |r.entries|
  {
    var q := r.entries;
    var d := Offset(index, q[0].index);
    var found := Search(q, index);
    if found < |q| {
      CountsFromFront(r, found);
      OffsetMeets(q[0].index, index, found);
    } else if index <= SEQ_INDEX_MASK && d < |q| {
      CountsFromFront(r, d);
      OffsetMeets(q[0].index, index, d);
    }
  }

  predicate IndexesDiffer(q: seq<Entry>) {
    forall i, j :: 0 <= i < j < |q| ==> q[i].index != q[j].index
  }

  lemma NumberedDiffer(r: Ring)
    requires Numbered(r)
    ensures IndexesDiffer(r.entries)
  {
    forall i, j | 0 <= i < j < |r.entries|
      ensures r.entries[i].index != r.entries[j].index
    {
      CountsFromFront(r, i);
      CountsFromFront(r, j);
      OffsetMeets(r.entries[0].index, r.entries[i].index, i);
      OffsetMeets(r.entries[0].index, r.entries[i].index, j);
    }
  }

  // ---------- the queue as a finite map ----------

  // The requests still owed a call, by index.
  function Live(q: seq<Entry>): map<uint32, Entry> {
    if q == [] then map[]
    else if Alive(q[0]) then Live(q[1..])[q[0].index := q[0]]
    else Live(q[1..])
  }

  lemma {:induction false} LiveHolds(q: seq<Entry>, i: nat)
    requires IndexesDiffer(q) && i < |q|
    ensures q[i].index in Live(q) <==> Alive(q[i])
    ensures Alive(q[i]) ==> Live(q)[q[i].index] == q[i]
  {
    if i == 0 {
      LiveComesFrom(q[1..], q[0].index);
    } else {
      LiveHolds(q[1..], i - 1);
    }
  }

  lemma {:induction false} LiveComesFrom(q: seq<Entry>, index: uint32)
    ensures index in Live(q) ==> exists i :: 0 <= i < |q| && q[i].index == index && Alive(q[i])
  {
    if q != [] && index in Live(q) {
      if Alive(q[0]) && q[0].index == index {
      } else {
        LiveComesFrom(q[1..], index);
        var i :| 0 <= i < |q[1..]| && q[1..][i].index == index && Alive(q[1..][i]);
        assert q[i + 1] == q[1..][i];
      }
    }
  }

  lemma LiveIsGiven(r: Ring, index: uint32)
    requires Numbered(r)
    ensures index in Live(r.entries) ==> index <= SEQ_INDEX_MASK
  {
    LiveComesFrom(r.entries, index);
  }

  lemma {:induction false} LivePush(q: seq<Entry>, e: Entry)
    requires Alive(e) && IndexesDiffer(q + [e])
    ensures Live(q + [e]) == Live(q)[e.index := e]
    ensures e.index !in Live(q)
  {
    if q == [] {
      assert q + [e] == [e];
    } else {
      assert (q + [e])[1..] == q[1..] + [e];
      assert forall i :: 0 < i < |q + [e]| ==> (q + [e])[i] == (q[1..] + [e])[i - 1];
      LivePush(q[1..], e);
      assert (q + [e])[0].index != (q + [e])[|q|].index;
    }
  }

  lemma {:induction false} LiveClear(q: seq<Entry>, d: nat)
    requires IndexesDiffer(q) && d < |q|
    ensures Live(Cleared(q, d)) == Live(q) - {q[d].index}
  {
    if d == 0 {
      assert Cleared(q, 0)[1..] == q[1..];
      LiveComesFrom(q[1..], q[0].index);
    } else {
      assert Cleared(q, d)[1..] == Cleared(q[1..], d - 1);
      LiveClear(q[1..], d - 1);
      assert q[0].index != q[d].index;
    }
  }

  // The first n entries leave; their indexes leave the map.
  lemma {:induction false} LiveDrop(q: seq<Entry>, n: nat)
    requires IndexesDiffer(q) && n <= |q|
    ensures Live(q[n..]) == Live(q) - (set i | 0 <= i < n :: q[i].index)
  {
    if n == 0 {
      assert q[0..] == q;
    } else {
      LiveDrop(q[1..], n - 1);
      assert q[1..][n - 1..] == q[n..];
      var tail := set i | 0 <= i < n - 1 :: q[1..][i].index;
      var all := set i | 0 <= i < n :: q[i].index;
      forall x ensures x in all <==> x in tail || x == q[0].index {
        if x in tail {
          var i :| 0 <= i < n - 1 && q[1..][i].index == x;
          assert q[i + 1].index == x;
        }
        if x in all {
          var i :| 0 <= i < n && q[i].index == x;
          assert i > 0 ==> q[1..][i - 1].index == x;
        }
        assert q[0].index in all;
      }
      LiveComesFrom(q[1..], q[0].index);
    }
  }

  lemma {:induction false} LiveTrim(q: seq<Entry>)
    ensures Live(Trimmed(q)) == Live(q)
  {
    if q != [] && !Alive(q[0]) {
      LiveTrim(q[1..]);
    }
  }

  // ---------- each operation against the map ----------

  /** The entry carries what the caller passed in, under this index. */
  predicate Carries(e: Entry, callback: nat, payload: Payload, stamp: int, index: uint32) {
    && e.callback == callback
    && e.payload.kind == payload.kind && e.payload.context == payload.context
    && e.payload.uid == payload.uid && e.payload.gid == payload.gid && e.payload.gtype == payload.gtype
    && e.payload.other == 0
    && e.reqTime == stamp
    && e.index == index
  }

  // A fresh index enters the map with all the caller passed in; a request without a callback is
  // refused. Indexes are given out in turn, from 0 again after 2^31 - 1.
  lemma AddExtendsMap(r: Ring, callback: nat, payload: Payload, stamp: int)
    requires Numbered(r) && |r.entries| < RING
    ensures var r' := Add(r, callback, payload, stamp);
            if callback == NULL then r' == r
            else r'.last == (if r.last == 0x7FFF_FFFF then 0 else r.last + 1)
                 && r'.last !in Live(r.entries)
                 && r'.last in Live(r'.entries)
                 && Carries(Live(r'.entries)[r'.last], callback, payload, stamp, r'.last)
                 && Live(r'.entries) == Live(r.entries)[r'.last := Live(r'.entries)[r'.last]]
  {
    if callback != NULL {
      hide Numbered, IndexesDiffer;
      var r', made := Add(r, callback, payload, stamp), Made(callback, payload, stamp, Add(r, callback, payload, stamp).last);
      AddKeepsNumbering(r, callback, payload, stamp);
      LastInRing(r);
      NumberedDiffer(r');
      LivePush(r.entries, made);
      hide Live;
      assert Live(r'.entries)[r'.last] == made;
    }
  }

  lemma LastInRing(r: Ring)
    requires Numbered(r)
    ensures r.last < RING
  {
  }

  // Deal is right for every 32-bit index: it hands out exactly the live request of that index and
  // takes it off the map; anything else changes nothing and hands out no callback.
  lemma DealTakesFromMap(r: Ring, index: uint32)
    requires Numbered(r)
    ensures var dealt := Deal(r, index);
            && Live(dealt.ring.entries) == Live(r.entries) - {index}
            && (dealt.info.Some? && Alive(dealt.info.value) <==> index in Live(r.entries))
            && (index in Live(r.entries) ==> dealt.ok && dealt.info.value == Live(r.entries)[index])
  {
    var q := r.entries;
    NumberedDiffer(r);
    LiveComesFrom(q, index);
    if index != SEQ_INDEX_NONE && q != [] {
      OffsetIsSearch(r, index);
      var d := Offset(index, q[0].index);
      if q[0].index == index {
        LiveHolds(q, 0);
        LiveDrop(q, 1);
        assert (set i | 0 <= i < 1 :: q[i].index) == {index};
        LiveTrim(q[1..]);
      } else if d < |q| && q[d].index == index {
        LiveHolds(q, d);
        LiveClear(q, d);
      }
    }
  }

  // Deal succeeds exactly when a linear search finds the index, a tombstone included. At the front the
  // entry leaves with the tombstones behind it; elsewhere it becomes a tombstone; nothing else changes.
  // The reserved index succeeds and changes nothing.
  lemma DealFindsBySearch(r: Ring, index: uint32)
    requires Numbered(r)
    ensures var dealt, q := Deal(r, index), r.entries;
            var i := Search(q, index);
            if index == 0xFFFF_FFFF then dealt == Dealt(r, true, None)
            else if i == |q| then dealt == Dealt(r, false, None)
            else
              && dealt.ok && dealt.info == Some(q[i]) && dealt.ring.last == r.last
              && if i > 0 then dealt.ring.entries == q[i := q[i].(callback := 0)]
                 else exists n :: 1 <= n <= |q| && dealt.ring.entries == q[n..]
                                  && (forall k :: 1 <= k < n ==> q[k].callback == 0)
                                  && (n < |q| ==> q[n].callback != 0)
  {
    if r.entries != [] {
      OffsetIsSearch(r, index);
      CountsFromFront(r, 0);
      if r.entries[0].index == index {
        var n := TrimmedDrops(r.entries[1..]);
        assert r.entries[1..][n..] == r.entries[n + 1..];
        assert forall k :: 1 <= k < |r.entries| ==> r.entries[k] == r.entries[1..][k - 1];
        assert Deal(r, index).ring.entries == r.entries[n + 1..];
      }
    }
  }

  // The distance ignores the top bit, in which no given index differs.
  lemma OffsetIgnoresTopBit(index: uint32, front: uint32)
    ensures Offset(index, front) == Offset(Masked(index), front)
  {
  }

  // The store in Remove is not guarded by a comparison of the index: whatever the top bit, the
  // request dropped is the one whose index agrees in the other 31 bits.
  lemma RemoveTakesMasked(r: Ring, index: uint32)
    requires Numbered(r) && index != SEQ_INDEX_NONE
    ensures Live(Remove(r, index).entries) == Live(r.entries) - {Masked(index)}
  {
    var q := r.entries;
    NumberedDiffer(r);
    LiveComesFrom(q, Masked(index));
    if q != [] {
      CountsFromFront(r, 0);
      OffsetIgnoresTopBit(index, q[0].index);
      OffsetIsSearch(r, Masked(index));
      var d := Offset(index, q[0].index);
      if q[0].index == index {
        LiveDrop(q, 1);
        assert (set i | 0 <= i < 1 :: q[i].index) == {index};
      } else if d < |q| {
        LiveClear(q, d);
      }
    }
  }

  lemma DroppingAnother(m: map<uint32, Entry>, x: uint32, y: uint32)
    requires y !in m
    ensures m - {x} == m - {y} <==> x !in m || x == y
  {
    assert m - {y} == m;
    if x !in m {
      assert m - {x} == m;
    } else {
      assert x in m && x !in m - {x};
    }
  }

  // So the map loses the named index and nothing else for every index an add can return, and more
  // exactly: if and only if the top bit is clear, or no live request agrees in the other bits.
  lemma RemoveTakesFromMap(r: Ring, index: uint32)
    requires Numbered(r)
    ensures Live(Remove(r, index).entries) == Live(r.entries) - {index} <==>
            index <= SEQ_INDEX_MASK || index == SEQ_INDEX_NONE || Masked(index) !in Live(r.entries)
  {
    hide Live, Offset;
    LiveComesFrom(r.entries, index);
    if index == SEQ_INDEX_NONE {
      assert index !in Live(r.entries);
      assert Live(r.entries) - {index} == Live(r.entries);
    } else {
      RemoveTakesMasked(r, index);
      if index > SEQ_INDEX_MASK {
        DroppingAnother(Live(r.entries), Masked(index), index);
      }
    }
  }

  // What Remove answers.
  predicate Removes(r: Ring, index: uint32) {
    || index == SEQ_INDEX_NONE
    || (r.entries != [] && Offset(index, r.entries[0].index) < |r.entries|)
  }

  // Remove answers true exactly when a linear search finds the index, top bit aside. Under its own index
  // the front leaves alone; any other entry found loses its callback; nothing else changes. The reserved
  // index succeeds and changes nothing.
  lemma RemoveFindsBySearch(r: Ring, index: uint32)
    requires Numbered(r)
    ensures var r', q := Remove(r, index), r.entries;
            var i := Search(q, index % 0x8000_0000);
            if index == 0xFFFF_FFFF then Removes(r, index) && r' == r
            else if i == |q| then !Removes(r, index) && r' == r
            else
              && Removes(r, index) && r'.last == r.last
              && r'.entries == if q[0].index == index then q[1..] else q[i := q[i].(callback := 0)]
  {
    if r.entries != [] {
      CountsFromFront(r, 0);
      OffsetIgnoresTopBit(index, r.entries[0].index);
      OffsetIsSearch(r, Masked(index));
    }
  }

  // Two requests wait, 1 and 2. Removing index 2^31 + 2, which was never given out, drops request 2.
  lemma RemoveMayHitAnother(callback: nat, payload: Payload, stamp: int)
    requires callback != NULL
    ensures var r := Add(Add(Ring([], 0), callback, payload, stamp), callback, payload, stamp);
            var r' := Remove(r, 0x8000_0002);
            && 0x8000_0002 !in Live(r.entries)
            && 2 in Live(r.entries)
            && 2 !in Live(r'.entries)
  {
    var r := Add(Add(Ring([], 0), callback, payload, stamp), callback, payload, stamp);
    var r' := Remove(r, 0x8000_0002);
    assert r.entries == [Made(callback, payload, stamp, 1), Made(callback, payload, stamp, 2)];
    assert r'.entries == [Made(callback, payload, stamp, 1), Made(NULL, payload, stamp, 2)];
    NumberedDiffer(r);
    NumberedDiffer(r');
    LiveHolds(r.entries, 1);
    LiveHolds(r'.entries, 1);
    LiveComesFrom(r.entries, 0x8000_0002);
  }

  // ---------- the timeout check ----------

  // No live entry in time stands before a live entry that is late.
  predicate LateFirst(q: seq<Entry>, now: int, timeout: int) {
    forall i, j :: 0 <= i < j < |q| && Alive(q[i]) && !Late(q[i], now, timeout) && Alive(q[j]) ==>
      !Late(q[j], now, timeout)
  }

  predicate InTimeOrder(q: seq<Entry>) {
    forall i, j :: 0 <= i < j < |q| ==> q[i].reqTime <= q[j].reqTime
  }

  lemma {:induction false} ExpiredJoin(a: seq<Entry>, b: seq<Entry>, now: int, timeout: int)
    ensures Expired(a + b, now, timeout) == Expired(a, now, timeout) + Expired(b, now, timeout)
  {
    if a == [] {
      assert a + b == b;
    } else {
      assert (a + b)[1..] == a[1..] + b;
      ExpiredJoin(a[1..], b, now, timeout);
    }
  }

  lemma ExpiredGrows(q: seq<Entry>, n: nat, now: int, timeout: int)
    requires n < |q|
    ensures Expired(q[..n + 1], now, timeout) ==
            Expired(q[..n], now, timeout) + if Alive(q[n]) && Late(q[n], now, timeout) then [q[n]] else []
  {
    assert q[..n + 1] == q[..n] + [q[n]];
    ExpiredJoin(q[..n], [q[n]], now, timeout);
  }

  lemma {:induction false} NoneExpired(q: seq<Entry>, now: int, timeout: int)
    ensures Expired(q, now, timeout) == [] <==> forall i :: 0 <= i < |q| && Alive(q[i]) ==> !Late(q[i], now, timeout)
  {
    if q != [] {
      NoneExpired(q[1..], now, timeout);
      assert forall i :: 0 < i < |q| ==> q[i] == q[1..][i - 1];
      assert forall i :: 0 <= i < |q[1..]| ==> q[1..][i] == q[i + 1];
    }
  }

  lemma CheckLeavesNone(q: seq<Entry>, now: int, timeout: int)
    ensures LateFirst(q, now, timeout) <==> Expired(q[Leaving(q, now, timeout)..], now, timeout) == []
  {
    hide Expired, Late, Leaving;
    var n := Leaving(q, now, timeout);
    var left := q[n..];
    NoneExpired(left, now, timeout);
    if LateFirst(q, now, timeout) {
      forall i | 0 <= i < |left| && Alive(left[i]) ensures !Late(left[i], now, timeout) {
        assert left[i] == q[n + i];
      }
    }
    if Expired(left, now, timeout) == [] {
      forall i, j | 0 <= i < j < |q| && Alive(q[i]) && !Late(q[i], now, timeout) && Alive(q[j])
        ensures !Late(q[j], now, timeout)
      {
        assert i >= n;
        assert left[j - n] == q[j];
      }
    }
  }

  // A check calls back late requests only, in order, from the front on; it calls back all of them
  // if and only if no live request in time stands before a late one. It leaves the queue empty or a
  // live request in time at the front.
  lemma CheckIsExact(r: Ring, now: int, timeout: int)
    ensures var left := Check(r, now, timeout).entries;
            && Expired(r.entries, now, timeout) == Called(r, now, timeout) + Expired(left, now, timeout)
            && (left != [] ==> Alive(left[0]) && !Late(left[0], now, timeout))
            && (Called(r, now, timeout) == Expired(r.entries, now, timeout) <==> LateFirst(r.entries, now, timeout))
  {
    hide LateFirst, Expired;
    var q := r.entries;
    var n := Leaving(q, now, timeout);
    assert q == q[..n] + q[n..];
    ExpiredJoin(q[..n], q[n..], now, timeout);
    CheckLeavesNone(q, now, timeout);
  }

  // Where the requests with a callback stand that have waited longer than the timeout, from i on.
  function LateFrom(q: seq<Entry>, i: nat, now: int, timeout: int): (at: seq<nat>)
    requires i <= |q|
    ensures forall k :: 0 <= k < |at| ==> i <= at[k] < |q|
    ensures forall j, k :: 0 <= j < k < |at| ==> at[j] < at[k]
    decreases |q| - i
  {
    if i == |q| then []
    else if q[i].callback != 0 && now - q[i].reqTime > timeout then
      [i] + LateFrom(q, i + 1, now, timeout)
    else LateFrom(q, i + 1, now, timeout)
  }

  lemma {:induction false} LateIs(q: seq<Entry>, i: nat, now: int, timeout: int, x: nat)
    requires i <= x < |q|
    ensures x in LateFrom(q, i, now, timeout) <==> q[x].callback != 0 && now - q[x].reqTime > timeout
    decreases x - i
  {
    if i < x {
      LateIs(q, i + 1, now, timeout, x);
    } else {
      var rest := LateFrom(q, i + 1, now, timeout);
      assert forall k :: 0 <= k < |rest| ==> rest[k] > x;
    }
  }

  // The late requests are exactly those, each once and in order.
  lemma {:induction false} ExpiredAre(q: seq<Entry>, i: nat, now: int, timeout: int)
    requires i <= |q|
    ensures var late, at := Expired(q[i..], now, timeout), LateFrom(q, i, now, timeout);
            |late| == |at| && forall k :: 0 <= k < |at| ==> late[k] == q[at[k]]
    decreases |q| - i
  {
    if i < |q| {
      var rest, at := LateFrom(q, i + 1, now, timeout), LateFrom(q, i, now, timeout);
      var later := Expired(q[i + 1..], now, timeout);
      assert q[i..][1..] == q[i + 1..] && q[i..][0] == q[i];
      ExpiredAre(q, i + 1, now, timeout);
      if q[i].callback != 0 && now - q[i].reqTime > timeout {
        assert at == [i] + rest && Expired(q[i..], now, timeout) == [q[i]] + later;
        hide LateFrom, Expired;
        forall k | 0 <= k < |at| ensures ([q[i]] + later)[k] == q[at[k]] {
          assert k > 0 ==> at[k] == rest[k - 1];
        }
      } else {
        assert at == rest && Expired(q[i..], now, timeout) == later;
      }
    }
  }

  // A check takes entries from the front only: tombstones and requests that have waited longer than the
  // timeout, up to the first request in time.
  lemma CheckTakesFront(r: Ring, now: int, timeout: int)
    ensures var r', q := Check(r, now, timeout), r.entries;
            r'.last == r.last &&
            exists n :: 0 <= n <= |q| && r'.entries == q[n..]
                        && (forall k :: 0 <= k < n ==> q[k].callback == 0 || now - q[k].reqTime > timeout)
                        && (n < |q| ==> q[n].callback != 0 && now - q[n].reqTime <= timeout)
  {
    var n := Leaving(r.entries, now, timeout);
    assert Check(r, now, timeout).entries == r.entries[n..];
  }

  // With request times nondecreasing along the queue the check misses nothing: it calls back exactly the
  // requests that stand where `LateFrom` says, in order.
  lemma CheckInTimeOrder(r: Ring, now: int, timeout: int)
    requires InTimeOrder(r.entries)
    ensures Called(r, now, timeout) == Expired(r.entries, now, timeout)
    ensures Expired(Check(r, now, timeout).entries, now, timeout) == []
    ensures var called, at := Called(r, now, timeout), LateFrom(r.entries, 0, now, timeout);
            |called| == |at| && forall k :: 0 <= k < |at| ==> called[k] == r.entries[at[k]]
  {
    CheckIsExact(r, now, timeout);
    ExpiredAre(r.entries, 0, now, timeout);
    assert r.entries[0..] == r.entries;
  }

  // The map afterwards: every index that left was a tombstone's or late.
  lemma CheckTakesFromMap(r: Ring, now: int, timeout: int, index: uint32)
    requires Numbered(r)
    ensures var before, after := Live(r.entries), Live(Check(r, now, timeout).entries);
            && (index in after ==> index in before && after[index] == before[index])
            && (index in before && !Late(before[index], now, timeout) ==> index in after)
            && (index in before && index !in after ==> before[index] in Called(r, now, timeout))
  {
    var q := r.entries;
    var n := Leaving(q, now, timeout);
    NumberedDiffer(r);
    LiveDrop(q, n);
    if index in Live(q) {
      LiveComesFrom(q, index);
      var i :| 0 <= i < |q| && q[i].index == index && Alive(q[i]);
      LiveHolds(q, i);
      if i < n {
        ExpiredHas(q[..n], i, now, timeout);
      }
    }
  }

  lemma {:induction false} ExpiredHas(q: seq<Entry>, i: nat, now: int, timeout: int)
    requires i < |q| && Alive(q[i]) && Late(q[i], now, timeout)
    ensures q[i] in Expired(q, now, timeout)
  {
    if i > 0 {
      ExpiredHas(q[1..], i - 1, now, timeout);
    }
  }

  // Two requests stamped 10 and 5 (a thread stamps its request before it takes the lock): at time 8
  // with a timeout of 2 the second is late and is not called back.
  lemma CheckMayMissLate(callback: nat, payload: Payload)
    requires callback != NULL
    ensures var r := Add(Add(Ring([], 0), callback, payload, 10), callback, payload, 5);
            Called(r, 8, 2) == [] && Expired(r.entries, 8, 2) == [Made(callback, payload, 5, 2)]
  {
    var r := Add(Add(Ring([], 0), callback, payload, 10), callback, payload, 5);
    assert r.entries == [Made(callback, payload, 10, 1), Made(callback, payload, 5, 2)];
    assert r.entries[1..] == [Made(callback, payload, 5, 2)];
    assert Expired(r.entries[1..], 8, 2) == [Made(callback, payload, 5, 2)] + Expired(r.entries[1..][1..], 8, 2);
  }
}
