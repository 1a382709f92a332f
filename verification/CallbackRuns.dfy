/**
  Whole runs of the pending-callback queue. The log beside the queue remembers every request
  registered, by serial number, every request handed out with a callback (by Deal or by a check),
  and every request dropped by a Remove of its own index.
 */
module CallbackRuns {
  import opened Types
  import opened Callbacks

  datatype Event =
    | Added(callback: nat, payload: Payload, stamp: int)
    | Removed(index: uint32)
    | Answered(index: uint32)
    | Checked(now: int, timeout: int)

  datatype Handing = Handing(serial: int, entry: Entry)

  datatype Log = Log(ring: Ring, registered: seq<Entry>, handed: seq<Handing>, removed: seq<int>)

  const EMPTY: Log := Log(Ring([], 0), [], [], [])

  // The serial number of the request at the front: whatever was registered and is not in the queue
  // was registered before.
  function Base(l: Log): int {
    |l.registered| - |l.ring.entries|
  }

  // The requests a check hands out, with their serial numbers.
  function Handings(q: seq<Entry>, base: int): seq<Handing> {
    if q == [] then []
    else if Alive(q[0]) then [Handing(base, q[0])] + Handings(q[1..], base + 1)
    else Handings(q[1..], base + 1)
  }

  function Found(l: Log, index: uint32): int {
    Base(l) + Search(l.ring.entries, index)
  }

  function Step(l: Log, ev: Event): Log
  {
    match ev
    case Added(callback, payload, stamp) =>
      var r := Add(l.ring, callback, payload, stamp);
      if r == l.ring then l else l.(ring := r, registered := l.registered + [r.entries[|r.entries| - 1]])
    case Removed(index) =>
      l.(ring := Remove(l.ring, index),
         removed := if index in Live(l.ring.entries) then l.removed + [Found(l, index)] else l.removed)
    case Answered(index) =>
      var dealt := Deal(l.ring, index);
      l.(ring := dealt.ring,
         handed := if dealt.info.Some? && Alive(dealt.info.value)
                   then l.handed + [Handing(Found(l, index), dealt.info.value)] else l.handed)
    case Checked(now, timeout) =>
      var n := Leaving(l.ring.entries, now, timeout);
      l.(ring := Check(l.ring, now, timeout), handed := l.handed + Handings(l.ring.entries[..n], Base(l)))
  }

  // Serial number s still waits for its call.
  predicate Waits(l: Log, s: int) {
    Base(l) <= s < |l.registered| && 0 <= s - Base(l) < |l.ring.entries| && Alive(l.ring.entries[s - Base(l)])
  }

  predicate WasHanded(l: Log, s: int) {
    exists k :: 0 <= k < |l.handed| && l.handed[k].serial == s
  }

  // The queue holds the requests registered last, unaltered but for tombstones.
  predicate Filed(l: Log) {
    && Base(l) >= 0
    && Numbered(l.ring)
    && l.ring.last == |l.registered| % RING
    && (forall s :: 0 <= s < |l.registered| ==>
          Alive(l.registered[s]) && l.registered[s].index == (s + 1) % RING)
    && (forall i :: 0 <= i < |l.ring.entries| ==>
          l.ring.entries[i] == l.registered[Base(l) + i] || l.ring.entries[i] == Tombstone(l.registered[Base(l) + i]))
  }

  // A handing is of a registered request, which waits no longer.
  predicate Settled(l: Log, h: Handing) {
    0 <= h.serial < |l.registered| && h.entry == l.registered[h.serial] && !Waits(l, h.serial)
  }

  // Everything handed out or removed is settled; nothing is handed out twice, or handed out and
  // removed.
  predicate Once(l: Log) {
    && (forall k :: 0 <= k < |l.handed| ==> Settled(l, l.handed[k]))
    && (forall j, k :: 0 <= j < k < |l.handed| ==> l.handed[j].serial != l.handed[k].serial)
    && (forall k :: 0 <= k < |l.removed| ==> 0 <= l.removed[k] < |l.registered| && !Waits(l, l.removed[k]))
    && (forall j, k :: 0 <= j < |l.handed| && 0 <= k < |l.removed| ==> l.handed[j].serial != l.removed[k])
  }

  // Every request registered waits, or was handed out, or was removed.
  predicate Lossless(l: Log) {
    forall s :: 0 <= s < |l.registered| ==> Waits(l, s) || WasHanded(l, s) || s in l.removed
  }

  lemma AsRegistered(l: Log, i: int)
    requires Filed(l) && 0 <= i < |l.ring.entries|
    ensures Alive(l.ring.entries[i]) ==> l.ring.entries[i] == l.registered[Base(l) + i]
  {
    hide Numbered;
  }

  // ---------- one step ----------

  // Entries leave from the front or become tombstones, and nothing else happens to the queue.
  predicate Shrinks(l: Log, r: Ring, n: nat) {
    && n + |r.entries| == |l.ring.entries|
    && r.last == l.ring.last
    && forall i :: 0 <= i < |r.entries| ==>
         r.entries[i] == l.ring.entries[n + i] || r.entries[i] == Tombstone(l.ring.entries[n + i])
  }

  lemma ShrinkingFiles(l: Log, l': Log, n: nat)
    requires Filed(l) && Shrinks(l, l'.ring, n) && Numbered(l'.ring) && l'.registered == l.registered
    ensures Filed(l')
    ensures forall s :: Waits(l', s) ==> Waits(l, s)
  {
    hide Numbered;
    assert Base(l') == Base(l) + n;
    forall i | 0 <= i < |l'.ring.entries|
      ensures l'.ring.entries[i] == l.registered[Base(l') + i] || l'.ring.entries[i] == Tombstone(l.registered[Base(l') + i])
    {
      assert l.ring.entries[n + i] == l.registered[Base(l) + (n + i)] ||
             l.ring.entries[n + i] == Tombstone(l.registered[Base(l) + (n + i)]);
    }
    forall s | Waits(l', s) ensures Waits(l, s) {
      var i := s - Base(l');
      assert l'.ring.entries[i] == l.ring.entries[n + i] || l'.ring.entries[i] == Tombstone(l.ring.entries[n + i]);
    }
  }

  // What a step hands out, or removes, waited before and does not wait afterwards.
  lemma SettlingKeepsOnce(l: Log, l': Log, latest: seq<Handing>, gone: seq<int>)
    requires Once(l) && Base(l) >= 0 && l'.registered == l.registered
    requires l'.handed == l.handed + latest && l'.removed == l.removed + gone
    requires forall s :: Waits(l', s) ==> Waits(l, s)
    requires forall k :: 0 <= k < |latest| ==> Waits(l, latest[k].serial) && Settled(l', latest[k])
    requires forall j, k :: 0 <= j < k < |latest| ==> latest[j].serial != latest[k].serial
    requires forall k :: 0 <= k < |gone| ==> Waits(l, gone[k]) && !Waits(l', gone[k])
    requires latest == [] || gone == []
    ensures Once(l')
  {
    forall k | 0 <= k < |l'.handed| ensures Settled(l', l'.handed[k]) {
      if k < |l.handed| {
        assert Settled(l, l.handed[k]);
      } else {
        assert l'.handed[k] == latest[k - |l.handed|];
      }
    }
    forall k | 0 <= k < |l'.removed|
      ensures 0 <= l'.removed[k] < |l'.registered| && !Waits(l', l'.removed[k])
    {
      if k < |l.removed| {
        assert l'.removed[k] == l.removed[k] && !Waits(l, l.removed[k]);
      } else {
        assert l'.removed[k] == gone[k - |l.removed|];
        assert Waits(l, gone[k - |l.removed|]);
      }
    }
  }

  lemma SearchMeetsMap(r: Ring, index: uint32)
    requires Numbered(r)
    ensures var i := Search(r.entries, index);
            index in Live(r.entries) <==> i < |r.entries| && Alive(r.entries[i])
  {
    var i := Search(r.entries, index);
    NumberedDiffer(r);
    LiveComesFrom(r.entries, index);
    if i < |r.entries| {
      LiveHolds(r.entries, i);
    }
  }

  lemma AddFiles(l: Log, ev: Event)
    requires Filed(l) && ev.Added? && |l.ring.entries| < RING
    ensures var l' := Step(l, ev);
            && Filed(l')
            && l'.handed == l.handed && l'.removed == l.removed
            && l.registered <= l'.registered
            && (forall s :: Waits(l', s) <==> Waits(l, s) || |l.registered| <= s < |l'.registered|)
  {
    var l' := Step(l, ev);
    AddKeepsNumbering(l.ring, ev.callback, ev.payload, ev.stamp);
    if ev.callback != NULL {
      assert Base(l') == Base(l);
      WrapsAround(l.ring.last, |l.registered|, 1);
      assert l'.ring.last == (|l.registered| + 1) % RING;
      assert forall s :: 0 <= s < |l.registered| ==> l'.registered[s] == l.registered[s];
      forall s ensures Waits(l', s) <==> Waits(l, s) || |l.registered| <= s < |l'.registered| {
        if Base(l) <= s < |l.registered| {
          assert l'.ring.entries[s - Base(l)] == l.ring.entries[s - Base(l)];
        }
      }
    }
  }

  lemma AddStep(l: Log, ev: Event)
    requires Filed(l) && ev.Added? && |l.ring.entries| < RING
    ensures var l' := Step(l, ev);
            && Filed(l')
            && (Once(l) ==> Once(l'))
            && (Lossless(l) ==> Lossless(l'))
  {
    hide Filed, Waits, Step;
    var l' := Step(l, ev);
    AddFiles(l, ev);
    if Once(l) {
      forall k | 0 <= k < |l'.handed| ensures Settled(l', l'.handed[k]) {
        assert Settled(l, l.handed[k]);
      }
    }
    HandedStay(l, l', []);
  }

  // What Remove or Deal does to the queue when it finds the entry at position d.
  lemma OneLeaves(l: Log, l': Log, d: nat)
    requires Filed(l) && l'.registered == l.registered && l'.ring.last == l.ring.last && Numbered(l'.ring)
    requires d < |l.ring.entries|
    requires || l'.ring.entries == Cleared(l.ring.entries, d)
             || (d == 0 && l'.ring.entries == l.ring.entries[1..])
             || (d == 0 && l'.ring.entries == Trimmed(l.ring.entries[1..]))
    ensures Filed(l')
    ensures forall s :: Waits(l', s) <==> Waits(l, s) && s != Base(l) + d
  {
    hide Numbered;
    var q, q' := l.ring.entries, l'.ring.entries;
    if q' == Cleared(q, d) {
      ShrinkingFiles(l, l', 0);
    } else if q' == q[1..] {
      ShrinkingFiles(l, l', 1);
    } else {
      var n := TrimmedDrops(q[1..]);
      ShrinkingFiles(l, l', n + 1);
      assert forall i :: 0 < i < n + 1 ==> q[i] == q[1..][i - 1];
      assert forall i :: 0 <= i < |q'| ==> q'[i] == q[n + 1 + i];
    }
  }

  // Remove, when its offset lands in the queue; and when it does not.
  lemma RemoveEffect(l: Log, ev: Event)
    requires Numbered(l.ring) && ev.Removed?
    ensures var l', q := Step(l, ev), l.ring.entries;
            if ev.index == SEQ_INDEX_NONE || q == [] || Offset(ev.index, q[0].index) >= |q| then l' == l
            else
              var d := Offset(ev.index, q[0].index);
              && l'.registered == l.registered && l'.handed == l.handed && l'.ring.last == l.ring.last
              && l'.removed == l.removed + (if ev.index in Live(q) then [Base(l) + d] else [])
              && (ev.index <= SEQ_INDEX_MASK && Alive(q[d]) <==> ev.index in Live(q))
              && (l'.ring.entries == Cleared(q, d) || (d == 0 && l'.ring.entries == q[1..]))
  {
    hide Live, Numbered;
    var q := l.ring.entries;
    SearchMeetsMap(l.ring, ev.index);
    LiveIsGiven(l.ring, ev.index);
    if q != [] && ev.index != SEQ_INDEX_NONE {
      OffsetIsSearch(l.ring, ev.index);
    }
  }

  lemma RemoveStep(l: Log, ev: Event)
    requires Filed(l) && ev.Removed?
    ensures var l' := Step(l, ev);
            && Filed(l')
            && (Once(l) ==> Once(l'))
            && (Lossless(l) && (ev.index <= SEQ_INDEX_MASK || ev.index == SEQ_INDEX_NONE) ==> Lossless(l'))
  {
    hide Numbered, Live, Offset;
    var l', q := Step(l, ev), l.ring.entries;
    NumberingKept(l.ring, NULL, Payload(0, 0, 0, 0, 0, 0), 0, ev.index, 0, 0);
    assert l'.ring == Remove(l.ring, ev.index);
    RemoveEffect(l, ev);
    hide Step, Remove;
    if ev.index != SEQ_INDEX_NONE && q != [] && Offset(ev.index, q[0].index) < |q| {
      var d := Offset(ev.index, q[0].index);
      OneLeaves(l, l', d);
      if Once(l) {
        SettlingKeepsOnce(l, l', [], if ev.index in Live(q) then [Base(l) + d] else []);
      }
      HandedStay(l, l', []);
    }
  }

  lemma AnswerStep(l: Log, ev: Event)
    requires Filed(l) && ev.Answered?
    ensures var l' := Step(l, ev);
            && Filed(l')
            && (Once(l) ==> Once(l'))
            && (Lossless(l) ==> Lossless(l'))
  {
    hide Numbered, Live, Trimmed, Offset, Search;
    var l' := Step(l, ev);
    var r, index := l.ring, ev.index;
    var d := Search(r.entries, index);
    NumberingKept(r, NULL, Payload(0, 0, 0, 0, 0, 0), 0, index, 0, 0);
    assert l'.ring == Deal(r, index).ring;
    AnswerEffect(l, ev);
    hide Step, Deal;
    if index == SEQ_INDEX_NONE || d == |r.entries| {
      assert l' == l;
    } else {
      OneLeaves(l, l', d);
      AsRegistered(l, d);
      var latest := if Alive(r.entries[d]) then [Handing(Base(l) + d, r.entries[d])] else [];
      if Once(l) {
        SettlingKeepsOnce(l, l', latest, []);
      }
      HandedStay(l, l', latest);
      assert Alive(r.entries[d]) ==> latest[0].serial == Base(l) + d;
    }
  }

  // Deal in terms of a linear search.
  lemma AnswerEffect(l: Log, ev: Event)
    requires Numbered(l.ring) && ev.Answered?
    ensures var l', q, d := Step(l, ev), l.ring.entries, Search(l.ring.entries, ev.index);
            if ev.index == SEQ_INDEX_NONE || d == |q| then l' == l
            else
              && l'.registered == l.registered && l'.removed == l.removed && l'.ring.last == l.ring.last
              && l'.handed == l.handed + (if Alive(q[d]) then [Handing(Base(l) + d, q[d])] else [])
              && (l'.ring.entries == Cleared(q, d) || (d == 0 && l'.ring.entries == Trimmed(q[1..])))
  {
    hide Numbered, Live, Trimmed;
    var q := l.ring.entries;
    if q != [] && ev.index != SEQ_INDEX_NONE {
      CountsFromFront(l.ring, 0);
      OffsetIsSearch(l.ring, ev.index);
    }
  }

  lemma HandedStay(l: Log, l': Log, latest: seq<Handing>)
    requires l'.handed == l.handed + latest
    ensures forall s :: WasHanded(l, s) ==> WasHanded(l', s)
    ensures forall k :: 0 <= k < |latest| ==> WasHanded(l', latest[k].serial)
  {
    forall s | WasHanded(l, s) ensures WasHanded(l', s) {
      var k :| 0 <= k < |l.handed| && l.handed[k].serial == s;
      assert l'.handed[k].serial == s;
    }
    forall k | 0 <= k < |latest| ensures WasHanded(l', latest[k].serial) {
      assert l'.handed[|l.handed| + k] == latest[k];
    }
  }

  // A check hands out the live entries among those it takes, each with its own serial number.
  lemma {:induction false} HandingAt(q: seq<Entry>, base: int, k: nat)
    requires k < |Handings(q, base)|
    ensures var h := Handings(q, base)[k];
            base <= h.serial < base + |q| && h.entry == q[h.serial - base] && Alive(h.entry)
    decreases |q|
  {
    if Alive(q[0]) {
      if k > 0 {
        HandingAt(q[1..], base + 1, k - 1);
      }
    } else {
      HandingAt(q[1..], base + 1, k);
    }
  }

  lemma {:induction false} HandingsAscend(q: seq<Entry>, base: int, j: nat, k: nat)
    requires j < k < |Handings(q, base)|
    ensures Handings(q, base)[j].serial < Handings(q, base)[k].serial
    decreases |q|
  {
    if !Alive(q[0]) {
      HandingsAscend(q[1..], base + 1, j, k);
    } else if j > 0 {
      HandingsAscend(q[1..], base + 1, j - 1, k - 1);
    } else {
      HandingAt(q[1..], base + 1, k - 1);
    }
  }

  lemma {:induction false} HandingsReach(q: seq<Entry>, base: int, i: nat)
    requires i < |q| && Alive(q[i])
    ensures Handing(base + i, q[i]) in Handings(q, base)
    decreases |q|
  {
    if i > 0 {
      HandingsReach(q[1..], base + 1, i - 1);
      assert Handing(base + 1 + (i - 1), q[1..][i - 1]) == Handing(base + i, q[i]);
    }
  }

  lemma {:induction false} HandingsAreExpired(q: seq<Entry>, base: int, now: int, timeout: int)
    requires forall i :: 0 <= i < |q| ==> !Alive(q[i]) || Late(q[i], now, timeout)
    ensures |Handings(q, base)| == |Expired(q, now, timeout)|
    ensures forall k :: 0 <= k < |Handings(q, base)| ==> Handings(q, base)[k].entry == Expired(q, now, timeout)[k]
  {
    if q != [] {
      HandingsAreExpired(q[1..], base + 1, now, timeout);
    }
  }

  // What the log counts as handed out by a check is what the check calls back, in order.
  lemma CheckHandsOutCalled(l: Log, now: int, timeout: int)
    ensures var l', called := Step(l, Checked(now, timeout)), Called(l.ring, now, timeout);
            && |l'.handed| == |l.handed| + |called|
            && (forall k :: 0 <= k < |l.handed| ==> l'.handed[k] == l.handed[k])
            && (forall k :: 0 <= k < |called| ==> l'.handed[|l.handed| + k].entry == called[k])
  {
    var n := Leaving(l.ring.entries, now, timeout);
    HandingsAreExpired(l.ring.entries[..n], Base(l), now, timeout);
  }

  // What a check hands out waited before and is settled afterwards, each request once.
  lemma CheckSettles(l: Log, l': Log, n: nat, k: nat)
    requires Filed(l) && n <= |l.ring.entries|
    requires l'.registered == l.registered && l'.ring.entries == l.ring.entries[n..]
    requires k < |Handings(l.ring.entries[..n], Base(l))|
    ensures var h := Handings(l.ring.entries[..n], Base(l))[k]; Waits(l, h.serial) && Settled(l', h)
  {
    hide Numbered;
    var q := l.ring.entries;
    HandingAt(q[..n], Base(l), k);
    AsRegistered(l, Handings(q[..n], Base(l))[k].serial - Base(l));
  }

  lemma CheckStep(l: Log, ev: Event)
    requires Filed(l) && ev.Checked?
    ensures var l' := Step(l, ev);
            && Filed(l')
            && (Once(l) ==> Once(l'))
            && (Lossless(l) ==> Lossless(l'))
  {
    hide Numbered, Settled, Late;
    var l' := Step(l, ev);
    var q := l.ring.entries;
    var n := Leaving(q, ev.now, ev.timeout);
    var latest := Handings(q[..n], Base(l));
    DropKeepsNumbering(l.ring, n);
    ShrinkingFiles(l, l', n);
    HandedStay(l, l', latest);
    if Once(l) {
      forall k | 0 <= k < |latest| ensures Waits(l, latest[k].serial) && Settled(l', latest[k]) {
        CheckSettles(l, l', n, k);
      }
      forall j, k | 0 <= j < k < |latest| ensures latest[j].serial != latest[k].serial {
        HandingsAscend(q[..n], Base(l), j, k);
      }
      SettlingKeepsOnce(l, l', latest, []);
    }
    if Lossless(l) {
      forall s | 0 <= s < |l.registered| ensures Waits(l', s) || WasHanded(l', s) || s in l'.removed {
        if Waits(l, s) && !Waits(l', s) {
          HandingsReach(q[..n], Base(l), s - Base(l));
        }
      }
    }
  }

  // ---------- whole runs ----------

  // Every add of the run finds fewer than 2^31 entries queued.
  predicate Fits(l: Log, evs: seq<Event>)
    decreases |evs|
  {
    evs == [] || ((evs[0].Added? ==> |l.ring.entries| < RING) && Fits(Step(l, evs[0]), evs[1..]))
  }

  function After(l: Log, evs: seq<Event>): Log
    decreases |evs|
  {
    if evs == [] then l else After(Step(l, evs[0]), evs[1..])
  }

  // Every Remove of the run names an index an add can return.
  predicate Honest(evs: seq<Event>) {
    forall k :: 0 <= k < |evs| && evs[k].Removed? ==> evs[k].index <= SEQ_INDEX_MASK || evs[k].index == SEQ_INDEX_NONE
  }

  lemma StepKeeps(l: Log, ev: Event)
    requires Filed(l) && Once(l) && (ev.Added? ==> |l.ring.entries| < RING)
    ensures Filed(Step(l, ev)) && Once(Step(l, ev))
    ensures Lossless(l) && Honest([ev]) ==> Lossless(Step(l, ev))
  {
    hide Filed, Once, Lossless, Step;
    match ev
    case Added(_, _, _) => AddStep(l, ev);
    case Removed(_) =>
      RemoveStep(l, ev);
      assert Honest([ev]) ==> [ev][0].index <= SEQ_INDEX_MASK || [ev][0].index == SEQ_INDEX_NONE;
    case Answered(_) => AnswerStep(l, ev);
    case Checked(_, _) => CheckStep(l, ev);
  }

  lemma {:induction false} RunKeeps(l: Log, evs: seq<Event>)
    requires Filed(l) && Once(l) && Fits(l, evs)
    ensures Filed(After(l, evs)) && Once(After(l, evs))
    ensures Lossless(l) && Honest(evs) ==> Lossless(After(l, evs))
    decreases |evs|
  {
    hide Filed, Once, Lossless, Step;
    if evs != [] {
      StepKeeps(l, evs[0]);
      assert Honest(evs) ==> Honest([evs[0]]) && Honest(evs[1..]);
      RunKeeps(Step(l, evs[0]), evs[1..]);
    }
  }

  // Over any interleaving of adds, removes, deals and checks, each registered request is handed out
  // with its callback at most once, exactly as it was registered and under the index its add
  // returned, and never if it was removed.
  lemma HandedOutAtMostOnce(evs: seq<Event>)
    requires Fits(EMPTY, evs)
    ensures var l := After(EMPTY, evs);
            && (forall k :: 0 <= k < |l.handed| ==>
                  var h := l.handed[k];
                  && 0 <= h.serial < |l.registered|
                  && h.entry == l.registered[h.serial]
                  && h.entry.index == (h.serial + 1) % RING
                  && h.serial !in l.removed)
            && (forall j, k :: 0 <= j < k < |l.handed| ==> l.handed[j].serial != l.handed[k].serial)
  {
    RunKeeps(EMPTY, evs);
    var l := After(EMPTY, evs);
    forall k | 0 <= k < |l.handed| ensures l.handed[k].serial !in l.removed && Settled(l, l.handed[k]) {
    }
  }

  // And no request is lost: as long as only given indexes are removed, each registered request waits
  // in the queue, or was handed out, or was removed, and only one of the three.
  lemma EachRequestHasOneFate(evs: seq<Event>, s: nat)
    requires Fits(EMPTY, evs) && Honest(evs)
    ensures var l := After(EMPTY, evs);
            s < |l.registered| ==>
              && (Waits(l, s) || WasHanded(l, s) || s in l.removed)
              && !(Waits(l, s) && WasHanded(l, s))
              && !(Waits(l, s) && s in l.removed)
              && !(WasHanded(l, s) && s in l.removed)
  {
    RunKeeps(EMPTY, evs);
    var l := After(EMPTY, evs);
    if WasHanded(l, s) {
      var k :| 0 <= k < |l.handed| && l.handed[k].serial == s;
      assert Settled(l, l.handed[k]);
    }
  }

  // In a run whose requests are registered in the order of their times, every check is exact.
  lemma ChecksMissNothing(evs: seq<Event>, now: int, timeout: int)
    requires Fits(EMPTY, evs) && InTimeOrder(After(EMPTY, evs).registered)
    ensures var r := After(EMPTY, evs).ring;
            && Called(r, now, timeout) == Expired(r.entries, now, timeout)
            && Expired(Check(r, now, timeout).entries, now, timeout) == []
  {
    RunKeeps(EMPTY, evs);
    var l := After(EMPTY, evs);
    forall i, j | 0 <= i < j < |l.ring.entries| ensures l.ring.entries[i].reqTime <= l.ring.entries[j].reqTime {
      assert l.registered[Base(l) + i].reqTime <= l.registered[Base(l) + j].reqTime;
    }
    CheckInTimeOrder(l.ring, now, timeout);
  }

  // ---------- what was passed in ----------

  // The adds of the run that registered something.
  function Registering(evs: seq<Event>): (adds: seq<Event>)
    ensures forall k :: 0 <= k < |adds| ==> adds[k].Added? && adds[k].callback != 0 && adds[k] in evs
    decreases |evs|
  {
    if evs == [] then []
    else if evs[0].Added? && evs[0].callback != 0 then [evs[0]] + Registering(evs[1..])
    else Registering(evs[1..])
  }

  lemma AddRegisters(l: Log, ev: Event)
    requires Filed(l) && (ev.Added? ==> |l.ring.entries| < RING)
    ensures var l' := Step(l, ev);
            if ev.Added? && ev.callback != 0 then
              && |l'.registered| == |l.registered| + 1
              && l'.registered[..|l.registered|] == l.registered
              && Carries(l'.registered[|l.registered|], ev.callback, ev.payload, ev.stamp, (|l.registered| + 1) % RING)
            else l'.registered == l.registered
  {
    hide Live, Search;
    if ev.Added? && ev.callback != 0 {
      WrapsAround(l.ring.last, |l.registered|, 1);
    }
  }

  // Request number s, from those a run begins with on, carries what the s-th of its adds passed in.
  lemma {:induction false} RunRegisters(l: Log, evs: seq<Event>)
    requires Filed(l) && Once(l) && Fits(l, evs)
    ensures var l', adds := After(l, evs), Registering(evs);
            && |l'.registered| == |l.registered| + |adds|
            && l'.registered[..|l.registered|] == l.registered
            && forall k :: 0 <= k < |adds| ==>
                 Carries(l'.registered[|l.registered| + k], adds[k].callback, adds[k].payload, adds[k].stamp,
                         (|l.registered| + k + 1) % RING)
    decreases |evs|
  {
    hide Filed, Once, Lossless, Step, Carries;
    if evs != [] {
      var l1 := Step(l, evs[0]);
      AddRegisters(l, evs[0]);
      StepKeeps(l, evs[0]);
      RunRegisters(l1, evs[1..]);
      var l', n := After(l, evs), |l.registered|;
      if evs[0].Added? && evs[0].callback != 0 {
        assert l'.registered[..n] == l'.registered[..n + 1][..n];
        assert l'.registered[n] == l'.registered[..n + 1][n];
      }
    }
  }

  // Whatever is handed out carries the callback, the payload and the time of the add it answers, under
  // the index that add returned.
  lemma HandedAsPassed(evs: seq<Event>, k: nat)
    requires Fits(EMPTY, evs) && k < |After(EMPTY, evs).handed|
    ensures var h, adds := After(EMPTY, evs).handed[k], Registering(evs);
            && 0 <= h.serial < |adds|
            && Carries(h.entry, adds[h.serial].callback, adds[h.serial].payload, adds[h.serial].stamp,
                       (h.serial + 1) % RING)
  {
    hide Fits, After, Carries;
    HandedOutAtMostOnce(evs);
    RunRegisters(EMPTY, evs);
  }
}
