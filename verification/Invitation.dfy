/** How scanning the load order one agent at a time adds up to inviting the first eligible
    agents at once. */
module InvitationScan {
  import opened LoadOrder
  import opened Rosters
  import opened Invariants

  lemma {:induction false} EligiblesSkip(order: seq<nat>, pool: map<nat, AgentRec>, inviting: set<nat>, p: nat, k: nat)
    requires Listed(order, pool) && p <= k <= |order|
    requires forall j :: p <= j < k ==> !Eligible(pool[order[j]], inviting)
    ensures Eligibles(order[..k], pool, inviting) == Eligibles(order[..p], pool, inviting)
    decreases k
  {
    if p < k {
      EligiblesSkip(order, pool, inviting, p, k - 1);
      assert order[..k][..k - 1] == order[..k - 1];
    }
  }

  lemma EligiblesNext(order: seq<nat>, pool: map<nat, AgentRec>, inviting: set<nat>, k: nat)
    requires Listed(order, pool) && k < |order| && Eligible(pool[order[k]], inviting)
    ensures Eligibles(order[..k + 1], pool, inviting) == Eligibles(order[..k], pool, inviting) + [order[k]]
  {
    assert order[..k + 1][..k] == order[..k];
  }

  lemma {:induction false} EligiblesPrefix(order: seq<nat>, pool: map<nat, AgentRec>, inviting: set<nat>, p: nat)
    requires Listed(order, pool) && p <= |order|
    ensures Eligibles(order[..p], pool, inviting) <= Eligibles(order, pool, inviting)
    decreases |order|
  {
    if p < |order| {
      assert order[..|order| - 1][..p] == order[..p];
      EligiblesPrefix(order[..|order| - 1], pool, inviting, p);
    } else {
      assert order[..p] == order;
    }
  }

  /** The roster after the given agents have been invited. */
  function Invited(r: Roster, chosen: seq<nat>): Roster {
    r.(pool := Mark(r.pool, chosen), inviting := r.inviting + ToSet(chosen))
  }

  // Inviting some agents does not make another one eligible or stop it being so.
  lemma StillEligible(r: Roster, chosen: seq<nat>, u: nat)
    requires Agrees(r) && u in r.pool && u !in chosen
    ensures Eligible(Invited(r, chosen).pool[u], Invited(r, chosen).inviting) <==> Eligible(r.pool[u], r.inviting)
  {
  }

  lemma InvitedOneMore(r: Roster, chosen: seq<nat>, u: nat)
    requires u in r.pool
    ensures Invited(r, chosen).(pool := Mark(Invited(r, chosen).pool, [u]), inviting := Invited(r, chosen).inviting + {u})
         == Invited(r, chosen + [u])
  {
    assert ToSet(chosen + [u]) == ToSet(chosen) + {u};
    assert Mark(Mark(r.pool, chosen), [u]) == Mark(r.pool, chosen + [u]);
  }

  lemma InvitedSameIds(r: Roster, chosen: seq<nat>)
    ensures Invited(r, chosen).order == r.order && Invited(r, chosen).pool.Keys == r.pool.Keys
    ensures forall u :: u in r.pool ==> Invited(r, chosen).pool[u].id == r.pool[u].id
  {
  }

  lemma IdsOneMore(pool: map<nat, AgentRec>, chosen: seq<nat>, u: nat)
    requires Listed(chosen, pool) && u in pool
    ensures Listed(chosen + [u], pool) && Ids(pool, chosen + [u]) == Ids(pool, chosen) + [pool[u].id]
  {
  }

  lemma InvitedNone(r: Roster)
    ensures Invited(r, []) == r
  {
    assert ToSet([]) == {};
    assert Mark(r.pool, []) == r.pool;
  }

  // The agents chosen so far, when the scan has come to position p.
  ghost predicate Scanned(r: Roster, chosen: seq<nat>, p: nat)
    requires Agrees(r)
  {
    p <= |r.order| && chosen == Eligibles(r.order[..p], r.pool, r.inviting)
  }

  lemma ScannedNone(r: Roster)
    requires Agrees(r)
    ensures Scanned(r, [], 0) && Listed([], r.pool) && Ids(r.pool, []) == []
  {
    assert r.order[..0] == [];
  }

  lemma ScannedCount(r: Roster, chosen: seq<nat>, p: nat)
    requires Agrees(r) && Scanned(r, chosen, p)
    ensures |Invited(r, chosen).inviting| == |r.inviting| + |chosen|
  {
    EligiblesDistinct(r.order[..p], r.pool, r.inviting);
    DistinctSize(chosen);
    forall u | u in chosen ensures u !in r.inviting {
      assert r.pool[u].id.uin == u;
    }
  }

  lemma AheadNotChosen(r: Roster, chosen: seq<nat>, p: nat, j: nat)
    requires Agrees(r) && Scanned(r, chosen, p) && p <= j < |r.order|
    ensures r.order[j] !in chosen
  {
    assert forall i :: 0 <= i < p ==> r.order[..p][i] == r.order[i];
  }

  // The scan passes over agents that cannot be invited and stops at position k.
  lemma ScanTo(r: Roster, chosen: seq<nat>, p: nat, k: nat)
    requires Agrees(r) && Scanned(r, chosen, p) && p <= k <= |r.order|
    requires forall j :: p <= j < k ==>
               !Eligible(Invited(r, chosen).pool[r.order[j]], Invited(r, chosen).inviting)
    ensures Scanned(r, chosen, k)
    ensures k < |r.order| && Eligible(Invited(r, chosen).pool[r.order[k]], Invited(r, chosen).inviting) ==>
              Scanned(r, chosen + [r.order[k]], k + 1)
  {
    hide Eligibles, Mark, ToSet, Eligible, Distinct, Covers;
    forall j | p <= j < k ensures !Eligible(r.pool[r.order[j]], r.inviting) {
      AheadNotChosen(r, chosen, p, j);
      StillEligible(r, chosen, r.order[j]);
    }
    EligiblesSkip(r.order, r.pool, r.inviting, p, k);
    if k < |r.order| {
      AheadNotChosen(r, chosen, p, k);
      StillEligible(r, chosen, r.order[k]);
      if Eligible(r.pool[r.order[k]], r.inviting) {
        EligiblesNext(r.order, r.pool, r.inviting, k);
      }
    }
  }

  /** The scan ends either with no uninvited user left or at the end of the order: it has chosen
      the first eligible agents, as many as were short. */
  lemma ScanDone(r: Roster, waiting: nat, chosen: seq<nat>, p: nat)
    requires Agrees(r) && Scanned(r, chosen, p) && |chosen| <= Shortfall(waiting, |r.inviting|)
    requires p == |r.order| || |chosen| == Shortfall(waiting, |r.inviting|)
    ensures chosen == Chosen(r, waiting) && Invited(r, chosen) == Invite(r, waiting)
  {
    hide Eligibles, Distinct, Covers, Mark, ToSet;
    EligiblesPrefix(r.order, r.pool, r.inviting, p);
    if p == |r.order| {
      assert r.order[..p] == r.order;
    }
  }
}
