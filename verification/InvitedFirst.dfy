/** Whom an operation invites, in terms of the list and the records afterwards. */
module InvitedFirst {
  import opened Types
  import opened LoadOrder
  import opened Rosters
  import opened Dispatch
  import opened Invariants
  import opened WorkConservation

  // The agent has room, is available, and has no invitation to answer.
  ghost predicate Invitable(a: AgentRec, inviting: set<nat>) {
    a.state == Available && a.load < a.capacity && a.id.uin !in inviting
  }

  ghost predicate StandsAhead(order: seq<nat>, u: nat, v: nat) {
    forall a, b :: 0 <= a < |order| && 0 <= b < |order| && order[a] == u && order[b] == v ==> a < b
  }

  /** The logins of exactly these agents, each once and in list order. */
  ghost predicate ListsLogins(roster: Roster, us: set<nat>, logins: seq<Umid>) {
    && |logins| == |us|
    && (forall k :: 0 <= k < |logins| ==>
          && logins[k].uin in us && logins[k].uin in roster.pool && logins[k] == roster.pool[logins[k].uin].id)
    && (forall u :: u in us ==> exists k :: 0 <= k < |logins| && logins[k].uin == u)
    && forall j, k :: 0 <= j < k < |logins| ==> StandsAhead(roster.order, logins[j].uin, logins[k].uin)
  }

  /** The agents `us` were invited: they had room, and as many were as users were short of an
      invitation or as there were to invite, the first in the list before all others. */
  ghost predicate FirstInvited(roster: Roster, us: set<nat>, waiting: nat) {
    && us <= roster.inviting
    && (forall u :: u in us ==>
          u in roster.pool && roster.pool[u].state == Inviting && roster.pool[u].load < roster.pool[u].capacity)
    && (us == {} || |roster.inviting| <= waiting)
    && (|roster.inviting| >= waiting || forall u :: u in roster.pool ==> !Invitable(roster.pool[u], roster.inviting))
    && (forall i, j :: 0 <= i < j < |roster.order| && roster.order[j] in us && roster.order[i] in roster.pool ==>
          !Invitable(roster.pool[roster.order[i]], roster.inviting))
  }

  /** What `do_invite` changes: the state of the agents it invites, and the inviting set. */
  ghost predicate OnlyInvites(r: Roster, r': Roster, us: set<nat>) {
    && r'.order == r.order
    && r'.inviting == r.inviting + us && us !! r.inviting
    && r'.pool.Keys == r.pool.Keys
    && (forall u :: u in us ==> u in r.pool && r.pool[u].state == Available)
    && forall u :: u in r.pool ==> r'.pool[u] == if u in us then r.pool[u].(state := AgentState.Inviting) else r.pool[u]
  }

  lemma {:induction false} EligiblesAscend(order: seq<nat>, pool: map<nat, AgentRec>, inviting: set<nat>, j: nat, k: nat, a: nat, b: nat)
    requires Listed(order, pool) && Distinct(order)
    requires j < k < |Eligibles(order, pool, inviting)| && a < |order| && b < |order|
    requires order[a] == Eligibles(order, pool, inviting)[j] && order[b] == Eligibles(order, pool, inviting)[k]
    ensures a < b
    decreases |order|
  {
    var n := |order| - 1;
    var rest := order[..n];
    var el := Eligibles(rest, pool, inviting);
    EligiblesDistinct(order, pool, inviting);
    if k < |el| {
      assert el[j] in rest && el[k] in rest by {
        assert el[j] in el && el[k] in el;
      }
      assert a < n && b < n;
      EligiblesAscend(rest, pool, inviting, j, k, a, b);
    } else {
      assert order[b] == order[n];
    }
  }

  lemma ChosenDistinct(r: Roster, waiting: nat)
    requires Agrees(r)
    ensures Distinct(Chosen(r, waiting)) && |ToSet(Chosen(r, waiting))| == |Chosen(r, waiting)|
  {
    hide Covers, Eligibles;
    EligiblesDistinct(r.order, r.pool, r.inviting);
    DistinctSize(Chosen(r, waiting));
  }

  lemma InvitationsListed(q: State)
    requires Agrees(q.roster)
    ensures ListsLogins(DoInvite(q).roster, ToSet(Chosen(q.roster, |q.users|)), Invitations(q))
  {
    hide Covers, Eligibles, Chosen;
    var r, chosen := q.roster, Chosen(q.roster, |q.users|);
    var logins := Invitations(q);
    ChosenDistinct(r, |q.users|);
    forall k | 0 <= k < |logins| ensures logins[k].uin == chosen[k] && chosen[k] in r.pool {
      assert chosen[k] in chosen;
    }
    forall j, k | 0 <= j < k < |logins| ensures StandsAhead(r.order, logins[j].uin, logins[k].uin) {
      forall a, b | 0 <= a < |r.order| && 0 <= b < |r.order| && r.order[a] == logins[j].uin && r.order[b] == logins[k].uin
        ensures a < b
      {
        ChosenAscend(r, |q.users|, j, k, a, b);
      }
    }
  }

  lemma ChosenAscend(r: Roster, waiting: nat, j: nat, k: nat, a: nat, b: nat)
    requires Agrees(r) && j < k < |Chosen(r, waiting)| && a < |r.order| && b < |r.order|
    requires r.order[a] == Chosen(r, waiting)[j] && r.order[b] == Chosen(r, waiting)[k]
    ensures a < b
  {
    hide Eligibles, Covers;
    EligiblesAscend(r.order, r.pool, r.inviting, j, k, a, b);
  }

  lemma ChosenFirst(q: State, i: nat, j: nat)
    requires Agrees(q.roster) && i < j < |q.roster.order| && q.roster.order[j] in Chosen(q.roster, |q.users|)
    ensures var r' := DoInvite(q).roster; !Invitable(r'.pool[q.roster.order[i]], r'.inviting)
  {
    hide Covers, Eligibles;
    var r, u := q.roster, q.roster.order[i];
    var el, chosen := Eligibles(r.order, r.pool, r.inviting), Chosen(r, |q.users|);
    assert r.pool[u].id.uin == u;
    if Eligible(r.pool[u], r.inviting) && u !in chosen {
      assert u in el;
      var m :| 0 <= m < |el| && el[m] == u;
      var k :| 0 <= k < |chosen| && chosen[k] == r.order[j];
      assert el[k] == r.order[j];
      ChosenPrefix(r, |q.users|, m);
      EligiblesAscend(r.order, r.pool, r.inviting, k, m, j, i);
      assert false;
    }
  }

  // Agents further on among the eligible are not chosen.
  lemma ChosenPrefix(r: Roster, waiting: nat, m: nat)
    requires Agrees(r) && m < |Eligibles(r.order, r.pool, r.inviting)|
    requires Eligibles(r.order, r.pool, r.inviting)[m] !in Chosen(r, waiting)
    ensures m >= |Chosen(r, waiting)|
  {
    hide Distinct, Listed, Covers, Eligibles;
  }

  lemma InvitesOnly(r: Roster, waiting: nat)
    requires Agrees(r)
    ensures OnlyInvites(r, Invite(r, waiting), ToSet(Chosen(r, waiting)))
  {
    hide Distinct, Covers, Eligibles, Chosen;
    ChosenCount(r, waiting);
  }

  lemma InvitesEnough(r: Roster, waiting: nat)
    requires Agrees(r)
    ensures var r' := Invite(r, waiting);
            |r'.inviting| >= waiting || forall u :: u in r'.pool ==> !Invitable(r'.pool[u], r'.inviting)
    ensures ToSet(Chosen(r, waiting)) == {} || |Invite(r, waiting).inviting| <= waiting
  {
    hide Distinct, Listed, Covers, Eligibles;
    ChosenCount(r, waiting);
    var q := State(0, seq(waiting, _ => User(Umid(0, 0), 0)), r, map[]);
    DoInviteBusy(q);
  }

  lemma InvitesRoomy(r: Roster, waiting: nat)
    requires Agrees(r)
    ensures var r', us := Invite(r, waiting), ToSet(Chosen(r, waiting));
            && us <= r'.inviting
            && forall u :: u in us ==>
                 u in r'.pool && r'.pool[u].state == AgentState.Inviting && r'.pool[u].load < r'.pool[u].capacity
  {
    hide Distinct, Covers, Eligibles, Chosen;
  }

  /** `do_invite` invites the first agents in the list that can be invited, as many as users are short
      of an invitation, reports exactly them in that order, and changes nothing else. */
  lemma DoInviteInvitesFirst(q: State)
    requires Agrees(q.roster)
    ensures var q', us := DoInvite(q), ToSet(Chosen(q.roster, |q.users|));
            && q' == q.(roster := q'.roster)
            && OnlyInvites(q.roster, q'.roster, us)
            && FirstInvited(q'.roster, us, |q.users|)
            && ListsLogins(q'.roster, us, Invitations(q))
  {
    hide Distinct, Listed, Covers, Chosen, ToSet, Mark, Invitable, OnlyInvites, ListsLogins;
    var r := q.roster;
    InvitationsListed(q);
    InvitesOnly(r, |q.users|);
    InvitesEnough(r, |q.users|);
    InvitesRoomy(r, |q.users|);
    var r', us := DoInvite(q).roster, ToSet(Chosen(r, |q.users|));
    forall i, j | 0 <= i < j < |r'.order| && r'.order[j] in us && r'.order[i] in r'.pool
      ensures !Invitable(r'.pool[r'.order[i]], r'.inviting)
    {
      InSet(Chosen(r, |q.users|), r.order[j]);
      ChosenFirst(q, i, j);
    }
  }

  lemma InSet(s: seq<nat>, u: nat)
    ensures u in ToSet(s) <==> u in s
  {
  }
}
