/** What holds over every run of a queue: any sequence of operations, on any logins, in any
    order, interleaved with other queues taking conversation ids. */
module Runs {
  import opened Types
  import opened LoadOrder
  import opened Rosters
  import opened Dispatch
  import opened Invariants
  import opened Histories
  import opened Inviting
  import opened Refusals
  import opened Waiting
  import opened Line
  import opened Told
  import opened WorkConservation
  import opened Attendance
  import opened Changes
  import opened Effects

  /** The counters have room for every event of the run. */
  ghost predicate Roomy(c: Config, evs: seq<Event>)
    requires Sane(c)
    decreases |evs|
  {
    evs == [] || (Room(c.state, c.counter, evs[0]) && Roomy(Succ(c, evs[0]), evs[1..]))
  }

  ghost function Final(c: Config, evs: seq<Event>): (c': Config)
    requires Sane(c) && Roomy(c, evs)
    ensures Sane(c')
    decreases |evs|
  {
    if evs == [] then c else Final(Succ(c, evs[0]), evs[1..])
  }

  ghost function Record(c: Config, h: History, evs: seq<Event>): History
    requires Sane(c) && Roomy(c, evs)
    decreases |evs|
  {
    if evs == [] then h
    else Record(Succ(c, evs[0]), Track(c, h, evs[0], After(c, evs[0])), evs[1..])
  }

  /** The run from c ends in c'. */
  ghost predicate Reaches(c: Config, evs: seq<Event>, c': Config)
    requires Sane(c)
  {
    Roomy(c, evs) && Final(c, evs) == c'
  }

  lemma {:induction false} ReachesThen(c: Config, a: seq<Event>, c1: Config, b: seq<Event>, c2: Config)
    requires Sane(c) && Sane(c1) && Reaches(c, a, c1) && Reaches(c1, b, c2)
    ensures Reaches(c, a + b, c2)
    decreases |a|
  {
    hide Sane, Room, After;
    if a == [] {
      assert a + b == b;
    } else {
      assert (a + b)[0] == a[0] && (a + b)[1..] == a[1..] + b;
      ReachesThen(Succ(c, a[0]), a[1..], c1, b, c2);
    }
  }

  lemma ReachesNext(c: Config, ev: Event)
    requires Sane(c) && Room(c.state, c.counter, ev)
    ensures Reaches(c, [ev], Succ(c, ev))
  {
    hide Sane, Room, After, Succ;
    var c' := Succ(c, ev);
    assert [ev][1..] == [];
    assert Roomy(c', []) && Final(c', []) == c';
  }

  /** Everything proved of single steps, together. */
  ghost predicate Good(c: Config, h: History) {
    && Sane(c)
    && Accounted(c.state.roster, h)
    && Balanced(c.state, h)
    && InLine(c.state, h)
    && ToldTruly(c.state, h)
    && (!h.lapsed ==> Busy(c.state))
  }

  lemma StepGood(c: Config, h: History, ev: Event)
    requires Good(c, h) && Room(c.state, c.counter, ev)
    ensures Good(Succ(c, ev), Track(c, h, ev, After(c, ev)))
  {
    hide Invariant, Accounted, Balanced, ToldTruly, Busy, Step, Track, SameHolders, NewcomersOutside, NobodyLater;
    StepKeeps(c.state, c.counter, ev);
    StepAccounted(c, h, ev);
    StepBalanced(c, h, ev);
    StepInLine(c, h, ev);
    StepTold(c, h, ev);
    StepLapse(c, h, ev);
  }

  lemma StartGood(queueId: nat, last: nat)
    requires last < UINT64_LIMIT
    ensures Good(Start(queueId, last), NO_HISTORY)
  {
    assert InvitedAgents(map[]) == {};
  }

  lemma {:induction false} RunGood(c: Config, h: History, evs: seq<Event>)
    requires Good(c, h) && Roomy(c, evs)
    ensures Good(Final(c, evs), Record(c, h, evs))
    decreases |evs|
  {
    hide Sound, Bounded, Issued, Accounted, Balanced, InLine, ToldTruly, Busy, Step, Track;
    if evs != [] {
      StepGood(c, h, evs[0]);
      RunGood(Succ(c, evs[0]), Track(c, h, evs[0], After(c, evs[0])), evs[1..]);
    }
  }

  /** In every state a queue can reach: agents and conversations are exact inverses and loads
      count them, the list shows each pooled agent once and in load order, the inviting set is
      split as recorded, users are conserved, first come is first served, positions told are
      true, and the inviting set is as large as the line or nobody can be invited. */
  lemma EveryReachableStateIsGood(queueId: nat, last: nat, evs: seq<Event>)
    requires last < UINT64_LIMIT && Roomy(Start(queueId, last), evs)
    ensures Good(Final(Start(queueId, last), evs), Record(Start(queueId, last), NO_HISTORY, evs))
  {
    StartGood(queueId, last);
    RunGood(Start(queueId, last), NO_HISTORY, evs);
  }

  /** In every state a queue can reach, the list names every pooled agent once, lighter agents first and,
      at equal load, those with the larger capacity. */
  lemma AlwaysLightestFirst(queueId: nat, last: nat, evs: seq<Event>)
    requires last < UINT64_LIMIT && Roomy(Start(queueId, last), evs)
    ensures var r := Final(Start(queueId, last), evs).state.roster;
            && (forall i, j :: 0 <= i < j < |r.order| ==>
                  && r.order[i] != r.order[j] && r.order[i] in r.pool && r.order[j] in r.pool
                  && var a, b := r.pool[r.order[i]], r.pool[r.order[j]];
                     a.load < b.load || (a.load == b.load && a.capacity >= b.capacity))
            && forall u :: u in r.pool ==> exists k :: 0 <= k < |r.order| && r.order[k] == u
  {
    hide Wf, LoadsCount, Inverse, Final;
    LightestFirst(Final(Start(queueId, last), evs).state.roster);
  }

  /** In every state a queue can reach, unless a conversation ended and nobody was invited since: at
      most as many users wait without an invitation beside an agent that could be invited as there
      are accounts erased with an invitation out; without such accounts, none. */
  lemma UnattendedOnlyByLeftovers(queueId: nat, last: nat, evs: seq<Event>)
    requires last < UINT64_LIMIT && Roomy(Start(queueId, last), evs)
    requires !Record(Start(queueId, last), NO_HISTORY, evs).lapsed
    ensures var q, h := Final(Start(queueId, last), evs).state, Record(Start(queueId, last), NO_HISTORY, evs);
            && (NoneEligible(q.roster) || |q.users| <= |InvitedAgents(q.roster.pool)| + |h.leftover|)
            && (h.leftover == {} ==> Attended(q))
  {
    hide Sane, Balanced, InLine, ToldTruly, Busy, Attended, Final, Record, Roomy, Split, WithinBudget, NoneEligible;
    EveryReachableStateIsGood(queueId, last, evs);
    UnattendedWithinLeftovers(Final(Start(queueId, last), evs).state, Record(Start(queueId, last), NO_HISTORY, evs).leftover);
  }

  // ---- no agent is overloaded ----

  ghost predicate NoRedirects(evs: seq<Event>) {
    forall k :: 0 <= k < |evs| ==> !evs[k].Redirect?
  }

  ghost predicate AllCapable(evs: seq<Event>) {
    forall k :: 0 <= k < |evs| ==> evs[k].Presence? ==> evs[k].capacity > 0
  }

  ghost predicate NoneRedirected(h: History) {
    forall u :: u in h.redirected ==> h.redirected[u] == 0
  }

  lemma RecordsNoRedirectStep(c: Config, h: History, ev: Event)
    requires Sane(c) && !ev.Redirect? && (ev.Presence? ==> ev.capacity > 0)
    requires h.capable && NoneRedirected(h)
    ensures var h' := Track(c, h, ev, After(c, ev)); h'.capable && NoneRedirected(h')
  {
    hide Sound, Bounded, Issued, Step, Tell, Doubled, LeftoverAfter, Invites;
  }

  lemma {:induction false} RecordsNoRedirect(c: Config, h: History, evs: seq<Event>)
    requires Sane(c) && Roomy(c, evs) && NoRedirects(evs) && AllCapable(evs)
    requires h.capable && NoneRedirected(h)
    ensures Record(c, h, evs).capable && NoneRedirected(Record(c, h, evs))
    decreases |evs|
  {
    hide Sound, Bounded, Issued, Step, Track, NoneRedirected;
    if evs != [] {
      RecordsNoRedirectStep(c, h, evs[0]);
      RecordsNoRedirect(Succ(c, evs[0]), Track(c, h, evs[0], After(c, evs[0])), evs[1..]);
    }
  }

  /** Without redirects no agent ever exceeds its capacity, even with an invitation left over
      from an earlier registration. */
  lemma WithoutRedirectsWithinCapacity(queueId: nat, last: nat, evs: seq<Event>, u: nat)
    requires last < UINT64_LIMIT && Roomy(Start(queueId, last), evs)
    requires NoRedirects(evs) && AllCapable(evs)
    requires u in Final(Start(queueId, last), evs).state.roster.pool
    ensures var r := Final(Start(queueId, last), evs).state.roster;
            r.pool[u].load + (if u in r.inviting then 1 else 0) <= r.pool[u].capacity
  {
    hide Sound, Bounded, Issued, Balanced, InLine, ToldTruly, Busy, Step, Track, Final, Record, Roomy, Split;
    EveryReachableStateIsGood(queueId, last, evs);
    RecordsNoRedirect(Start(queueId, last), NO_HISTORY, evs);
  }

  // ---- refusals last ----

  // No step of the run takes u's agent out of the pool.
  ghost predicate NeverErased(c: Config, evs: seq<Event>, u: nat)
    requires Sane(c) && Roomy(c, evs)
    decreases |evs|
  {
    evs == [] || (!Erases(c.state, evs[0], u) && NeverErased(Succ(c, evs[0]), evs[1..], u))
  }

  // No step of the run invites u.
  ghost predicate NeverInvited(c: Config, evs: seq<Event>, u: nat)
    requires Sane(c) && Roomy(c, evs)
    decreases |evs|
  {
    evs == [] || (Spared(After(c, evs[0]).reply.invites, u) && NeverInvited(Succ(c, evs[0]), evs[1..], u))
  }

  /** An agent that refused is never invited again while it stays registered. */
  lemma {:induction false} RefusedNeverInvited(c: Config, h: History, evs: seq<Event>, u: nat)
    requires Good(c, h) && Roomy(c, evs)
    requires HasRefused(c.state.roster.pool, u) && NeverErased(c, evs, u)
    ensures NeverInvited(c, evs, u) && HasRefused(Final(c, evs).state.roster.pool, u)
    decreases |evs|
  {
    hide Sound, Bounded, Issued, Accounted, Balanced, InLine, ToldTruly, Busy, Step, Track, Erases, HasRefused, Spared;
    if evs != [] {
      StepGood(c, h, evs[0]);
      StepSpares(c, h, evs[0], u);
      RefusedNeverInvited(Succ(c, evs[0]), Track(c, h, evs[0], After(c, evs[0])), evs[1..], u);
    }
  }

  /** Whoever sends a refusal that counts is not invited by it nor by anything after it, until its agent
      is erased. */
  lemma RefuserNeverInvited(c: Config, h: History, id: Umid, evs: seq<Event>)
    requires Good(c, h) && Asked(c.state, id)
    requires Roomy(c, [Refuse(id)] + evs) && NeverErased(Succ(c, Refuse(id)), evs, id.uin)
    ensures After(c, Refuse(id)).reply.ok
    ensures NeverInvited(c, [Refuse(id)] + evs, id.uin)
  {
    hide Sound, Bounded, Issued, Accounted, Balanced, InLine, ToldTruly, Busy, Step, Track, Erases, Asked;
    var all, refuse := [Refuse(id)] + evs, Refuse(id);
    assert all[0] == refuse && all[1..] == evs;
    RefuseSettles(c, refuse);
    StepGood(c, h, refuse);
    RefusedNeverInvited(Succ(c, refuse), Track(c, h, refuse, After(c, refuse)), evs, id.uin);
  }

  // ---- first come, first served ----

  // No step of the run returns users from an offline agent.
  ghost predicate NobodyReturned(c: Config, evs: seq<Event>)
    requires Sane(c) && Roomy(c, evs)
    decreases |evs|
  {
    evs == [] || (!Returns(c.state, evs[0]) && NobodyReturned(Succ(c, evs[0]), evs[1..]))
  }

  // A ticket that is held again later was held all along.
  lemma HeldAllAlong(h: History, h1: History, h': History, t: int)
    requires Within(h.tickets, h.front, h.back) && NewcomersOutside(h, h1) && NewcomersOutside(h1, h')
    requires t in h.tickets && t in h'.tickets
    ensures t in h1.tickets
  {
  }

  lemma AdvancesTrans(q: State, h: History, q1: State, h1: History, q': State, h': History)
    requires InLine(q, h) && InLine(q1, h1) && InLine(q', h')
    requires Advances(q, h, q1, h1) && Advances(q1, h1, q', h')
    ensures Advances(q, h, q', h')
    ensures NobodyLater(h.tickets, h1.tickets) && NobodyLater(h1.tickets, h'.tickets) ==>
              NobodyLater(h.tickets, h'.tickets)
  {
    forall i, j | 0 <= i < |h.tickets| && 0 <= j < |h'.tickets| && h.tickets[i] == h'.tickets[j]
      ensures q.users[i] == q'.users[j]
      ensures NobodyLater(h.tickets, h1.tickets) && NobodyLater(h1.tickets, h'.tickets) ==> j <= i
    {
      HeldAllAlong(h, h1, h', h.tickets[i]);
      var m :| 0 <= m < |h1.tickets| && h1.tickets[m] == h.tickets[i];
      assert q1.users[m] == q.users[i] && q1.users[m] == q'.users[j];
    }
  }

  /** Over any run, whoever still waits is the same user, and newcomers stand behind or were
      returned; and if nobody is returned, nobody who still waits has moved backwards. */
  lemma {:induction false} RunInLine(c: Config, h: History, evs: seq<Event>)
    requires Good(c, h) && Roomy(c, evs)
    ensures InLine(Final(c, evs).state, Record(c, h, evs))
    ensures Advances(c.state, h, Final(c, evs).state, Record(c, h, evs))
    ensures NobodyReturned(c, evs) ==> NobodyLater(h.tickets, Record(c, h, evs).tickets)
    decreases |evs|
  {
    hide Sound, Bounded, Issued, Accounted, Balanced, ToldTruly, Busy, Step, Track, Increasing, Returns;
    if evs == [] {
      Stays(c.state.users, h.tickets);
    } else {
      var c1, h1 := Succ(c, evs[0]), Track(c, h, evs[0], After(c, evs[0]));
      StepGood(c, h, evs[0]);
      StepInLine(c, h, evs[0]);
      RunInLine(c1, h1, evs[1..]);
      AdvancesTrans(c.state, h, c1.state, h1, Final(c, evs).state, Record(c, h, evs));
    }
  }

  /** A waiting user is overtaken only by users an offline agent returned meanwhile: whoever stands
      ahead of it later either stood ahead of it before or holds a ticket from before the front. */
  lemma OvertakenOnlyByReturned(c: Config, h: History, evs: seq<Event>, i: nat, j: nat, ahead: nat)
    requires Good(c, h) && Roomy(c, evs)
    requires var h' := Record(c, h, evs);
             i < |h.tickets| && ahead < j < |h'.tickets| && h'.tickets[j] == h.tickets[i]
    ensures var t := Record(c, h, evs).tickets[ahead]; t in h.tickets[..i] || t < h.front
  {
    hide Sound, Bounded, Issued, Accounted, Balanced, ToldTruly, Busy, Step, Track, Final, Record, Roomy, SameHolders;
    RunInLine(c, h, evs);
    var t := Record(c, h, evs).tickets[ahead];
    if t in h.tickets {
      var k :| 0 <= k < |h.tickets| && h.tickets[k] == t;
      assert k < i by {
        assert t < h.tickets[i];
      }
      assert h.tickets[..i][k] == t;
    }
  }
}
