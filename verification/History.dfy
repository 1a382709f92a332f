/** What a run of a queue leaves on record: who was erased with an invitation out, how often
    conversations were redirected into an agent, which users came and went, which place each
    waiting user holds in line, and what position it was last told. None of this is server
    state; it is read off the events and their replies. */
module Histories {
  import opened Types
  import opened LoadOrder
  import opened Rosters
  import opened Dispatch
  import opened Invariants

  datatype Config = Config(state: State, counter: nat)

  ghost predicate Sane(c: Config) {
    Invariant(c.state, c.counter)
  }

  /** A queue just created, when `last` is the conversation id handed out most recently. */
  function Start(queueId: nat, last: nat): (c: Config)
    requires last < UINT64_LIMIT
    ensures Sane(c)
  {
    Config(Empty(queueId), last)
  }

  function After(c: Config, ev: Event): Next
    requires Coherent(c.state)
  {
    Step(c.state, c.counter, ev)
  }

  ghost function Succ(c: Config, ev: Event): (c': Config)
    requires Sane(c) && Room(c.state, c.counter, ev)
    ensures Sane(c') && c.counter <= c'.counter
  {
    StepKeeps(c.state, c.counter, ev);
    var next := After(c, ev);
    Config(next.state, next.counter)
  }

  datatype History = History(
    leftover: set<nat>,         // accounts erased with an invitation out, not answered since
    redirected: map<nat, nat>,  // conversations handed to an agent since it registered
    capable: bool,              // no agent ever registered with capacity zero
    joined: multiset<User>,
    departed: multiset<User>,
    ended: multiset<User>,
    tickets: seq<int>,          // the place in line each waiting user holds
    front: int,                 // no ticket is below `front`; a returned user gets the next one below
    back: int,                  // every ticket is below `back`; a joining user gets it
    told: map<Umid, nat>,       // the position each login was last told
    stale: bool,                // an offline agent returned users and nobody accepted since
    doubled: bool,              // some login has waited twice at once
    lapsed: bool)               // a conversation ended and nobody was invited since

  const NO_HISTORY := History({}, map[], true, multiset{}, multiset{}, multiset{}, [], 0, 0, map[], false, false, false)

  // ---- what a step does, seen from outside ----

  /** The step runs `do_invite` before it returns. */
  predicate Invites(q: State, counter: nat, ev: Event)
    requires Coherent(q)
  {
    match ev
    case Presence(_, _, _) => After(Config(q, counter), ev).reply.ok
    case Accept(_) => After(Config(q, counter), ev).reply.ok
    case Redirect(_, _, _) => After(Config(q, counter), ev).reply.ok
    case Offline(id) => Find(q.roster, id)
    case Refuse(_) => true
    case Join(_, _) => true
    case _ => false
  }

  // The account whose agent the step takes out of the pool.
  predicate Erases(q: State, ev: Event, u: nat) {
    match ev
    case Absence(id) => id.uin == u && Find(q.roster, id) && q.roster.pool[u].load == 0
    case Offline(id) => id.uin == u && Find(q.roster, id)
    case _ => false
  }

  // The account whose outstanding invitation the step consumes.
  predicate Answers(q: State, ev: Event, u: nat) {
    match ev
    case Accept(id) => id.uin == u && Find(q.roster, id) && u in q.roster.inviting
    case Refuse(id) => id.uin == u && Find(q.roster, id) && u in q.roster.inviting
    case _ => false
  }

  predicate Returns(q: State, ev: Event) {
    match ev
    case Offline(id) => Find(q.roster, id) && q.roster.pool[id.uin].cvs != {}
    case _ => false
  }

  // ---- how each record moves on ----

  function LeftoverAfter(q: State, leftover: set<nat>, ev: Event): set<nat> {
    match ev
    case Absence(id) =>
      if Erases(q, ev, id.uin) && id.uin in q.roster.inviting then leftover + {id.uin} else leftover
    case Offline(id) =>
      if Erases(q, ev, id.uin) && id.uin in q.roster.inviting then leftover + {id.uin} else leftover
    case Accept(id) => if Answers(q, ev, id.uin) then leftover - {id.uin} else leftover
    case Refuse(id) => if Answers(q, ev, id.uin) then leftover - {id.uin} else leftover
    case _ => leftover
  }

  function Count(redirected: map<nat, nat>, u: nat): nat {
    if u in redirected then redirected[u] else 0
  }

  function RedirectedAfter(redirected: map<nat, nat>, ev: Event, ok: bool): map<nat, nat> {
    match ev
    case Presence(id, _, _) => if ok then redirected[id.uin := 0] else redirected
    case Redirect(_, _, to) => if ok then redirected[to.uin := Count(redirected, to.uin) + 1] else redirected
    case _ => redirected
  }

  // Consecutive numbers from `first` on.
  function Consecutive(first: int, n: nat): (s: seq<int>)
    ensures |s| == n && forall k :: 0 <= k < n ==> s[k] == first + k
  {
    seq(n, k => first + k)
  }

  function Tell(told: map<Umid, nat>, infos: seq<UserInfo>): map<Umid, nat>
    decreases |infos|
  {
    if infos == [] then told else Tell(told[infos[0].mid := infos[0].position], infos[1..])
  }

  predicate Doubled(users: seq<User>) {
    exists i, j :: 0 <= i < j < |users| && users[i].id == users[j].id
  }

  /** The history after the step `next` that `ev` makes from c. */
  function Track(c: Config, h: History, ev: Event, next: Next): History
    requires Coherent(c.state)
  {
    var q := c.state;
    var h0 := h.(
      leftover := LeftoverAfter(q, h.leftover, ev),
      redirected := RedirectedAfter(h.redirected, ev, next.reply.ok),
      capable := h.capable && (ev.Presence? ==> ev.capacity > 0),
      told := Tell(h.told, next.reply.told),
      stale := (h.stale || Returns(q, ev)) && !(ev.Accept? && next.reply.ok),
      doubled := h.doubled || Doubled(next.state.users),
      lapsed := (h.lapsed || ev.End?) && !Invites(q, c.counter, ev));
    match ev
    case Join(id, address) =>
      h0.(joined := h.joined + multiset{User(id, address)},
          tickets := h.tickets + [h.back], back := h.back + 1,
          told := h.told[id := next.reply.position])
    case Accept(_) =>
      if next.reply.ok && h.tickets != [] then h0.(tickets := h.tickets[1..]) else h0
    case Depart(id) =>
      var k := FirstAt(q.users, id);
      if k < |q.users| && k < |h.tickets| then
        h0.(departed := h.departed + multiset{q.users[k]}, tickets := Without(h.tickets, k))
      else h0
    case Offline(id) =>
      if Find(q.roster, id) then
        var n := |q.roster.pool[id.uin].cvs|;
        h0.(tickets := Consecutive(h.front - n, n) + h.tickets, front := h.front - n)
      else h0
    case End(cvsId) =>
      if cvsId in q.convs then h0.(ended := h.ended + multiset{q.convs[cvsId].user}) else h0
    case _ => h0
  }
}
