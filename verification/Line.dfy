/** First come, first served. Each waiting user holds a ticket: a joining user takes the next
    number at the back, a user returned by an offline agent the next one in front of everybody.
    Tickets never change hands, so the order of two waiting users never changes. */
module Line {
  import opened Types
  import opened LoadOrder
  import opened Rosters
  import opened Dispatch
  import opened Invariants
  import opened Histories
  import opened Waiting

  ghost predicate Increasing(tickets: seq<int>) {
    forall i, j :: 0 <= i < j < |tickets| ==> tickets[i] < tickets[j]
  }

  ghost predicate Within(tickets: seq<int>, front: int, back: int) {
    forall k :: 0 <= k < |tickets| ==> front <= tickets[k] < back
  }

  ghost predicate InLine(q: State, h: History) {
    && |h.tickets| == |q.users|
    && Increasing(h.tickets)
    && Within(h.tickets, h.front, h.back)
    && h.front <= 0 <= h.back
  }

  /** Whoever waits before and after is the same user. */
  ghost predicate SameHolders(users: seq<User>, tickets: seq<int>, users': seq<User>, tickets': seq<int>)
    requires |users| == |tickets| && |users'| == |tickets'|
  {
    forall i, j :: 0 <= i < |tickets| && 0 <= j < |tickets'| && tickets[i] == tickets'[j] ==>
      users[i] == users'[j]
  }

  /** Nobody who waits before and after has moved backwards. */
  ghost predicate NobodyLater(tickets: seq<int>, tickets': seq<int>) {
    forall i, j :: 0 <= i < |tickets| && 0 <= j < |tickets'| && tickets[i] == tickets'[j] ==> j <= i
  }

  /** Newcomers stand behind everybody who was waiting, or are users returned to the front. */
  ghost predicate NewcomersOutside(h: History, h': History) {
    && h'.front <= h.front && h.back <= h'.back
    && forall j :: 0 <= j < |h'.tickets| ==>
         h'.tickets[j] in h.tickets || h'.tickets[j] >= h.back || h'.tickets[j] < h.front
  }

  ghost predicate Advances(q: State, h: History, q': State, h': History)
    requires |h.tickets| == |q.users| && |h'.tickets| == |q'.users|
  {
    SameHolders(q.users, h.tickets, q'.users, h'.tickets) && NewcomersOutside(h, h')
  }

  // ---- the moves of a line ----

  lemma IncreasingUnique(tickets: seq<int>, i: nat, j: nat)
    requires Increasing(tickets) && i < |tickets| && j < |tickets| && tickets[i] == tickets[j]
    ensures i == j
  {
  }

  lemma Stays(users: seq<User>, tickets: seq<int>)
    requires |users| == |tickets| && Increasing(tickets)
    ensures SameHolders(users, tickets, users, tickets) && NobodyLater(tickets, tickets)
  {
    forall i, j | 0 <= i < |tickets| && 0 <= j < |tickets| && tickets[i] == tickets[j] ensures i == j {
      IncreasingUnique(tickets, i, j);
    }
  }

  lemma Leaves(users: seq<User>, tickets: seq<int>, k: nat)
    requires |users| == |tickets| && Increasing(tickets) && k < |tickets|
    ensures Increasing(Without(tickets, k))
    ensures SameHolders(users, tickets, Without(users, k), Without(tickets, k))
    ensures NobodyLater(tickets, Without(tickets, k))
  {
    var rest := Without(tickets, k);
    forall i, j | 0 <= i < |tickets| && 0 <= j < |rest| && tickets[i] == rest[j]
      ensures i == if j < k then j else j + 1
    {
      IncreasingUnique(tickets, i, if j < k then j else j + 1);
    }
  }

  lemma FirstLeaves(users: seq<User>, tickets: seq<int>)
    requires |users| == |tickets| && Increasing(tickets) && tickets != []
    ensures Increasing(tickets[1..])
    ensures SameHolders(users, tickets, users[1..], tickets[1..])
    ensures NobodyLater(tickets, tickets[1..])
    ensures forall j :: 0 <= j < |tickets[1..]| ==> tickets[1..][j] in tickets
  {
    assert Without(users, 0) == users[1..] && Without(tickets, 0) == tickets[1..];
    Leaves(users, tickets, 0);
  }

  lemma EntersBehind(users: seq<User>, tickets: seq<int>, user: User, back: int)
    requires |users| == |tickets| && Increasing(tickets) && forall k :: 0 <= k < |tickets| ==> tickets[k] < back
    ensures Increasing(tickets + [back])
    ensures SameHolders(users, tickets, users + [user], tickets + [back])
    ensures NobodyLater(tickets, tickets + [back])
  {
    var tickets' := tickets + [back];
    forall i, j | 0 <= i < |tickets| && 0 <= j < |tickets'| && tickets[i] == tickets'[j] ensures i == j {
      if j < |tickets| {
        IncreasingUnique(tickets, i, j);
      }
    }
  }

  lemma EntersAhead(users: seq<User>, tickets: seq<int>, returned: seq<User>, front: int)
    requires |users| == |tickets| && Increasing(tickets) && forall k :: 0 <= k < |tickets| ==> front <= tickets[k]
    ensures var tickets' := Consecutive(front - |returned|, |returned|) + tickets;
            && Increasing(tickets')
            && SameHolders(users, tickets, returned + users, tickets')
            && (returned == [] ==> NobodyLater(tickets, tickets'))
  {
    var n := |returned|;
    var tickets' := Consecutive(front - n, n) + tickets;
    forall i, j | 0 <= i < |tickets| && 0 <= j < |tickets'| && tickets[i] == tickets'[j] ensures j == n + i {
      if n <= j {
        IncreasingUnique(tickets, i, j - n);
      }
    }
  }

  // ---- the operations ----

  lemma JoinInLine(c: Config, h: History, ev: Event)
    requires Sane(c) && Room(c.state, c.counter, ev) && InLine(c.state, h) && ev.Join?
    ensures var q', h' := After(c, ev).state, Track(c, h, ev, After(c, ev));
            && InLine(q', h')
            && Advances(c.state, h, q', h')
            && (Returns(c.state, ev) || NobodyLater(h.tickets, h'.tickets))
  {
    hide Wf, LoadsCount, Inverse, Bounded, Issued, Step, Increasing, SameHolders, NobodyLater, Backwards, Positions,
      Consecutive, Tell, Doubled, LeftoverAfter, RedirectedAfter, Invites, Ascending;
    StepUsers(c, ev);
    var q := c.state;
    EntersBehind(q.users, h.tickets, User(ev.id, ev.address), h.back);
  }

  lemma AcceptInLine(c: Config, h: History, ev: Event)
    requires Sane(c) && Room(c.state, c.counter, ev) && InLine(c.state, h) && ev.Accept?
    ensures var q', h' := After(c, ev).state, Track(c, h, ev, After(c, ev));
            && InLine(q', h')
            && Advances(c.state, h, q', h')
            && (Returns(c.state, ev) || NobodyLater(h.tickets, h'.tickets))
  {
    hide Wf, LoadsCount, Inverse, Bounded, Issued, Step, Increasing, SameHolders, NobodyLater, Backwards, Positions,
      Consecutive, Tell, Doubled, LeftoverAfter, RedirectedAfter, Invites, Ascending;
    StepUsers(c, ev);
    var q := c.state;
    Stays(q.users, h.tickets);
    if After(c, ev).reply.ok {
      FirstLeaves(q.users, h.tickets);
    }
  }

  lemma DepartInLine(c: Config, h: History, ev: Event)
    requires Sane(c) && Room(c.state, c.counter, ev) && InLine(c.state, h) && ev.Depart?
    ensures var q', h' := After(c, ev).state, Track(c, h, ev, After(c, ev));
            && InLine(q', h')
            && Advances(c.state, h, q', h')
            && (Returns(c.state, ev) || NobodyLater(h.tickets, h'.tickets))
  {
    hide Wf, LoadsCount, Inverse, Bounded, Issued, Step, Increasing, SameHolders, NobodyLater, Backwards, Positions,
      Consecutive, Tell, Doubled, LeftoverAfter, RedirectedAfter, Invites, Ascending;
    StepUsers(c, ev);
    var q := c.state;
    Stays(q.users, h.tickets);
    if FirstAt(q.users, ev.id) < |q.users| {
      Leaves(q.users, h.tickets, FirstAt(q.users, ev.id));
    }
  }

  lemma OfflineInLine(c: Config, h: History, ev: Event)
    requires Sane(c) && Room(c.state, c.counter, ev) && InLine(c.state, h) && ev.Offline?
    ensures var q', h' := After(c, ev).state, Track(c, h, ev, After(c, ev));
            && InLine(q', h')
            && Advances(c.state, h, q', h')
            && (Returns(c.state, ev) || NobodyLater(h.tickets, h'.tickets))
  {
    hide Wf, LoadsCount, Inverse, Bounded, Issued, Step, Increasing, SameHolders, NobodyLater, Backwards, Positions,
      Consecutive, Tell, Doubled, LeftoverAfter, RedirectedAfter, Invites, Ascending;
    StepUsers(c, ev);
    var q := c.state;
    Stays(q.users, h.tickets);
    if Find(q.roster, ev.id) {
      EntersAhead(q.users, h.tickets, Backwards(q.convs, Ascending(q.roster.pool[ev.id.uin].cvs)), h.front);
    }
  }

  /** Every operation keeps the line, and only returning users ever push anybody back. */
  lemma StepInLine(c: Config, h: History, ev: Event)
    requires Sane(c) && Room(c.state, c.counter, ev) && InLine(c.state, h)
    ensures var q', h' := After(c, ev).state, Track(c, h, ev, After(c, ev));
            && InLine(q', h')
            && Advances(c.state, h, q', h')
            && (Returns(c.state, ev) || NobodyLater(h.tickets, h'.tickets))
  {
    hide Wf, LoadsCount, Inverse, Bounded, Issued, Step, Increasing, Within, SameHolders, NobodyLater, Positions,
      Tell, Doubled, LeftoverAfter, RedirectedAfter, Invites;
    match ev
    case Join(_, _) => JoinInLine(c, h, ev);
    case Accept(_) => AcceptInLine(c, h, ev);
    case Depart(_) => DepartInLine(c, h, ev);
    case Offline(_) => OfflineInLine(c, h, ev);
    case _ =>
      StepUsers(c, ev);
      Stays(c.state.users, h.tickets);
  }
}
