/** Several queues share one conversation-id counter. Whatever they do, in whatever
    interleaving, no conversation id is ever in use twice, so the insertion inside
    `agent_accept` cannot fail. */
module Systems {
  import opened Types
  import opened LoadOrder
  import opened Rosters
  import opened Dispatch
  import opened Invariants
  import opened Histories
  import opened Waiting
  import opened Runs

  datatype System = System(queues: map<nat, State>, counter: nat)

  datatype Action = Open(queueId: nat) | At(queueId: nat, ev: Event)

  ghost predicate Healthy(sys: System) {
    && (forall k :: k in sys.queues ==> Invariant(sys.queues[k], sys.counter))
    && sys.counter < UINT64_LIMIT
    && (forall j, k :: j in sys.queues && k in sys.queues && j != k ==>
          sys.queues[j].convs.Keys !! sys.queues[k].convs.Keys)
  }

  /** No queue yet, and the counter as the database left it. */
  ghost function Boot(last: nat): (sys: System)
    requires last < UINT64_LIMIT
    ensures Healthy(sys)
  {
    System(map[], last)
  }

  ghost predicate Possible(sys: System, action: Action) {
    match action
    case Open(_) => true
    case At(k, ev) => k in sys.queues && Room(sys.queues[k], sys.counter, ev)
  }

  // A queue is created on the first request for it; a queue that exists is kept.
  ghost function Act(sys: System, action: Action): System
    requires Healthy(sys) && Possible(sys, action)
  {
    match action
    case Open(k) => if k in sys.queues then sys else sys.(queues := sys.queues[k := Empty(k)])
    case At(k, ev) =>
      var next := Step(sys.queues[k], sys.counter, ev);
      System(sys.queues[k := next.state], next.counter)
  }

  /** A step only drops conversations or adds the one with the id just issued. */
  lemma StepConvs(c: Config, ev: Event)
    requires Sane(c) && Room(c.state, c.counter, ev)
    ensures var next := After(c, ev);
            && (next.counter == c.counter || next.counter == c.counter + 1)
            && forall id :: id in next.state.convs ==> id in c.state.convs || id == c.counter + 1 == next.counter
  {
    hide Wf, LoadsCount, Inverse, Invite, Invitations, Insert, Erase, Answer, AddConversation, RemoveConversation, Drain;
    StepUsers(c, ev);
  }

  lemma InvariantLater(q: State, counter: nat, later: nat)
    requires Invariant(q, counter) && counter <= later < UINT64_LIMIT
    ensures Invariant(q, later)
  {
  }

  /** Any action of any queue keeps every queue's invariant and keeps their ids apart. */
  lemma ActHealthy(sys: System, action: Action)
    requires Healthy(sys) && Possible(sys, action)
    ensures Healthy(Act(sys, action))
  {
    hide Coherent, Bounded, Room;
    match action
    case Open(k) => if k !in sys.queues { EmptyInvariant(k, sys.counter); }
    case At(k, ev) => AtHealthy(sys, k, ev);
  }

  lemma EmptyInvariant(queueId: nat, counter: nat)
    requires counter < UINT64_LIMIT
    ensures Invariant(Empty(queueId), counter)
  {
  }

  lemma AtHealthy(sys: System, k: nat, ev: Event)
    requires Healthy(sys) && Possible(sys, At(k, ev))
    ensures Healthy(Act(sys, At(k, ev)))
  {
    hide Sound, Bounded, Room, Step;
    var sys' := Act(sys, At(k, ev));
    StepKeeps(sys.queues[k], sys.counter, ev);
    StepConvs(Config(sys.queues[k], sys.counter), ev);
    forall j | j in sys.queues && j != k ensures Invariant(sys'.queues[j], sys'.counter) {
      InvariantLater(sys.queues[j], sys.counter, sys'.counter);
    }
    forall i, j | i in sys'.queues && j in sys'.queues && i != j
      ensures sys'.queues[i].convs.Keys !! sys'.queues[j].convs.Keys
    {
      assert sys.queues[i].convs.Keys !! sys.queues[j].convs.Keys;
      assert Invariant(sys.queues[i], sys.counter) && Invariant(sys.queues[j], sys.counter);
    }
  }

  /** To the other queues an action is nothing, or an id taken elsewhere. */
  lemma OthersSeeElsewhere(sys: System, k: nat, ev: Event, j: nat)
    requires Healthy(sys) && Possible(sys, At(k, ev)) && j in sys.queues && j != k
    ensures var sys' := Act(sys, At(k, ev));
            && sys'.queues[j] == sys.queues[j]
            && (sys'.counter == sys.counter ||
                Next(sys'.queues[j], sys'.counter, Reply(true)) == Step(sys.queues[j], sys.counter, Elsewhere))
  {
    hide Sound, Bounded, Room, AgentPresence, AgentAbsence, AgentOffline, AgentAccept, AgentRefuse, AgentRedirect,
      UserJoin, UserDepart, ConversationEnd;
    StepKeeps(sys.queues[k], sys.counter, ev);
    StepConvs(Config(sys.queues[k], sys.counter), ev);
  }

  ghost predicate Course(sys: System, actions: seq<Action>)
    requires Healthy(sys)
    decreases |actions|
  {
    actions == [] ||
    (Possible(sys, actions[0]) && (ActHealthy(sys, actions[0]); Course(Act(sys, actions[0]), actions[1..])))
  }

  ghost function Outcome(sys: System, actions: seq<Action>): (sys': System)
    requires Healthy(sys) && Course(sys, actions)
    ensures Healthy(sys')
    decreases |actions|
  {
    if actions == [] then sys
    else (ActHealthy(sys, actions[0]); Outcome(Act(sys, actions[0]), actions[1..]))
  }

  /** In every state any number of queues can reach together, ids in use are at most the counter and
      never in use in two queues; so an acceptance succeeds exactly when its agent was invited and
      somebody waits, and the id it takes is new everywhere. */
  lemma IdsAreFreshEverywhere(last: nat, actions: seq<Action>, k: nat, id: Umid)
    requires last < UINT64_LIMIT && Course(Boot(last), actions)
    requires var sys := Outcome(Boot(last), actions);
             k in sys.queues && Room(sys.queues[k], sys.counter, Accept(id))
    ensures var sys := Outcome(Boot(last), actions);
            var q := sys.queues[k];
            && (forall j :: j in sys.queues ==> sys.counter + 1 !in sys.queues[j].convs)
            && (AgentAccept(q, sys.counter, id).reply.ok <==>
                  Find(q.roster, id) && id.uin in q.roster.inviting && q.users != [])
  {
    hide Outcome, Course, Sound, Bounded;
    var sys := Outcome(Boot(last), actions);
    AcceptSucceeds(sys.queues[k], sys.counter, id);
    forall j | j in sys.queues ensures sys.counter + 1 !in sys.queues[j].convs {
      assert Invariant(sys.queues[j], sys.counter);
    }
  }

  lemma AcceptSucceeds(q: State, counter: nat, id: Umid)
    requires Invariant(q, counter) && counter + 1 < UINT64_LIMIT
    ensures AgentAccept(q, counter, id).reply.ok <==>
              Find(q.roster, id) && id.uin in q.roster.inviting && q.users != []
  {
    hide Distinct, Listed, Covers, InLoadOrder, LoadsCount, Inverse, AddConversation, Invite, Invitations, Positions;
  }

  // ---- every queue among others runs as it would alone ----

  // One action of the system, as seen by a queue that is open.
  lemma SeenBy(sys: System, action: Action, k: nat) returns (evs: seq<Event>)
    requires Healthy(sys) && Possible(sys, action) && k in sys.queues
    ensures var sys' := Act(sys, action);
            && k in sys'.queues
            && Reaches(Config(sys.queues[k], sys.counter), evs, Config(sys'.queues[k], sys'.counter))
  {
    hide Coherent, Bounded, Step;
    var c := Config(sys.queues[k], sys.counter);
    evs := [];
    if action.At? && action.queueId == k {
      evs := [action.ev];
      ReachesNext(c, action.ev);
    } else if action.At? {
      OthersSeeElsewhere(sys, action.queueId, action.ev, k);
      ActHealthy(sys, action);
      if Act(sys, action).counter != sys.counter {
        CounterMovesOn(sys, action);
        evs := [Elsewhere];
        ReachesNext(c, Elsewhere);
      }
    }
  }

  lemma CounterMovesOn(sys: System, action: Action)
    requires Healthy(sys) && Possible(sys, action) && action.At?
    requires Act(sys, action).counter != sys.counter
    ensures sys.counter + 1 < UINT64_LIMIT
  {
    hide Coherent, Bounded, Step, Room;
    StepConvs(Config(sys.queues[action.queueId], sys.counter), action.ev);
    ActHealthy(sys, action);
  }

  lemma {:induction false} OpenQueueRuns(sys: System, actions: seq<Action>, k: nat) returns (evs: seq<Event>)
    requires Healthy(sys) && Course(sys, actions) && k in sys.queues
    ensures var sys' := Outcome(sys, actions);
            && k in sys'.queues
            && Reaches(Config(sys.queues[k], sys.counter), evs, Config(sys'.queues[k], sys'.counter))
    decreases |actions|
  {
    hide Invariant, Possible, Act, Reaches;
    if actions == [] {
      evs := [];
      ReachesHere(Config(sys.queues[k], sys.counter));
    } else {
      var sys1, sys' := Act(sys, actions[0]), Outcome(sys, actions);
      ActHealthy(sys, actions[0]);
      var first := SeenBy(sys, actions[0], k);
      var rest := OpenQueueRuns(sys1, actions[1..], k);
      evs := first + rest;
      ReachesThen(Config(sys.queues[k], sys.counter), first, Config(sys1.queues[k], sys1.counter), rest,
                  Config(sys'.queues[k], sys'.counter));
    }
  }

  lemma ReachesHere(c: Config)
    requires Sane(c)
    ensures Reaches(c, [], c)
  {
  }

  lemma OpensEmpty(sys: System, action: Action, k: nat)
    requires Healthy(sys) && Possible(sys, action) && k !in sys.queues && k in Act(sys, action).queues
    ensures Config(Act(sys, action).queues[k], Act(sys, action).counter) == Start(k, sys.counter)
  {
    hide Step;
  }

  /** Whatever several queues do together, each of them is in a state it reaches on its own, from the
      empty queue and the counter at its opening, by its own events and ids taken elsewhere. */
  lemma {:induction false} EveryQueueRuns(sys: System, actions: seq<Action>, k: nat) returns (last: nat, evs: seq<Event>)
    requires Healthy(sys) && Course(sys, actions) && k !in sys.queues && k in Outcome(sys, actions).queues
    ensures last < UINT64_LIMIT
    ensures var sys' := Outcome(sys, actions);
            Reaches(Start(k, last), evs, Config(sys'.queues[k], sys'.counter))
    decreases |actions|
  {
    hide Invariant, Possible, Reaches, Step;
    if actions != [] {
      ActHealthy(sys, actions[0]);
      if k in Act(sys, actions[0]).queues {
        last := sys.counter;
        OpensEmpty(sys, actions[0], k);
        evs := OpenQueueRuns(Act(sys, actions[0]), actions[1..], k);
      } else {
        last, evs := EveryQueueRuns(Act(sys, actions[0]), actions[1..], k);
      }
    }
  }

  /** So everything that holds in every state one queue can reach holds of every queue among others. */
  lemma EveryQueueIsGood(last: nat, actions: seq<Action>, k: nat) returns (at: nat, evs: seq<Event>)
    requires last < UINT64_LIMIT && Course(Boot(last), actions) && k in Outcome(Boot(last), actions).queues
    ensures at < UINT64_LIMIT && Roomy(Start(k, at), evs)
    ensures var sys := Outcome(Boot(last), actions);
            Good(Config(sys.queues[k], sys.counter), Record(Start(k, at), NO_HISTORY, evs))
  {
    hide Good, Outcome, Course, Healthy, Record;
    at, evs := EveryQueueRuns(Boot(last), actions, k);
    EveryReachableStateIsGood(k, at, evs);
  }
}
