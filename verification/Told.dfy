/** What waiting users are told about their position, and when it is true. */
module Told {
  import opened Types
  import opened LoadOrder
  import opened Rosters
  import opened Dispatch
  import opened Invariants
  import opened Histories
  import opened Waiting

  /** Every waiting user was last told its true one-based position. */
  ghost predicate Accurate(users: seq<User>, told: map<Umid, nat>) {
    forall k :: 0 <= k < |users| ==> users[k].id in told && told[users[k].id] == k + 1
  }

  /** As long as no login waits twice, positions are true unless an agent that went offline
      returned users and no acceptance has followed. */
  ghost predicate ToldTruly(q: State, h: History) {
    && (!h.doubled ==> !Doubled(q.users))
    && (!h.doubled && !h.stale ==> Accurate(q.users, h.told))
  }

  lemma {:induction false} TellAll(told: map<Umid, nat>, infos: seq<UserInfo>)
    requires forall i, j :: 0 <= i < j < |infos| ==> infos[i].mid != infos[j].mid
    ensures forall k :: 0 <= k < |infos| ==>
              infos[k].mid in Tell(told, infos) && Tell(told, infos)[infos[k].mid] == infos[k].position
    ensures forall id :: id in told && (forall k :: 0 <= k < |infos| ==> infos[k].mid != id) ==>
              id in Tell(told, infos) && Tell(told, infos)[id] == told[id]
    decreases |infos|
  {
    if infos != [] {
      TellAll(told[infos[0].mid := infos[0].position], infos[1..]);
    }
  }

  // Telling everybody from place k on their position, the ones before having been told theirs.
  lemma TellPositions(users: seq<User>, told: map<Umid, nat>, k: nat)
    requires k <= |users| && !Doubled(users)
    requires forall j :: 0 <= j < k ==> users[j].id in told && told[users[j].id] == j + 1
    ensures Accurate(users, Tell(told, Positions(users, k)))
  {
    var infos := Positions(users, k);
    TellAll(told, infos);
    forall j | 0 <= j < |users|
      ensures users[j].id in Tell(told, infos) && Tell(told, infos)[users[j].id] == j + 1
    {
      if j >= k {
        assert infos[j - k].mid == users[j].id;
      }
    }
  }

  lemma DepartAccurate(users: seq<User>, told: map<Umid, nat>, k: nat)
    requires k < |users| && Accurate(users, told) && !Doubled(Without(users, k))
    ensures Accurate(Without(users, k), Tell(told, Positions(Without(users, k), k)))
  {
    TellPositions(Without(users, k), told, k);
  }

  lemma JoinAccurate(users: seq<User>, told: map<Umid, nat>, user: User)
    requires Accurate(users, told) && !Doubled(users + [user])
    ensures Accurate(users + [user], told[user.id := |users| + 1])
  {
    var users' := users + [user];
    forall k | 0 <= k < |users| ensures users[k].id != user.id {
      assert users'[k].id != users'[|users|].id;
    }
  }

  /** Every operation but an offline agent's return of users keeps what users were told true, and
      a successful acceptance makes it true again. */
  lemma StepTold(c: Config, h: History, ev: Event)
    requires Sane(c) && Room(c.state, c.counter, ev) && ToldTruly(c.state, h)
    ensures ToldTruly(After(c, ev).state, Track(c, h, ev, After(c, ev)))
  {
    hide Wf, LoadsCount, Inverse, Bounded, Issued, Step, Accurate, Doubled, Backwards, Positions, Tell,
      Without, LeftoverAfter, RedirectedAfter, Invites;
    var q, next := c.state, After(c, ev);
    StepUsers(c, ev);
    assert Tell(h.told, []) == h.told by { TellNothing(h.told); }
    match ev
    case Join(id, address) =>
      if !h.stale && !Doubled(next.state.users) && !h.doubled {
        JoinAccurate(q.users, h.told, User(id, address));
      }
    case Accept(_) =>
      if next.reply.ok && !Doubled(next.state.users) {
        TellPositions(next.state.users, h.told, 0);
      }
    case Depart(id) =>
      var k := FirstAt(q.users, id);
      if k < |q.users| && !h.stale && !h.doubled && !Doubled(next.state.users) {
        DepartAccurate(q.users, h.told, k);
      }
    case Offline(id) =>
      if Find(q.roster, id) && q.roster.pool[id.uin].cvs == {} {
        assert next.state.users == q.users;
      }
    case _ =>
  }

  lemma TellNothing(told: map<Umid, nat>)
    ensures Tell(told, []) == told
  {
  }
}
