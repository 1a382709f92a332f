/** The pending-callback queue as the object the client holds: a deque, the index given out last and
    the timeout, updated in place. */
module CallbackQueues {
  import opened Types
  import opened Callbacks

  const DEFAULT_TIMEOUT: int := 1000

  class CallbackQueue {
    var queue: seq<Entry>
    var index: uint32
    var timeout: int

    ghost function Model(): Ring
      reads this`queue, this`index
    {
      Ring(queue, index)
    }

    ghost predicate Valid()
      reads this`queue, this`index
    {
      Numbered(Model())
    }

    constructor ()
      ensures Valid() && queue == [] && index == 0 && timeout == 1000
    {
      queue, index, timeout := [], 0, DEFAULT_TIMEOUT;
    }

    method SetTimeout(seconds: int)
      modifies this`timeout
      ensures timeout == seconds
    {
      timeout := seconds;
    }

    /** Stores a request stamped with the current time and returns its index; a request without a
        callback is refused. */
    method AddCallback(callback: nat, payload: Payload, stamp: int) returns (given: uint32)
      requires Valid() && |queue| < RING
      modifies this`queue, this`index
      ensures Valid() && Model() == Add(old(Model()), callback, payload, stamp)
      ensures given == SEQ_INDEX_NONE <==> callback == NULL
      ensures callback != NULL ==>
                && given !in old(Live(queue)) && given in Live(queue)
                && Carries(Live(queue)[given], callback, payload, stamp, given)
      ensures Live(queue) == if callback == NULL then old(Live(queue)) else
                old(Live(queue))[given := Live(queue)[given]]
    {
      AddKeepsNumbering(Model(), callback, payload, stamp);
      AddExtendsMap(Model(), callback, payload, stamp);
      if callback == NULL {
        return SEQ_INDEX_NONE;
      }
      index := Masked((index + 1) % 0x1_0000_0000);
      queue := queue + [Made(callback, payload, stamp, index)];
      given := index;
    }

    method RemoveCallback(given: uint32) returns (ok: bool)
      requires Valid()
      modifies this`queue
      ensures Valid() && Model() == Remove(old(Model()), given)
      ensures ok == old(Removes(Model(), given))
      ensures given <= SEQ_INDEX_MASK ==> Live(queue) == old(Live(queue)) - {given}
    {
      NumberingKept(Model(), NULL, Payload(0, 0, 0, 0, 0, 0), 0, given, 0, 0);
      RemoveTakesFromMap(Model(), given);
      if given == SEQ_INDEX_NONE {
        return true;
      }
      if queue == [] {
        return false;
      }
      if queue[0].index == given {
        queue := queue[1..];
      } else {
        var d := Offset(given, queue[0].index);
        if d >= |queue| {
          return false;
        }
        queue := queue[d := queue[d].(callback := NULL)];
      }
      return true;
    }

    /** The request of an index, handed to the caller to be called back. */
    method Deal(given: uint32) returns (ok: bool, info: Option<Entry>)
      requires Valid()
      modifies this`queue
      ensures Valid() && Callbacks.Deal(old(Model()), given) == Dealt(Model(), ok, info)
      ensures Live(queue) == old(Live(queue)) - {given}
      ensures info.Some? && Alive(info.value) <==> given in old(Live(queue))
      ensures given in old(Live(queue)) ==> ok && info.value == old(Live(queue))[given]
    {
      ghost var was := Model();
      NumberingKept(was, NULL, Payload(0, 0, 0, 0, 0, 0), 0, given, 0, 0);
      DealTakesFromMap(was, given);
      if given == SEQ_INDEX_NONE {
        return true, None;
      }
      if queue == [] {
        return false, None;
      }
      if queue[0].index == given {
        info := Some(queue[0]);
        queue := queue[1..];
        while queue != [] && queue[0].callback == NULL
          invariant Trimmed(queue) == Trimmed(was.entries[1..])
          decreases |queue|
        {
          queue := queue[1..];
        }
        return true, info;
      }
      var d := Offset(given, queue[0].index);
      if d < |queue| && queue[d].index == given {
        info := Some(queue[d]);
        queue := queue[d := queue[d].(callback := NULL)];
        return true, info;
      }
      return false, None;
    }

    /** Takes the requests that have waited too long off the front, and returns them for the caller
        to answer once the lock is released. */
    method CheckQueue(now: int) returns (overdue: seq<Entry>)
      requires Valid()
      modifies this`queue
      ensures Valid() && Model() == Check(old(Model()), now, timeout)
      ensures overdue == Called(old(Model()), now, timeout)
      ensures queue != [] ==> queue[0].callback != 0 && now - queue[0].reqTime <= timeout
      ensures old(LateFirst(queue, now, timeout)) ==> overdue == Expired(old(queue), now, timeout)
    {
      hide Numbered, LateFirst, Expired, Leaving;
      ghost var was := Model();
      ghost var n := 0;
      NumberingKept(was, NULL, Payload(0, 0, 0, 0, 0, 0), 0, 0, now, timeout);
      CheckIsExact(was, now, timeout);
      overdue := [];
      assert Expired(was.entries[..0], now, timeout) == [] by { NoneExpired([], now, timeout); }
      while queue != [] && (queue[0].callback == NULL || now - queue[0].reqTime > timeout)
        invariant n <= Leaving(was.entries, now, timeout) && queue == was.entries[n..]
        invariant overdue == Expired(was.entries[..n], now, timeout)
        decreases |queue|
      {
        ExpiredGrows(was.entries, n, now, timeout);
        if queue[0].callback != NULL {
          overdue := overdue + [queue[0]];
        }
        queue := queue[1..];
        n := n + 1;
      }
    }
  }
}
