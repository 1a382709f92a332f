/** The id source all queues share. */
module Sequences {
  import opened Types

  class Sequence {
    var cvsSeq: nat
    var msgSeq: nat

    constructor ()
      ensures cvsSeq == 0 && msgSeq == 0
    {
      cvsSeq, msgSeq := 0, 0;
    }

    method InitCvs(last: nat)
      modifies this`cvsSeq
      ensures cvsSeq == last
    {
      cvsSeq := last;
    }

    /** The counter moves on, wrapping at 64 bits, and hands out its new value. */
    method NextCvs() returns (id: nat)
      modifies this`cvsSeq
      ensures id == cvsSeq == (old(cvsSeq) + 1) % UINT64_LIMIT
    {
      cvsSeq := (cvsSeq + 1) % UINT64_LIMIT;
      id := cvsSeq;
    }
  }
}
