/**
  The host's animation-frame scheduler (`requestAnimationFrame` and
  `cancelAnimationFrame`), reduced to the set of frame ids that are still
  pending. Ids are positive and never reused.
*/
module Scheduling {

  class FrameScheduler {
    /** Frames requested and neither cancelled nor run yet. */
    var pending: set<int>
    /** The id the next request receives. */
    var nextId: int

    ghost predicate Valid()
      reads this
    {
      && 1 <= nextId
      && forall id :: id in pending ==> 1 <= id < nextId
    }

    constructor ()
      ensures Valid() && pending == {} && nextId == 1
    {
      pending := {};
      nextId := 1;
    }

    /** Schedules one frame and returns its fresh id. */
    method Request() returns (id: int)
      requires Valid()
      modifies this
      ensures Valid()
      ensures id == old(nextId) && id !in old(pending) && id >= 1
      ensures pending == old(pending) + {id} && nextId == old(nextId) + 1
    {
      id := nextId;
      pending := pending + {id};
      nextId := nextId + 1;
    }

    /** Cancels a frame; an id that is not pending (such as -1) cancels nothing. */
    method Cancel(id: int)
      requires Valid()
      modifies this
      ensures Valid()
      ensures pending == old(pending) - {id} && nextId == old(nextId)
      ensures id !in old(pending) ==> pending == old(pending)
    {
      pending := pending - {id};
    }

    /** The host runs a pending frame: it stops being pending before its callback runs. */
    method Fire(id: int)
      requires Valid() && id in pending
      modifies this
      ensures Valid()
      ensures pending == old(pending) - {id} && nextId == old(nextId)
    {
      pending := pending - {id};
    }
  }
}
