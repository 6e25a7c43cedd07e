/** The bounded queue shared by the transaction window and the chunk snapshot hold-back. */
module Queues {
  import opened Wrappers

  /** A push is stored, refused because the queue is locked, or blocks because the channel is full. */
  datatype PushResult = Stored | Refused | Blocks

  class Queue<E> {
    const capacity: nat
    var contents: seq<E>
    var locked: bool

    ghost predicate Valid()
      reads this
    {
      |contents| <= capacity
    }

    constructor (maxSize: nat)
      ensures Valid() && capacity == maxSize
      ensures contents == [] && !locked
    {
      capacity := maxSize;
      contents := [];
      locked := false;
    }

    /** A blocked push has not happened: the caller waits for a pop that frees a slot. */
    method Push(v: E) returns (r: PushResult)
      requires Valid()
      modifies this`contents
      ensures Valid()
      ensures r == if locked then Refused else if |old(contents)| == capacity then Blocks else Stored
      ensures contents == if r.Stored? then old(contents) + [v] else old(contents)
    {
      if locked {
        return Refused;
      }
      if |contents| == capacity {
        return Blocks;
      }
      contents := contents + [v];
      return Stored;
    }

    /** The head of the queue, or nothing when it is empty; never waits. */
    method Pop() returns (v: Option<E>)
      requires Valid()
      modifies this`contents
      ensures Valid()
      ensures v.None? <==> old(contents) == []
      ensures old(contents) == if v.None? then contents else [v.value] + contents
    {
      if contents == [] {
        return None;
      }
      v := Some(contents[0]);
      contents := contents[1..];
    }

    method Lock()
      modifies this`locked
      ensures locked
    {
      locked := true;
    }
  }
}
