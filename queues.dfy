// The bounded single-producer/single-consumer FIFO queues that connect the
// market-data callback to the distribution loop (moodycamel's
// ReaderWriterQueue), taken sequentially: a sequence of items and a fixed
// capacity.
module Queues {
  import opened Wrappers

  class BoundedQueue<T> {
    var items: seq<T>
    const capacity: nat

    ghost predicate Valid()
      reads this
    {
      |items| <= capacity
    }

    constructor (capacity: nat)
      ensures Valid() && this.capacity == capacity && items == []
    {
      this.capacity := capacity;
      items := [];
    }

    predicate HasRoom()
      reads this
    {
      |items| < capacity
    }

    /** `try_enqueue`: appends at the tail when there is room, and otherwise leaves the queue as it was. */
    method TryEnqueue(x: T) returns (ok: bool)
      requires Valid()
      modifies this
      ensures Valid()
      ensures ok <==> old(|items|) < capacity
      ensures items == if ok then old(items) + [x] else old(items)
    {
      ok := |items| < capacity;
      if ok {
        items := items + [x];
      }
    }

    /** `try_dequeue`: removes and returns the head, or reports an empty queue. */
    method TryDequeue() returns (r: Option<T>)
      requires Valid()
      modifies this
      ensures Valid()
      ensures old(items) == [] ==> r == None && items == []
      ensures old(items) != [] ==> r == Some(old(items)[0]) && items == old(items)[1..]
    {
      if items == [] {
        r := None;
      } else {
        r := Some(items[0]);
        items := items[1..];
      }
    }
  }
}
