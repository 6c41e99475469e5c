/** `Queue<T>.drainTo(sink)` from Queues.kt, on a FIFO queue whose contents the methods update in place. */
module Queues {
  import opened Wrappers

  /** A FIFO queue (`java.util.Queue`, as `ConcurrentLinkedQueue` implements it). */
  class Queue<T> {
    var items: seq<T>

    constructor(initial: seq<T>)
      ensures items == initial
    {
      items := initial;
    }

    /** `offer`/`+=`: append at the tail. */
    method Offer(x: T)
      modifies this
      ensures items == old(items) + [x]
    {
      items := items + [x];
    }

    /** `poll`: remove and return the head, or `null` when the queue is empty. */
    method Poll() returns (r: Option<T>)
      modifies this
      ensures old(items) == [] ==> r == None && items == []
      ensures old(items) != [] ==> r == Some(old(items)[0]) && items == old(items)[1..]
    {
      if items == [] {
        r := None;
      } else {
        r := Some(items[0]);
        items := items[1..];
      }
    }

    /**
     * `drainTo(sink)`: poll until `poll` returns null, handing each element to
     * the sink. The queue ends empty and the sink has received every element
     * exactly once, head first.
     */
    method DrainTo(sink: ListSink<T>)
      modifies this, sink
      ensures items == []
      ensures sink.received == old(sink.received) + old(items)
    {
      while true
        invariant old(sink.received) + old(items) == sink.received + items
        decreases |items|
      {
        var next := Poll();
        if next.None? {
          break;
        }
        sink.Add(next.value);
      }
    }
  }

  /** A sink that appends what it receives to a list (`mutableListOf<T>()::add`). */
  class ListSink<T> {
    var received: seq<T>

    constructor()
      ensures received == []
    {
      received := [];
    }

    method Add(x: T)
      modifies this
      ensures received == old(received) + [x]
    {
      received := received + [x];
    }
  }

  /** Draining an empty queue hands the sink nothing. */
  method DrainEmpty() returns (received: seq<int>)
    ensures received == []
  {
    var q := new Queue<int>([]);
    var sink := new ListSink<int>();
    q.DrainTo(sink);
    received := sink.received;
  }

  /** Draining 1, 2, 3 hands the sink 1, 2, 3 in that order. */
  method DrainInOrder() returns (received: seq<int>)
    ensures received == [1, 2, 3]
  {
    var q := new Queue<int>([1, 2, 3]);
    var sink := new ListSink<int>();
    q.DrainTo(sink);
    received := sink.received;
  }
}
