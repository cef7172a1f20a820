/** The breadth-first search's FIFO queue: a backing list that only grows,
    a read cursor `start` and a count `end` of items ever enqueued. */
module Fifo {
  import opened Options

  class Queue<T> {
    var lst: seq<T>
    var start: int
    var end: int

    /** The cursor never passes the count, and the count is the length of
        the backing list. */
    ghost predicate Valid()
      reads this
    {
      0 <= start <= end == |lst|
    }

    /** The items enqueued and not yet dequeued, oldest first. */
    ghost function Pending(): seq<T>
      reads this
    {
      if 0 <= start <= |lst| then lst[start..] else []
    }

    constructor ()
      ensures Valid() && lst == [] && start == 0 && Pending() == []
    {
      lst := [];
      start := 0;
      end := 0;
    }

    method Enqueue(item: T)
      requires Valid()
      modifies this
      ensures Valid()
      ensures lst == old(lst) + [item] && start == old(start)
      ensures Pending() == old(Pending()) + [item]
    {
      lst := lst + [item];
      end := end + 1;
    }

    /** Returns the oldest pending item, or None exactly when nothing is
        pending (the queue is then left unchanged). */
    method Dequeue() returns (item: Option<T>)
      requires Valid()
      modifies this
      ensures Valid() && lst == old(lst)
      ensures item.None? <==> old(Pending()) == []
      ensures item.None? ==> start == old(start)
      ensures item.Some? ==> item.value == old(Pending())[0] && start == old(start) + 1
      ensures item.Some? ==> Pending() == old(Pending())[1..]
    {
      if start < end {
        item := Some(lst[start]);
        start := start + 1;
        return;
      }
      item := None;
    }

    predicate IsEmpty()
      reads this
      requires Valid()
      ensures IsEmpty() <==> Pending() == []
    {
      start >= end
    }
  }

  /** Items come out in the order they went in. */
  method FifoOrder<T>(x: T, y: T) returns (first: Option<T>, second: Option<T>, third: Option<T>)
    ensures first == Some(x) && second == Some(y) && third == None
  {
    var q := new Queue<T>();
    q.Enqueue(x);
    q.Enqueue(y);
    first := q.Dequeue();
    second := q.Dequeue();
    third := q.Dequeue();
  }
}
