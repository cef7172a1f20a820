/** The array binary heap used by both label-setting searches, ordered by
    an injected comparison function `precedes(a, b)` read as "a comes out
    before b". */
module MinHeap {
  import opened Options

  /** The comparison must be a strict weak order: irreflexive, transitive,
      and "does not precede" must be transitive too. */
  ghost predicate StrictWeakOrder<T(!new)>(precedes: (T, T) -> bool) {
    && (forall x :: !precedes(x, x))
    && (forall x, y, z :: precedes(x, y) && precedes(y, z) ==> precedes(x, z))
    && (forall x, y, z :: !precedes(x, y) && !precedes(y, z) ==> !precedes(x, z))
  }

  function Parent(i: int): int {
    (i - 1) / 2
  }

  /** Heap order: no element precedes its parent. */
  ghost predicate HeapOrdered<T>(h: seq<T>, precedes: (T, T) -> bool) {
    forall i :: 0 < i < |h| ==> !precedes(h[i], h[Parent(i)])
  }

  /** Heap order with the edge above `index` possibly broken, while the
      children of `index` may be lifted past it to its parent. */
  ghost predicate OrderedExceptAbove<T>(h: seq<T>, precedes: (T, T) -> bool, index: int) {
    && (forall i :: 0 < i < |h| && i != index ==> !precedes(h[i], h[Parent(i)]))
    && (0 < index < |h| ==>
          forall c :: 0 < c < |h| && Parent(c) == index ==> !precedes(h[c], h[Parent(index)]))
  }

  /** Heap order with the edges below `index` possibly broken, while the
      children of `index` do not precede the parent of `index`. */
  ghost predicate OrderedExceptBelow<T>(h: seq<T>, precedes: (T, T) -> bool, index: int) {
    && (forall i :: 0 < i < |h| && Parent(i) != index ==> !precedes(h[i], h[Parent(i)]))
    && (0 < index < |h| ==>
          forall c :: 0 < c < |h| && Parent(c) == index ==> !precedes(h[c], h[Parent(index)]))
  }

  /** In a heap-ordered sequence no element precedes the root. */
  lemma {:induction false} RootIsMinimal<T(!new)>(h: seq<T>, precedes: (T, T) -> bool, k: int)
    requires StrictWeakOrder(precedes) && HeapOrdered(h, precedes)
    requires 0 <= k < |h|
    ensures !precedes(h[k], h[0])
    decreases k
  {
    if k > 0 {
      RootIsMinimal(h, precedes, Parent(k));
      assert !precedes(h[k], h[Parent(k)]);
    }
  }

  /** What `HeapifyDown`'s choice of `smallest` tells: either neither child
      precedes `index`, or the chosen child precedes it and its sibling does
      not precede the chosen child. */
  lemma ChildChoice<T(!new)>(h: seq<T>, precedes: (T, T) -> bool, index: int, afterLeft: int, smallest: int)
    requires StrictWeakOrder(precedes) && 0 <= index < |h|
    requires afterLeft == if 2 * index + 1 < |h| && precedes(h[2 * index + 1], h[index]) then 2 * index + 1 else index
    requires smallest == if 2 * index + 2 < |h| && precedes(h[2 * index + 2], h[afterLeft]) then 2 * index + 2 else afterLeft
    ensures smallest == index ==>
      && (2 * index + 1 < |h| ==> !precedes(h[2 * index + 1], h[index]))
      && (2 * index + 2 < |h| ==> !precedes(h[2 * index + 2], h[index]))
    ensures smallest != index ==>
      && (smallest == 2 * index + 1 || smallest == 2 * index + 2)
      && smallest < |h|
      && precedes(h[smallest], h[index])
      && forall o :: (o == 2 * index + 1 || o == 2 * index + 2) && o < |h| && o != smallest ==>
           !precedes(h[o], h[smallest])
  {
  }

  /** What no element of a sequence precedes, no element of its multiset
      precedes. */
  lemma NonePrecedes<T(!new)>(h: seq<T>, precedes: (T, T) -> bool, x: T)
    requires forall k :: 0 <= k < |h| ==> !precedes(h[k], x)
    ensures forall e :: e in multiset(h) ==> !precedes(e, x)
  {
    forall e | e in multiset(h)
      ensures !precedes(e, x)
    {
      assert e in h;
    }
  }

  class Heap<T(!new)> {
    const comparisonFunction: (T, T) -> bool
    var heap: seq<T>

    ghost predicate Valid()
      reads this
    {
      StrictWeakOrder(comparisonFunction) && HeapOrdered(heap, comparisonFunction)
    }

    /** Builds a heap by inserting the elements of `initArray` one by one. */
    constructor (comparison: (T, T) -> bool, initArray: seq<T>)
      requires StrictWeakOrder(comparison)
      ensures Valid() && comparisonFunction == comparison
      ensures multiset(heap) == multiset(initArray)
    {
      comparisonFunction := comparison;
      heap := [];
      new;
      var k := 0;
      while k < |initArray|
        invariant 0 <= k <= |initArray|
        invariant Valid()
        invariant multiset(heap) == multiset(initArray[..k])
      {
        Insert(initArray[k]);
        assert initArray[..k + 1] == initArray[..k] + [initArray[k]];
        k := k + 1;
      }
      assert initArray[..k] == initArray;
    }

    /** Adds `value` and restores heap order. */
    method Insert(value: T)
      requires Valid()
      modifies this
      ensures Valid()
      ensures multiset(heap) == old(multiset(heap)) + multiset{value}
      ensures |heap| == old(|heap|) + 1
    {
      heap := heap + [value];
      HeapifyUp(|heap| - 1);
    }

    /** Removes and returns an element that no remaining element precedes;
        on an empty heap (where the source raises IndexError) returns None
        and changes nothing. */
    method Extract() returns (top: Option<T>)
      requires Valid()
      modifies this
      ensures Valid()
      ensures top.None? <==> old(heap) == []
      ensures top.None? ==> heap == old(heap)
      ensures top.Some? ==> multiset(old(heap)) == multiset(heap) + multiset{top.value}
      ensures top.Some? ==> |heap| == old(|heap|) - 1
      ensures top.Some? ==> forall k :: 0 <= k < |heap| ==> !comparisonFunction(heap[k], top.value)
    {
      if |heap| == 0 {
        return None;
      }
      if |heap| == 1 {
        top := Some(heap[0]);
        assert heap == [heap[0]];
        heap := [];
        return;
      }
      ghost var before := heap;
      var topElem := heap[0];
      var last := heap[|heap| - 1];
      heap := heap[..|heap| - 1];
      assert before == heap + [last];
      heap := heap[0 := last];
      assert multiset(before) == multiset(heap) + multiset{topElem} by {
        assert before == [topElem] + before[1..|before| - 1] + [last];
        assert heap == [last] + before[1..|before| - 1];
      }
      HeapifyDown(0);
      top := Some(topElem);
      forall k | 0 <= k < |heap|
        ensures !comparisonFunction(heap[k], topElem)
      {
        assert heap[k] in multiset(before);
        var j :| 0 <= j < |before| && before[j] == heap[k];
        RootIsMinimal(before, comparisonFunction, j);
      }
    }

    /** Moves the element at `index` towards the root while it precedes its
        parent. */
    method HeapifyUp(index0: int)
      requires StrictWeakOrder(comparisonFunction)
      requires 0 <= index0 < |heap|
      requires OrderedExceptAbove(heap, comparisonFunction, index0)
      modifies this
      ensures Valid()
      ensures multiset(heap) == old(multiset(heap)) && |heap| == old(|heap|)
    {
      var index := index0;
      var prevIndex := Parent(index);
      while index > 0 && comparisonFunction(heap[index], heap[prevIndex])
        invariant 0 <= index < |heap| && prevIndex == Parent(index)
        invariant OrderedExceptAbove(heap, comparisonFunction, index)
        invariant multiset(heap) == old(multiset(heap)) && |heap| == old(|heap|)
        decreases index
      {
        SwapUp(index);
        index := prevIndex;
        prevIndex := Parent(index);
      }
    }

    /** One step of `HeapifyUp`: swap the element at `index` with its
        parent, which it precedes. */
    method SwapUp(index: int)
      requires StrictWeakOrder(comparisonFunction)
      requires 0 < index < |heap|
      requires OrderedExceptAbove(heap, comparisonFunction, index)
      requires comparisonFunction(heap[index], heap[Parent(index)])
      modifies this
      ensures OrderedExceptAbove(heap, comparisonFunction, Parent(index))
      ensures multiset(heap) == old(multiset(heap)) && |heap| == old(|heap|)
    {
      var p := Parent(index);
      ghost var h := heap;
      heap := heap[index := heap[p]][p := heap[index]];
      var less := comparisonFunction;
      forall i | 0 < i < |heap| && i != p
        ensures !less(heap[i], heap[Parent(i)])
      {
        if i == index {
          assert !less(h[p], h[index]);
        } else if Parent(i) == index {
          assert !less(h[i], h[p]);
        } else if Parent(i) == p {
          assert !less(h[i], h[p]);
          assert !less(h[i], h[index]);
        }
      }
      if 0 < p {
        forall c | 0 < c < |heap| && Parent(c) == p
          ensures !less(heap[c], heap[Parent(p)])
        {
          if c == index {
            assert !less(h[p], h[Parent(p)]);
          } else {
            assert !less(h[c], h[p]);
            assert !less(h[p], h[Parent(p)]);
          }
        }
      }
    }

    /** Moves the element at `index` towards the leaves, swapping it with the
        child that precedes the other, until neither child precedes it. */
    method HeapifyDown(index0: int)
      requires StrictWeakOrder(comparisonFunction)
      requires 0 <= index0 < |heap|
      requires OrderedExceptBelow(heap, comparisonFunction, index0)
      modifies this
      ensures Valid()
      ensures multiset(heap) == old(multiset(heap)) && |heap| == old(|heap|)
    {
      var n := |heap|;
      var index := index0;
      while true
        invariant 0 <= index < n == |heap|
        invariant OrderedExceptBelow(heap, comparisonFunction, index)
        invariant multiset(heap) == old(multiset(heap))
        decreases n - index
      {
        var leftChildIndex := 2 * index + 1;
        var rightChildIndex := 2 * index + 2;
        var smallestIndex := index;
        if leftChildIndex < n && comparisonFunction(heap[leftChildIndex], heap[smallestIndex]) {
          smallestIndex := leftChildIndex;
        }
        ghost var afterLeft := smallestIndex;
        if rightChildIndex < n && comparisonFunction(heap[rightChildIndex], heap[smallestIndex]) {
          smallestIndex := rightChildIndex;
        }
        ChildChoice(heap, comparisonFunction, index, afterLeft, smallestIndex);
        if smallestIndex == index {
          SettledIsOrdered(index);
          break;
        }
        SwapDown(index, smallestIndex);
        index := smallestIndex;
      }
    }

    /** When neither child of `index` precedes it, the only edges that could
        be out of order are in order. */
    lemma SettledIsOrdered(index: int)
      requires 0 <= index < |heap|
      requires OrderedExceptBelow(heap, comparisonFunction, index)
      requires 2 * index + 1 < |heap| ==> !comparisonFunction(heap[2 * index + 1], heap[index])
      requires 2 * index + 2 < |heap| ==> !comparisonFunction(heap[2 * index + 2], heap[index])
      ensures HeapOrdered(heap, comparisonFunction)
    {
      forall i | 0 < i < |heap| && Parent(i) == index
        ensures !comparisonFunction(heap[i], heap[Parent(i)])
      {
        assert i == 2 * index + 1 || i == 2 * index + 2;
      }
    }

    /** One step of `HeapifyDown`: swap the element at `index` with its
        child `m`, which precedes it and is not preceded by its sibling. */
    method SwapDown(index: int, m: int)
      requires StrictWeakOrder(comparisonFunction)
      requires 0 <= index < |heap|
      requires m == 2 * index + 1 || m == 2 * index + 2
      requires m < |heap|
      requires OrderedExceptBelow(heap, comparisonFunction, index)
      requires comparisonFunction(heap[m], heap[index])
      requires forall o :: (o == 2 * index + 1 || o == 2 * index + 2) && o < |heap| && o != m ==>
                 !comparisonFunction(heap[o], heap[m])
      modifies this
      ensures OrderedExceptBelow(heap, comparisonFunction, m)
      ensures multiset(heap) == old(multiset(heap)) && |heap| == old(|heap|)
    {
      ghost var h := heap;
      heap := heap[index := heap[m]][m := heap[index]];
      var less := comparisonFunction;
      assert Parent(m) == index;
      forall i | 0 < i < |heap| && Parent(i) != m
        ensures !less(heap[i], heap[Parent(i)])
      {
        if i == m {
          assert !less(h[index], h[m]);
        } else if Parent(i) == index {
          assert i == 2 * index + 1 || i == 2 * index + 2;
          assert !less(h[i], h[m]);
        } else if i == index {
          assert !less(h[m], h[Parent(index)]);
        }
      }
      forall c | 0 < c < |heap| && Parent(c) == m
        ensures !less(heap[c], heap[Parent(m)])
      {
        assert c != index && c != m;
        assert !less(h[c], h[m]);
      }
    }
  }
}
