/** The invariant of the cheapest-fare search (label setting by fare, as in
    Dijkstra's algorithm) and the facts that make its settled costs optimal.
    A heap entry is (cost, flight index). `bestCost[v]` is the cheapest total
    fare found so far for a route ending with flight v (None: none found);
    `visited` marks the settled flights. */
module CheapestFirst {
  import opened Options
  import opened Flights
  import opened Paths
  import opened SearchFacts
  import opened MinHeap

  type Entry = (int, nat)

  /** The search's comparison: an entry with a smaller cost comes out first. */
  predicate ByFare(a: Entry, b: Entry) {
    a.0 < b.0
  }

  lemma ByFareIsStrictWeakOrder()
    ensures StrictWeakOrder(ByFare)
  {
  }

  /** The flights for which some route has been found. */
  function Reached(bestCost: seq<Option<int>>): (r: seq<bool>)
    ensures |r| == |bestCost|
    ensures forall v :: 0 <= v < |bestCost| ==> r[v] == bestCost[v].Some?
  {
    seq(|bestCost|, v requires 0 <= v < |bestCost| => bestCost[v].Some?)
  }

  /** Every entry names a reached flight and costs at least that flight's
      best cost and at least the current level. */
  ghost predicate EntriesSound(flights: seq<Flight>, entries: multiset<Entry>, bestCost: seq<Option<int>>, level: int)
    requires |bestCost| == |flights|
  {
    forall e :: e in entries ==> e.1 < |flights| && bestCost[e.1].Some? && e.0 >= bestCost[e.1].value && e.0 >= level
  }

  /** Every reached flight not yet settled waits in the heap with its best
      cost. */
  ghost predicate PendingQueued(flights: seq<Flight>, entries: multiset<Entry>, bestCost: seq<Option<int>>, visited: seq<bool>)
    requires |bestCost| == |visited| == |flights|
  {
    forall v :: 0 <= v < |flights| && bestCost[v].Some? && !visited[v] ==> (bestCost[v].value, v) in entries
  }

  /** Flights are settled in order of cost: none above the current level. */
  ghost predicate SettledBelow(flights: seq<Flight>, bestCost: seq<Option<int>>, visited: seq<bool>, level: int)
    requires |bestCost| == |visited| == |flights|
  {
    forall v :: 0 <= v < |flights| && visited[v] ==> bestCost[v].Some? && bestCost[v].value <= level
  }

  /** Links are legal; a reached flight without a link is a first leg costing
      its own fare; a linked flight costs its settled predecessor's cost plus
      its own fare; an unreached flight has no link and is not settled. */
  ghost predicate CostChain(flights: seq<Flight>, startCity: int, t1: int, t2: int,
                            prev: seq<Option<nat>>, bestCost: seq<Option<int>>, visited: seq<bool>)
    requires |bestCost| == |visited| == |flights|
  {
    && LinksConnect(flights, prev, t2)
    && forall v {:trigger prev[v]} :: 0 <= v < |flights| ==>
         && (bestCost[v].None? ==> prev[v].None? && !visited[v])
         && (bestCost[v].Some? && prev[v].None? ==>
               FirstLeg(flights[v], startCity, t1, t2) && bestCost[v].value == flights[v].fare)
         && (prev[v].Some? ==>
               && visited[prev[v].value] && bestCost[v].Some? && bestCost[prev[v].value].Some?
               && bestCost[v].value == bestCost[prev[v].value].value + flights[v].fare)
  }

  /** Every first leg has been reached at no more than its fare. */
  ghost predicate FirstLegsSeeded(flights: seq<Flight>, startCity: int, t1: int, t2: int, bestCost: seq<Option<int>>)
    requires |bestCost| == |flights|
  {
    forall v :: 0 <= v < |flights| && FirstLeg(flights[v], startCity, t1, t2) ==>
      bestCost[v].Some? && bestCost[v].value <= flights[v].fare
  }

  /** Every legal connection of `u` costs at most `u`'s cost plus its fare. */
  ghost predicate Relaxed(flights: seq<Flight>, t2: int, bestCost: seq<Option<int>>, u: nat)
    requires |bestCost| == |flights|
  {
    && u < |flights| && bestCost[u].Some?
    && forall x :: 0 <= x < |flights| && Connects(flights[u], flights[x], t2) ==>
         bestCost[x].Some? && bestCost[x].value <= bestCost[u].value + flights[x].fare
  }

  /** Every settled flight other than `except` (the one being expanded) has
      been relaxed. */
  ghost predicate SettledRelaxed(flights: seq<Flight>, t2: int, bestCost: seq<Option<int>>, visited: seq<bool>, except: int)
    requires |bestCost| == |visited| == |flights|
  {
    forall u :: 0 <= u < |flights| && visited[u] && u != except ==> Relaxed(flights, t2, bestCost, u)
  }

  /** No route ending with a settled flight is cheaper than its best cost. */
  ghost predicate SettledOptimal(flights: seq<Flight>, startCity: int, t1: int, t2: int,
                                 bestCost: seq<Option<int>>, visited: seq<bool>)
    requires |bestCost| == |visited| == |flights|
  {
    forall v, r :: 0 <= v < |flights| && visited[v] && RouteEndsAt(flights, r, v, startCity, t1, t2) ==>
      bestCost[v].Some? && bestCost[v].value <= RouteFare(flights, r)
  }

  /** Everything but `FirstLegsSeeded`, which holds only once seeding is
      over. */
  ghost predicate CoreInv(flights: seq<Flight>, startCity: int, t1: int, t2: int,
                          entries: multiset<Entry>, level: int,
                          bestCost: seq<Option<int>>, prev: seq<Option<nat>>, visited: seq<bool>, except: int) {
    && AllWellFormed(flights)
    && |bestCost| == |visited| == |prev| == |flights|
    && EntriesSound(flights, entries, bestCost, level)
    && PendingQueued(flights, entries, bestCost, visited)
    && SettledBelow(flights, bestCost, visited, level)
    && CostChain(flights, startCity, t1, t2, prev, bestCost, visited)
    && SettledRelaxed(flights, t2, bestCost, visited, except)
    && SettledOptimal(flights, startCity, t1, t2, bestCost, visited)
  }

  ghost predicate CheapInv(flights: seq<Flight>, startCity: int, t1: int, t2: int,
                           entries: multiset<Entry>, level: int,
                           bestCost: seq<Option<int>>, prev: seq<Option<nat>>, visited: seq<bool>, except: int) {
    && CoreInv(flights, startCity, t1, t2, entries, level, bestCost, prev, visited, except)
    && FirstLegsSeeded(flights, startCity, t1, t2, bestCost)
  }

  /** A route ending with an unsettled flight costs at least the best cost of
      some reached, unsettled flight. */
  lemma {:induction false} FrontierWitness(flights: seq<Flight>, startCity: int, t1: int, t2: int,
                                           bestCost: seq<Option<int>>, visited: seq<bool>, r: seq<nat>)
    returns (y: nat)
    requires AllWellFormed(flights) && |bestCost| == |visited| == |flights|
    requires FirstLegsSeeded(flights, startCity, t1, t2, bestCost)
    requires SettledRelaxed(flights, t2, bestCost, visited, -1)
    requires SettledOptimal(flights, startCity, t1, t2, bestCost, visited)
    requires IsRoute(flights, r, startCity, t1, t2) && !visited[r[|r| - 1]]
    ensures y < |flights| && bestCost[y].Some? && !visited[y] && bestCost[y].value <= RouteFare(flights, r)
    decreases |r|
  {
    var x := r[|r| - 1];
    assert RouteFare(flights, r) == RouteFare(flights, r[..|r| - 1]) + flights[x].fare;
    if |r| == 1 {
      assert r[..0] == [];
      y := x;
    } else {
      RoutePrefix(flights, r, startCity, t1, t2);
      var p := r[..|r| - 1];
      var w := r[|r| - 2];
      assert p[|p| - 1] == w;
      if visited[w] {
        assert Relaxed(flights, t2, bestCost, w);
        assert RouteEndsAt(flights, p, w, startCity, t1, t2);
        y := x;
      } else {
        y := FrontierWitness(flights, startCity, t1, t2, bestCost, visited, p);
      }
    }
  }

  /** Taking out an entry of a flight already settled changes nothing but
      the level. */
  lemma StaleStep(flights: seq<Flight>, startCity: int, t1: int, t2: int,
                  entries: multiset<Entry>, rest: multiset<Entry>, top: Entry, level: int,
                  bestCost: seq<Option<int>>, prev: seq<Option<nat>>, visited: seq<bool>)
    requires CheapInv(flights, startCity, t1, t2, entries, level, bestCost, prev, visited, -1)
    requires entries == rest + multiset{top}
    requires forall e :: e in rest ==> !ByFare(e, top)
    requires top.1 < |flights| && visited[top.1]
    ensures CheapInv(flights, startCity, t1, t2, rest, top.0, bestCost, prev, visited, -1)
  {
    assert top in entries;
    forall v | 0 <= v < |flights| && bestCost[v].Some? && !visited[v]
      ensures (bestCost[v].value, v) in rest
    {
      assert (bestCost[v].value, v) in entries;
    }
  }

  /** Taking out the first entry of an unsettled flight settles it: its
      entry's cost is its best cost, and no route ending with it is
      cheaper. */
  lemma SettleStep(flights: seq<Flight>, startCity: int, t1: int, t2: int,
                   entries: multiset<Entry>, rest: multiset<Entry>, top: Entry, level: int,
                   bestCost: seq<Option<int>>, prev: seq<Option<nat>>, visited: seq<bool>)
    requires CheapInv(flights, startCity, t1, t2, entries, level, bestCost, prev, visited, -1)
    requires entries == rest + multiset{top}
    requires forall e :: e in rest ==> !ByFare(e, top)
    requires top.1 < |flights| && !visited[top.1]
    ensures bestCost[top.1] == Some(top.0)
    ensures CheapInv(flights, startCity, t1, t2, rest, top.0, bestCost, prev, visited[top.1 := true], top.1)
  {
    SettleCost(flights, entries, rest, top, level, bestCost, visited);
    SettlePending(flights, entries, rest, top, bestCost, visited);
    SettleOptimal(flights, startCity, t1, t2, entries, rest, top, bestCost, visited);
    var visited' := visited[top.1 := true];
    assert SettledRelaxed(flights, t2, bestCost, visited', top.1) by {
      forall u | 0 <= u < |flights| && visited'[u] && u != top.1
        ensures Relaxed(flights, t2, bestCost, u)
      {
        assert visited[u];
      }
    }
    assert CostChain(flights, startCity, t1, t2, prev, bestCost, visited');
  }

  /** The entry taken out is the flight's best cost. */
  lemma SettleCost(flights: seq<Flight>, entries: multiset<Entry>, rest: multiset<Entry>, top: Entry, level: int,
                   bestCost: seq<Option<int>>, visited: seq<bool>)
    requires |bestCost| == |visited| == |flights|
    requires EntriesSound(flights, entries, bestCost, level)
    requires PendingQueued(flights, entries, bestCost, visited)
    requires SettledBelow(flights, bestCost, visited, level)
    requires entries == rest + multiset{top}
    requires forall e :: e in rest ==> !ByFare(e, top)
    requires top.1 < |flights| && !visited[top.1]
    ensures bestCost[top.1] == Some(top.0)
    ensures EntriesSound(flights, rest, bestCost, top.0)
    ensures SettledBelow(flights, bestCost, visited[top.1 := true], top.0)
  {
    var idx := top.1;
    assert top in entries;
    assert (bestCost[idx].value, idx) in entries;
    forall e | e in rest
      ensures e.1 < |flights| && bestCost[e.1].Some? && e.0 >= bestCost[e.1].value && e.0 >= top.0
    {
      assert e in entries;
    }
  }

  lemma SettlePending(flights: seq<Flight>, entries: multiset<Entry>, rest: multiset<Entry>, top: Entry,
                      bestCost: seq<Option<int>>, visited: seq<bool>)
    requires |bestCost| == |visited| == |flights|
    requires PendingQueued(flights, entries, bestCost, visited)
    requires entries == rest + multiset{top}
    requires top.1 < |flights|
    ensures PendingQueued(flights, rest, bestCost, visited[top.1 := true])
  {
    var visited' := visited[top.1 := true];
    forall v | 0 <= v < |flights| && bestCost[v].Some? && !visited'[v]
      ensures (bestCost[v].value, v) in rest
    {
      assert (bestCost[v].value, v) in entries;
    }
  }

  /** No route ending with the flight being settled is cheaper than the
      entry taken out. */
  lemma SettleOptimal(flights: seq<Flight>, startCity: int, t1: int, t2: int,
                      entries: multiset<Entry>, rest: multiset<Entry>, top: Entry,
                      bestCost: seq<Option<int>>, visited: seq<bool>)
    requires AllWellFormed(flights) && |bestCost| == |visited| == |flights|
    requires PendingQueued(flights, entries, bestCost, visited)
    requires FirstLegsSeeded(flights, startCity, t1, t2, bestCost)
    requires SettledRelaxed(flights, t2, bestCost, visited, -1)
    requires SettledOptimal(flights, startCity, t1, t2, bestCost, visited)
    requires entries == rest + multiset{top}
    requires forall e :: e in rest ==> !ByFare(e, top)
    requires top.1 < |flights| && !visited[top.1] && bestCost[top.1] == Some(top.0)
    ensures SettledOptimal(flights, startCity, t1, t2, bestCost, visited[top.1 := true])
  {
    var visited' := visited[top.1 := true];
    forall v, r | 0 <= v < |flights| && visited'[v] && RouteEndsAt(flights, r, v, startCity, t1, t2)
      ensures bestCost[v].Some? && bestCost[v].value <= RouteFare(flights, r)
    {
      if v == top.1 {
        var y := FrontierWitness(flights, startCity, t1, t2, bestCost, visited, r);
        assert (bestCost[y].value, y) in entries;
        if (bestCost[y].value, y) != top {
          assert (bestCost[y].value, y) in rest;
        }
      }
    }
  }

  /** The part of the search state the relaxation loop changes: best costs,
      links and heap entries. */
  type RelaxState = (seq<Option<int>>, seq<Option<nat>>, multiset<Entry>)

  /** The cheapest route found so far: a settled flight landing in `endCity`
      whose best cost no other such settled flight undercuts. */
  ghost predicate WinnerInv(flights: seq<Flight>, endCity: int, bestCost: seq<Option<int>>, visited: seq<bool>,
                            best: Option<nat>, cheapest: int)
    requires |bestCost| == |visited| == |flights|
  {
    && (best.Some? ==>
          best.value < |flights| && visited[best.value] && flights[best.value].endCity == endCity
          && bestCost[best.value] == Some(cheapest))
    && forall v :: 0 <= v < |flights| && visited[v] && flights[v].endCity == endCity ==>
         best.Some? && bestCost[v].Some? && cheapest <= bestCost[v].value
  }

  /** The walk back from a reached flight costs its best cost. */
  lemma {:induction false} WalkFare(flights: seq<Flight>, startCity: int, t1: int, t2: int,
                                    prev: seq<Option<nat>>, bestCost: seq<Option<int>>, visited: seq<bool>, v: nat)
    requires AllWellFormed(flights) && |bestCost| == |visited| == |flights|
    requires CostChain(flights, startCity, t1, t2, prev, bestCost, visited)
    requires v < |flights| && bestCost[v].Some?
    ensures PrevRanked(prev, Arrivals(flights))
    ensures Indices(flights, Walk(prev, Arrivals(flights), v))
    ensures RouteFare(flights, Walk(prev, Arrivals(flights), v)) == bestCost[v].value
    decreases flights[v].arrivalTime
  {
    LinksRanked(flights, prev, t2);
    var rank := Arrivals(flights);
    var w := Walk(prev, rank, v);
    match prev[v]
    case None =>
      assert w == [v];
      assert w[..0] == [];
    case Some(u) =>
      WalkFare(flights, startCity, t1, t2, prev, bestCost, visited, u);
      assert w == Walk(prev, rank, u) + [v];
      assert w[..|w| - 1] == Walk(prev, rank, u);
  }

  /** Links from reached flights stay among reached flights and end at first
      legs. */
  lemma ChainRooted(flights: seq<Flight>, startCity: int, t1: int, t2: int,
                    prev: seq<Option<nat>>, bestCost: seq<Option<int>>, visited: seq<bool>, level: int)
    requires |bestCost| == |visited| == |prev| == |flights|
    requires CostChain(flights, startCity, t1, t2, prev, bestCost, visited)
    requires SettledBelow(flights, bestCost, visited, level)
    ensures RootedInFirstLegs(flights, prev, Reached(bestCost), startCity, t1, t2)
  {
  }

  /** When the heap is empty every route is accounted for: the winner's walk
      is a route to `endCity` costing no more than any other. */
  lemma SearchOutcome(flights: seq<Flight>, startCity: int, endCity: int, t1: int, t2: int,
                      entries: multiset<Entry>, level: int,
                      bestCost: seq<Option<int>>, prev: seq<Option<nat>>, visited: seq<bool>,
                      best: Option<nat>, cheapest: int)
    requires CheapInv(flights, startCity, t1, t2, entries, level, bestCost, prev, visited, -1) && entries == multiset{}
    requires WinnerInv(flights, endCity, bestCost, visited, best, cheapest)
    ensures PrevRanked(prev, Arrivals(flights))
    ensures best.Some? ==>
              best.value < |flights| && RouteTo(flights, Walk(prev, Arrivals(flights), best.value), startCity, endCity, t1, t2)
    ensures best.Some? ==> RouteFare(flights, Walk(prev, Arrivals(flights), best.value)) == cheapest
    ensures forall r :: RouteTo(flights, r, startCity, endCity, t1, t2) ==>
              best.Some? && RouteFare(flights, Walk(prev, Arrivals(flights), best.value)) <= RouteFare(flights, r)
  {
    LinksRanked(flights, prev, t2);
    ChainRooted(flights, startCity, t1, t2, prev, bestCost, visited, level);
    if best.Some? {
      WalkIsRoute(flights, prev, Reached(bestCost), startCity, t1, t2, best.value);
      WalkFare(flights, startCity, t1, t2, prev, bestCost, visited, best.value);
    }
    forall r | RouteTo(flights, r, startCity, endCity, t1, t2)
      ensures best.Some? && RouteFare(flights, Walk(prev, Arrivals(flights), best.value)) <= RouteFare(flights, r)
    {
      var x := r[|r| - 1];
      if !visited[x] {
        var y := FrontierWitness(flights, startCity, t1, t2, bestCost, visited, r);
        assert false;
      }
      assert RouteEndsAt(flights, r, x, startCity, t1, t2);
    }
  }

  /** The seeding loop's invariant after the first `k` flights leaving
      `startCity`: the reached flights are exactly the first legs met so
      far, each at its own fare and queued with it. */
  ghost predicate SeedInv(flights: seq<Flight>, startCity: int, t1: int, t2: int, seeds: seq<nat>, k: int,
                          entries: multiset<Entry>, bestCost: seq<Option<int>>) {
    && AllWellFormed(flights) && |bestCost| == |flights|
    && seeds == Departing(flights, startCity) && 0 <= k <= |seeds|
    && (forall e :: e in entries ==> e.1 < |flights| && bestCost[e.1] == Some(e.0))
    && (forall v :: 0 <= v < |flights| && bestCost[v].Some? ==>
          FirstLeg(flights[v], startCity, t1, t2) && bestCost[v].value == flights[v].fare
          && (bestCost[v].value, v) in entries)
    && (forall v :: 0 <= v < |flights| && v in seeds[..k] && FirstLeg(flights[v], startCity, t1, t2) ==>
          bestCost[v].Some?)
  }

  lemma SeedStart(flights: seq<Flight>, startCity: int, t1: int, t2: int, seeds: seq<nat>, bestCost: seq<Option<int>>)
    requires AllWellFormed(flights) && seeds == Departing(flights, startCity)
    requires |bestCost| == |flights| && forall v :: 0 <= v < |flights| ==> bestCost[v].None?
    ensures SeedInv(flights, startCity, t1, t2, seeds, 0, multiset{}, bestCost)
  {
  }

  lemma SeedSkip(flights: seq<Flight>, startCity: int, t1: int, t2: int, seeds: seq<nat>, k: int,
                 entries: multiset<Entry>, bestCost: seq<Option<int>>)
    requires SeedInv(flights, startCity, t1, t2, seeds, k, entries, bestCost)
    requires k < |seeds| && seeds[k] < |flights| && !FirstLeg(flights[seeds[k]], startCity, t1, t2)
    ensures SeedInv(flights, startCity, t1, t2, seeds, k + 1, entries, bestCost)
  {
    assert seeds[..k + 1] == seeds[..k] + [seeds[k]];
  }

  lemma SeedTake(flights: seq<Flight>, startCity: int, t1: int, t2: int, seeds: seq<nat>, k: int,
                 entries: multiset<Entry>, bestCost: seq<Option<int>>)
    requires SeedInv(flights, startCity, t1, t2, seeds, k, entries, bestCost)
    requires k < |seeds| && seeds[k] < |flights| && FirstLeg(flights[seeds[k]], startCity, t1, t2)
    ensures SeedInv(flights, startCity, t1, t2, seeds, k + 1, entries + multiset{(flights[seeds[k]].fare, seeds[k])},
                    bestCost[seeds[k] := Some(flights[seeds[k]].fare)])
  {
    assert seeds[..k + 1] == seeds[..k] + [seeds[k]];
  }

  /** Once every flight leaving `startCity` is seen, the search invariant
      holds at level 0 with nothing settled and no links. */
  lemma SeedFinish(flights: seq<Flight>, startCity: int, t1: int, t2: int, seeds: seq<nat>,
                   entries: multiset<Entry>, bestCost: seq<Option<int>>, prev: seq<Option<nat>>, visited: seq<bool>)
    requires SeedInv(flights, startCity, t1, t2, seeds, |seeds|, entries, bestCost)
    requires |prev| == |visited| == |flights|
    requires forall v :: 0 <= v < |flights| ==> prev[v].None? && !visited[v]
    ensures CheapInv(flights, startCity, t1, t2, entries, 0, bestCost, prev, visited, -1)
  {
    assert seeds[..|seeds|] == seeds;
    forall v | 0 <= v < |flights| && FirstLeg(flights[v], startCity, t1, t2)
      ensures bestCost[v].Some? && bestCost[v].value <= flights[v].fare
    {
      DepartingMembers(flights, startCity, |flights|, v);
    }
    forall e | e in entries
      ensures e.1 < |flights| && bestCost[e.1].Some? && e.0 >= bestCost[e.1].value && e.0 >= 0
    {
      assert WellFormed(flights[e.1]);
    }
  }

  /** The seeding loop: every flight leaving `startCity` inside the window is
      reached at its own fare and queued. */
  method SeedHeap(flights: seq<Flight>, startCity: int, t1: int, t2: int, seeds: seq<nat>,
                  minheap: Heap<Entry>, bestCost: array<Option<int>>, prev: array<Option<nat>>, visited: array<bool>)
    requires AllWellFormed(flights) && seeds == Departing(flights, startCity)
    requires minheap.Valid() && minheap.comparisonFunction == ByFare && minheap.heap == []
    requires bestCost.Length == prev.Length == visited.Length == |flights|
    requires forall v :: 0 <= v < |flights| ==> bestCost[v].None? && prev[v].None? && !visited[v]
    modifies minheap, bestCost
    ensures minheap.Valid()
    ensures CheapInv(flights, startCity, t1, t2, multiset(minheap.heap), 0, bestCost[..], prev[..], visited[..], -1)
  {
    var n := |flights|;
    SeedStart(flights, startCity, t1, t2, seeds, bestCost[..]);
    ghost var bc, entries := bestCost[..], multiset(minheap.heap);
    for k := 0 to |seeds|
      invariant minheap.Valid() && minheap.comparisonFunction == ByFare
      invariant bestCost[..] == bc && multiset(minheap.heap) == entries
      invariant SeedInv(flights, startCity, t1, t2, seeds, k, entries, bc)
    {
      var i := seeds[k];
      DepartingMembers(flights, startCity, n, i);
      var flight := flights[i];
      if t1 <= flight.departureTime && flight.arrivalTime <= t2 {
        SeedTake(flights, startCity, t1, t2, seeds, k, entries, bc);
        minheap.Insert((flight.fare, i));
        bestCost[i] := Some(flight.fare);
        bc, entries := bc[i := Some(flight.fare)], entries + multiset{(flight.fare, i)};
      } else {
        SeedSkip(flights, startCity, t1, t2, seeds, k, entries, bc);
      }
    }
    SeedFinish(flights, startCity, t1, t2, seeds, entries, bc, prev[..], visited[..]);
  }

  /** Settling `idx` at `cost` and letting it compete keeps the winner the
      cheapest settled flight landing in `endCity`. */
  lemma WinnerStep(flights: seq<Flight>, endCity: int, bestCost: seq<Option<int>>, visited: seq<bool>,
                   best: Option<nat>, cheapest: int, idx: nat, cost: int, best': Option<nat>, cheapest': int)
    requires |bestCost| == |visited| == |flights| && idx < |flights| && bestCost[idx] == Some(cost)
    requires WinnerInv(flights, endCity, bestCost, visited, best, cheapest)
    requires if flights[idx].endCity == endCity && (best.None? || cost < cheapest)
             then best' == Some(idx) && cheapest' == cost
             else best' == best && cheapest' == cheapest
    ensures WinnerInv(flights, endCity, bestCost, visited[idx := true], best', cheapest')
  {
  }

  /** Relaxation changes best costs of unsettled flights only, so the winner
      stands. */
  lemma WinnerKeep(flights: seq<Flight>, endCity: int, bestCost: seq<Option<int>>, bestCost': seq<Option<int>>,
                   visited: seq<bool>, best: Option<nat>, cheapest: int)
    requires |bestCost| == |bestCost'| == |visited| == |flights|
    requires forall v :: 0 <= v < |flights| && visited[v] ==> bestCost'[v] == bestCost[v]
    requires WinnerInv(flights, endCity, bestCost, visited, best, cheapest)
    ensures WinnerInv(flights, endCity, bestCost', visited, best, cheapest)
  {
  }

  /** One pass of the relaxation loop's body for flight `j`: if `j` connects
      from the settled flight `idx` (reached at `cost`) and becomes cheaper
      through it, it gets the lower cost, a link to `idx` and a new heap
      entry. */
  function RelaxOne(flights: seq<Flight>, t2: int, idx: nat, cost: int, j: nat, s: RelaxState): (s': RelaxState)
    requires idx < |flights| && j < |flights| && |s.0| == |s.1| == |flights|
    ensures |s'.0| == |s'.1| == |flights|
  {
    var newCost := cost + flights[j].fare;
    if Connects(flights[idx], flights[j], t2) && (s.0[j].None? || newCost < s.0[j].value)
    then (s.0[j := Some(newCost)], s.1[j := Some(idx)], s.2 + multiset{(newCost, j)})
    else s
  }

  /** The state after the loop has seen the flights of `succ` from position
      `k` on, starting in state `s`. */
  function RelaxFrom(flights: seq<Flight>, t2: int, idx: nat, cost: int, succ: seq<nat>, k: nat, s: RelaxState)
    : (s': RelaxState)
    requires idx < |flights| && Indices(flights, succ) && k <= |succ|
    requires |s.0| == |s.1| == |flights|
    ensures |s'.0| == |s'.1| == |flights|
    decreases |succ| - k
  {
    if k == |succ| then s
    else RelaxFrom(flights, t2, idx, cost, succ, k + 1, RelaxOne(flights, t2, idx, cost, succ[k], s))
  }

  /** Flight `v` has been lowered by relaxing the settled flight `idx`
      (reached at `cost`): it is an unsettled connection of `idx`, now costs
      `cost` plus its fare, less than it did in `s0`, is linked to `idx` and
      queued at that cost. */
  ghost predicate Lowered(flights: seq<Flight>, t2: int, visited: seq<bool>, idx: nat, cost: int,
                          s0: RelaxState, s: RelaxState, v: nat)
    requires idx < |flights| && v < |flights| && |s0.0| == |s.0| == |s.1| == |visited| == |flights|
  {
    && !visited[v] && Connects(flights[idx], flights[v], t2)
    && s.0[v] == Some(cost + flights[v].fare)
    && (s0.0[v].None? || cost + flights[v].fare < s0.0[v].value)
    && s.1[v] == Some(idx)
    && (cost + flights[v].fare, v) in s.2
  }

  /** What the relaxation loop has done since state `s0` once it has seen
      the first `k` flights of `succ`: every flight keeps its cost and link
      or has been lowered; every entry added names a reached flight and
      costs at least `cost` and at least that flight's cost; and every legal
      connection among those `k` flights costs at most `cost` plus its
      fare. */
  ghost predicate Relaxing(flights: seq<Flight>, t2: int, visited: seq<bool>, idx: nat, cost: int,
                           succ: seq<nat>, k: int, s0: RelaxState, s: RelaxState) {
    && |s0.0| == |s0.1| == |s.0| == |s.1| == |visited| == |flights|
    && idx < |flights| && 0 <= k <= |succ|
    && s0.2 <= s.2
    && (forall v :: 0 <= v < |flights| ==>
          (s.0[v] == s0.0[v] && s.1[v] == s0.1[v]) || Lowered(flights, t2, visited, idx, cost, s0, s, v))
    && (forall e :: e in s.2 && e !in s0.2 ==>
          e.1 < |flights| && s.0[e.1].Some? && e.0 >= s.0[e.1].value && e.0 >= cost)
    && (forall x :: 0 <= x < |flights| && x in succ[..k] && Connects(flights[idx], flights[x], t2) ==>
          s.0[x].Some? && s.0[x].value <= cost + flights[x].fare)
  }

  /** Nothing has happened before the loop starts. */
  lemma RelaxStart(flights: seq<Flight>, t2: int, visited: seq<bool>, idx: nat, cost: int, succ: seq<nat>, s0: RelaxState)
    requires |s0.0| == |s0.1| == |visited| == |flights| && idx < |flights|
    ensures Relaxing(flights, t2, visited, idx, cost, succ, 0, s0, s0)
  {
    assert succ[..0] == [];
  }

  /** One pass of the loop body keeps the relaxation under way. A flight it
      lowers cannot be settled: settled flights cost at most the level
      `cost`, and fares are non-negative. */
  lemma RelaxOneKeepsInv(flights: seq<Flight>, t2: int, visited: seq<bool>, idx: nat, cost: int,
                         succ: seq<nat>, k: nat, s0: RelaxState, s: RelaxState)
    requires AllWellFormed(flights)
    requires Relaxing(flights, t2, visited, idx, cost, succ, k, s0, s)
    requires SettledBelow(flights, s0.0, visited, cost)
    requires k < |succ| && succ[k] < |flights|
    ensures Relaxing(flights, t2, visited, idx, cost, succ, k + 1, s0, RelaxOne(flights, t2, idx, cost, succ[k], s))
  {
    var j := succ[k];
    var c := cost + flights[j].fare;
    var s' := RelaxOne(flights, t2, idx, cost, j, s);
    assert succ[..k + 1] == succ[..k] + [j];
    if Connects(flights[idx], flights[j], t2) && (s.0[j].None? || c < s.0[j].value) {
      assert s' == (s.0[j := Some(c)], s.1[j := Some(idx)], s.2 + multiset{(c, j)});
      assert !visited[j] by {
        RelaxedSettledCosts(flights, t2, visited, idx, cost, succ, k, s0, s);
        assert WellFormed(flights[j]);
      }
      forall v | 0 <= v < |flights|
        ensures (s'.0[v] == s0.0[v] && s'.1[v] == s0.1[v]) || Lowered(flights, t2, visited, idx, cost, s0, s', v)
      {
        if v != j && !(s.0[v] == s0.0[v] && s.1[v] == s0.1[v]) {
          assert Lowered(flights, t2, visited, idx, cost, s0, s, v);
        }
      }
      forall e | e in s'.2 && e !in s0.2
        ensures e.1 < |flights| && s'.0[e.1].Some? && e.0 >= s'.0[e.1].value && e.0 >= cost
      {
        if e != (c, j) {
          assert e in s.2;
        }
      }
    } else {
      assert s' == s;
    }
  }

  /** The rest of the loop keeps the relaxation under way. */
  lemma {:induction false} RelaxFromKeepsInv(flights: seq<Flight>, t2: int, visited: seq<bool>, idx: nat, cost: int,
                                             succ: seq<nat>, k: nat, s0: RelaxState, s: RelaxState)
    requires AllWellFormed(flights) && Indices(flights, succ)
    requires Relaxing(flights, t2, visited, idx, cost, succ, k, s0, s)
    requires SettledBelow(flights, s0.0, visited, cost)
    ensures Relaxing(flights, t2, visited, idx, cost, succ, |succ|, s0, RelaxFrom(flights, t2, idx, cost, succ, k, s))
    decreases |succ| - k
  {
    if k < |succ| {
      RelaxOneKeepsInv(flights, t2, visited, idx, cost, succ, k, s0, s);
      RelaxFromKeepsInv(flights, t2, visited, idx, cost, succ, k + 1, s0, RelaxOne(flights, t2, idx, cost, succ[k], s));
    }
  }

  /** Relaxation leaves the costs and links of settled flights alone. */
  lemma RelaxedSettledCosts(flights: seq<Flight>, t2: int, visited: seq<bool>, idx: nat, cost: int,
                            succ: seq<nat>, k: int, s0: RelaxState, s: RelaxState)
    requires Relaxing(flights, t2, visited, idx, cost, succ, k, s0, s)
    ensures forall v :: 0 <= v < |flights| && visited[v] ==> s.0[v] == s0.0[v] && s.1[v] == s0.1[v]
  {
    forall v | 0 <= v < |flights| && visited[v]
      ensures s.0[v] == s0.0[v] && s.1[v] == s0.1[v]
    {
      assert !Lowered(flights, t2, visited, idx, cost, s0, s, v);
    }
  }

  /** Costs only go down during relaxation. */
  lemma RelaxedLower(flights: seq<Flight>, t2: int, visited: seq<bool>, idx: nat, cost: int,
                     succ: seq<nat>, k: int, s0: RelaxState, s: RelaxState)
    requires Relaxing(flights, t2, visited, idx, cost, succ, k, s0, s)
    ensures forall v :: 0 <= v < |flights| && s0.0[v].Some? ==> s.0[v].Some? && s.0[v].value <= s0.0[v].value
  {
    forall v | 0 <= v < |flights| && s0.0[v].Some?
      ensures s.0[v].Some? && s.0[v].value <= s0.0[v].value
    {
      if !(s.0[v] == s0.0[v] && s.1[v] == s0.1[v]) {
        assert Lowered(flights, t2, visited, idx, cost, s0, s, v);
      }
    }
  }

  /** Entries stay sound and every unsettled reached flight stays queued. */
  lemma RelaxedQueued(flights: seq<Flight>, t2: int, visited: seq<bool>, idx: nat, cost: int,
                      succ: seq<nat>, s0: RelaxState, s: RelaxState)
    requires Relaxing(flights, t2, visited, idx, cost, succ, |succ|, s0, s)
    requires EntriesSound(flights, s0.2, s0.0, cost)
    requires PendingQueued(flights, s0.2, s0.0, visited)
    ensures EntriesSound(flights, s.2, s.0, cost)
    ensures PendingQueued(flights, s.2, s.0, visited)
  {
    RelaxedLower(flights, t2, visited, idx, cost, succ, |succ|, s0, s);
    forall v | 0 <= v < |flights| && s.0[v].Some? && !visited[v]
      ensures (s.0[v].value, v) in s.2
    {
      if !(s.0[v] == s0.0[v] && s.1[v] == s0.1[v]) {
        assert Lowered(flights, t2, visited, idx, cost, s0, s, v);
      } else {
        assert (s0.0[v].value, v) in s0.2;
      }
    }
    forall e | e in s.2
      ensures e.1 < |flights| && s.0[e.1].Some? && e.0 >= s.0[e.1].value && e.0 >= cost
    {
      if e in s0.2 {
        assert e.1 < |flights| && s0.0[e.1].Some?;
      }
    }
  }

  /** Links stay legal, and a lowered flight costs its settled predecessor
      `idx` plus its own fare. */
  lemma RelaxedChain(flights: seq<Flight>, startCity: int, t1: int, t2: int, visited: seq<bool>, idx: nat, cost: int,
                     succ: seq<nat>, s0: RelaxState, s: RelaxState)
    requires Relaxing(flights, t2, visited, idx, cost, succ, |succ|, s0, s)
    requires visited[idx] && s0.0[idx] == Some(cost)
    requires CostChain(flights, startCity, t1, t2, s0.1, s0.0, visited)
    ensures CostChain(flights, startCity, t1, t2, s.1, s.0, visited)
  {
    RelaxedSettledCosts(flights, t2, visited, idx, cost, succ, |succ|, s0, s);
    forall v | 0 <= v < |flights| && s.1[v].Some?
      ensures s.1[v].value < |flights| && Connects(flights[s.1[v].value], flights[v], t2)
    {
      if !(s.0[v] == s0.0[v] && s.1[v] == s0.1[v]) {
        assert Lowered(flights, t2, visited, idx, cost, s0, s, v);
      }
    }
    forall v | 0 <= v < |flights|
      ensures && (s.0[v].None? ==> s.1[v].None? && !visited[v])
              && (s.0[v].Some? && s.1[v].None? ==>
                    FirstLeg(flights[v], startCity, t1, t2) && s.0[v].value == flights[v].fare)
              && (s.1[v].Some? ==>
                    && visited[s.1[v].value] && s.0[v].Some? && s.0[s.1[v].value].Some?
                    && s.0[v].value == s.0[s.1[v].value].value + flights[v].fare)
    {
      if !(s.0[v] == s0.0[v] && s.1[v] == s0.1[v]) {
        assert Lowered(flights, t2, visited, idx, cost, s0, s, v);
      } else {
        assert s0.1[v] == s.1[v];
      }
    }
  }

  /** The facts about settled flights survive, and the settled flight `idx`
      is now relaxed too. */
  lemma RelaxedSettled(flights: seq<Flight>, startCity: int, t1: int, t2: int, visited: seq<bool>, idx: nat, cost: int,
                       succ: seq<nat>, s0: RelaxState, s: RelaxState)
    requires Relaxing(flights, t2, visited, idx, cost, succ, |succ|, s0, s)
    requires succ == Departing(flights, flights[idx].endCity)
    requires visited[idx] && s0.0[idx] == Some(cost)
    requires SettledBelow(flights, s0.0, visited, cost)
    requires FirstLegsSeeded(flights, startCity, t1, t2, s0.0)
    requires SettledRelaxed(flights, t2, s0.0, visited, idx)
    requires SettledOptimal(flights, startCity, t1, t2, s0.0, visited)
    ensures SettledBelow(flights, s.0, visited, cost)
    ensures FirstLegsSeeded(flights, startCity, t1, t2, s.0)
    ensures SettledRelaxed(flights, t2, s.0, visited, -1)
    ensures SettledOptimal(flights, startCity, t1, t2, s.0, visited)
  {
    RelaxedSettledCosts(flights, t2, visited, idx, cost, succ, |succ|, s0, s);
    RelaxedLower(flights, t2, visited, idx, cost, succ, |succ|, s0, s);
    forall u | 0 <= u < |flights| && visited[u]
      ensures Relaxed(flights, t2, s.0, u)
    {
      if u == idx {
        forall x | 0 <= x < |flights| && Connects(flights[idx], flights[x], t2)
          ensures s.0[x].Some? && s.0[x].value <= s.0[idx].value + flights[x].fare
        {
          DepartingMembers(flights, flights[idx].endCity, |flights|, x);
          assert succ[..|succ|] == succ;
        }
      } else {
        assert Relaxed(flights, t2, s0.0, u);
      }
    }
  }

  /** After the last connection the search invariant holds again with no
      flight left to relax. */
  lemma RelaxFinish(flights: seq<Flight>, startCity: int, t1: int, t2: int, visited: seq<bool>, idx: nat, cost: int,
                    succ: seq<nat>, s0: RelaxState, s: RelaxState)
    requires CheapInv(flights, startCity, t1, t2, s0.2, cost, s0.0, s0.1, visited, idx)
    requires idx < |flights| && succ == Departing(flights, flights[idx].endCity)
    requires visited[idx] && s0.0[idx] == Some(cost)
    requires Relaxing(flights, t2, visited, idx, cost, succ, |succ|, s0, s)
    ensures CheapInv(flights, startCity, t1, t2, s.2, cost, s.0, s.1, visited, -1)
  {
    RelaxedQueued(flights, t2, visited, idx, cost, succ, s0, s);
    RelaxedChain(flights, startCity, t1, t2, visited, idx, cost, succ, s0, s);
    RelaxedSettled(flights, startCity, t1, t2, visited, idx, cost, succ, s0, s);
  }

  /** The relaxation loop over the flights leaving the city where the
      settled flight `idx` lands; its effect is exactly `RelaxFrom` from the
      first of them. */
  method RelaxFlight(flights: seq<Flight>, t2: int,
                     minheap: Heap<Entry>, bestCost: array<Option<int>>, prev: array<Option<nat>>,
                     idx: nat, cost: int, succ: seq<nat>)
    requires minheap.Valid()
    requires bestCost.Length == prev.Length == |flights| && idx < |flights|
    requires Indices(flights, succ)
    modifies minheap, bestCost, prev
    ensures minheap.Valid()
    ensures (bestCost[..], prev[..], multiset(minheap.heap))
         == RelaxFrom(flights, t2, idx, cost, succ, 0, old((bestCost[..], prev[..], multiset(minheap.heap))))
  {
    var flight := flights[idx];
    ghost var s0: RelaxState := (bestCost[..], prev[..], multiset(minheap.heap));
    ghost var s := s0;
    for k := 0 to |succ|
      invariant minheap.Valid()
      invariant s == (bestCost[..], prev[..], multiset(minheap.heap))
      invariant RelaxFrom(flights, t2, idx, cost, succ, k, s) == RelaxFrom(flights, t2, idx, cost, succ, 0, s0)
    {
      var j := succ[k];
      var nextFlight := flights[j];
      ghost var s' := RelaxOne(flights, t2, idx, cost, j, s);
      if flight.endCity == nextFlight.startCity {
        if nextFlight.arrivalTime <= t2 && nextFlight.departureTime >= flight.arrivalTime + MinLayover {
          var newCost := cost + nextFlight.fare;
          if bestCost[j].None? || newCost < bestCost[j].value {
            bestCost[j] := Some(newCost);
            prev[j] := Some(idx);
            minheap.Insert((newCost, j));
          }
        }
      }
      s := s';
    }
  }

  /** What one iteration of the main loop does to best costs, links and
      entries once the entry `top` is taken out, leaving `rest`: nothing
      when its flight is settled, otherwise it relaxes the flights leaving
      where that flight lands. */
  function AfterEntry(flights: seq<Flight>, t2: int, top: Entry, visited: seq<bool>, succ: seq<nat>,
                      bestCost: seq<Option<int>>, prev: seq<Option<nat>>, rest: multiset<Entry>): (s: RelaxState)
    requires top.1 < |visited| == |flights| && Indices(flights, succ)
    requires |bestCost| == |prev| == |flights|
    ensures |s.0| == |s.1| == |flights|
    ensures visited[top.1] ==> s == (bestCost, prev, rest)
  {
    if visited[top.1] then (bestCost, prev, rest)
    else RelaxFrom(flights, t2, top.1, top.0, succ, 0, (bestCost, prev, rest))
  }

  /** One iteration of the main loop on values. The entry `top` taken out
      either names a settled flight, and only the level rises to its cost, or
      settles its flight, which competes for the answer; relaxing the flights
      leaving where it lands then restores the search invariant at the new
      level and keeps the winner. */
  lemma DrainStep(flights: seq<Flight>, startCity: int, endCity: int, t1: int, t2: int,
                  entries: multiset<Entry>, rest: multiset<Entry>, top: Entry, level: int,
                  bestCost: seq<Option<int>>, prev: seq<Option<nat>>, visited: seq<bool>,
                  best: Option<nat>, cheapest: int, best': Option<nat>, cheapest': int, succ: seq<nat>)
    requires CheapInv(flights, startCity, t1, t2, entries, level, bestCost, prev, visited, -1)
    requires WinnerInv(flights, endCity, bestCost, visited, best, cheapest)
    requires entries == rest + multiset{top}
    requires forall e :: e in rest ==> !ByFare(e, top)
    requires top.1 < |flights| && succ == Departing(flights, flights[top.1].endCity)
    requires if !visited[top.1] && flights[top.1].endCity == endCity && (best.None? || top.0 < cheapest)
             then best' == Some(top.1) && cheapest' == top.0
             else best' == best && cheapest' == cheapest
    ensures Indices(flights, succ)
    ensures if visited[top.1] then visited[top.1 := true] == visited
            else CountTrue(visited[top.1 := true]) == CountTrue(visited) + 1
    ensures CheapInv(flights, startCity, t1, t2, AfterEntry(flights, t2, top, visited, succ, bestCost, prev, rest).2, top.0,
                     AfterEntry(flights, t2, top, visited, succ, bestCost, prev, rest).0,
                     AfterEntry(flights, t2, top, visited, succ, bestCost, prev, rest).1, visited[top.1 := true], -1)
    ensures WinnerInv(flights, endCity, AfterEntry(flights, t2, top, visited, succ, bestCost, prev, rest).0,
                      visited[top.1 := true], best', cheapest')
  {
    var (cost, idx) := top;
    DepartingIndices(flights, flights[idx].endCity);
    var visited' := visited[idx := true];
    if visited[idx] {
      assert visited' == visited;
      StaleStep(flights, startCity, t1, t2, entries, rest, top, level, bestCost, prev, visited);
      return;
    }
    SettleStep(flights, startCity, t1, t2, entries, rest, top, level, bestCost, prev, visited);
    CountTrueSet(visited, idx);
    WinnerStep(flights, endCity, bestCost, visited, best, cheapest, idx, cost, best', cheapest');
    var s0: RelaxState := (bestCost, prev, rest);
    RelaxStart(flights, t2, visited', idx, cost, succ, s0);
    RelaxFromKeepsInv(flights, t2, visited', idx, cost, succ, 0, s0, s0);
    var s1 := RelaxFrom(flights, t2, idx, cost, succ, 0, s0);
    RelaxFinish(flights, startCity, t1, t2, visited', idx, cost, succ, s0, s1);
    RelaxedSettledCosts(flights, t2, visited', idx, cost, succ, |succ|, s0, s1);
    WinnerKeep(flights, endCity, bestCost, s1.0, visited', best', cheapest');
  }

  /** One pass of the main loop's body: take out the cheapest entry and,
      unless its flight is settled, settle it, let it compete for the answer
      and relax the flights leaving where it lands. The ghost parameters
      mirror the arrays and the heap's contents as values. */
  method DrainOnce(flights: seq<Flight>, startAdj: seq<seq<nat>>, startCity: int, endCity: int, t1: int, t2: int,
                   minheap: Heap<Entry>, bestCost: array<Option<int>>, prev: array<Option<nat>>, visited: array<bool>,
                   bestRoute: Option<nat>, cheapest: int,
                   ghost level: int, ghost bc: seq<Option<int>>, ghost pv: seq<Option<nat>>, ghost vis: seq<bool>,
                   ghost ent: multiset<Entry>)
    returns (bestRoute': Option<nat>, cheapest': int,
             ghost level': int, ghost bc': seq<Option<int>>, ghost pv': seq<Option<nat>>, ghost vis': seq<bool>,
             ghost ent': multiset<Entry>)
    requires forall c :: 0 <= c < |startAdj| ==> startAdj[c] == Departing(flights, c)
    requires forall i :: 0 <= i < |flights| ==> flights[i].endCity < |startAdj|
    requires minheap.Valid() && minheap.comparisonFunction == ByFare && |minheap.heap| > 0
    requires bestCost.Length == prev.Length == visited.Length == |flights|
    requires bestCost[..] == bc && prev[..] == pv && visited[..] == vis && multiset(minheap.heap) == ent
    requires CheapInv(flights, startCity, t1, t2, ent, level, bc, pv, vis, -1)
    requires WinnerInv(flights, endCity, bc, vis, bestRoute, cheapest)
    modifies minheap, bestCost, prev, visited
    ensures minheap.Valid()
    ensures bestCost[..] == bc' && prev[..] == pv' && visited[..] == vis' && multiset(minheap.heap) == ent'
    ensures CheapInv(flights, startCity, t1, t2, ent', level', bc', pv', vis', -1)
    ensures WinnerInv(flights, endCity, bc', vis', bestRoute', cheapest')
    ensures CountTrue(vis') == CountTrue(vis) + 1 || (vis' == vis && |minheap.heap| < old(|minheap.heap|))
  {
    bestRoute', cheapest' := bestRoute, cheapest;
    var top := minheap.Extract();
    var (cost, idx) := top.value;
    ghost var rest := multiset(minheap.heap);
    NonePrecedes(minheap.heap, minheap.comparisonFunction, top.value);
    var flight := flights[idx];
    var succ := startAdj[flight.endCity];
    DepartingIndices(flights, flight.endCity);
    ghost var s1 := AfterEntry(flights, t2, top.value, vis, succ, bc, pv, rest);
    if !visited[idx] {
      visited[idx] := true;
      if flight.endCity == endCity && (bestRoute'.None? || cost < cheapest') {
        bestRoute' := Some(idx);
        cheapest' := cost;
      }
      RelaxFlight(flights, t2, minheap, bestCost, prev, idx, cost, succ);
    }
    DrainStep(flights, startCity, endCity, t1, t2, ent, rest, top.value, level, bc, pv, vis,
              bestRoute, cheapest, bestRoute', cheapest', succ);
    level', bc', pv', vis', ent' := cost, s1.0, s1.1, vis[idx := true], s1.2;
  }

  /** The main loop of the cheapest-fare search: take out the cheapest
      entry, skip it if its flight is settled, otherwise settle the flight,
      let it compete for the answer and relax the flights leaving where it
      lands. On exit the winner's walk is a cheapest route to `endCity`. */
  method DrainHeap(flights: seq<Flight>, startAdj: seq<seq<nat>>, startCity: int, endCity: int, t1: int, t2: int,
                   minheap: Heap<Entry>, bestCost: array<Option<int>>, prev: array<Option<nat>>, visited: array<bool>)
    returns (bestRoute: Option<nat>, cheapest: int)
    requires forall c :: 0 <= c < |startAdj| ==> startAdj[c] == Departing(flights, c)
    requires forall i :: 0 <= i < |flights| ==> flights[i].endCity < |startAdj|
    requires minheap.Valid() && minheap.comparisonFunction == ByFare
    requires bestCost.Length == prev.Length == visited.Length == |flights|
    requires CheapInv(flights, startCity, t1, t2, multiset(minheap.heap), 0, bestCost[..], prev[..], visited[..], -1)
    requires forall v :: 0 <= v < |flights| ==> !visited[v]
    modifies minheap, bestCost, prev, visited
    ensures PrevRanked(prev[..], Arrivals(flights))
    ensures bestRoute.Some? ==>
              bestRoute.value < |flights| && RouteTo(flights, Walk(prev[..], Arrivals(flights), bestRoute.value), startCity, endCity, t1, t2)
    ensures bestRoute.Some? ==> RouteFare(flights, Walk(prev[..], Arrivals(flights), bestRoute.value)) == cheapest
    ensures forall r :: RouteTo(flights, r, startCity, endCity, t1, t2) ==>
              bestRoute.Some? && RouteFare(flights, Walk(prev[..], Arrivals(flights), bestRoute.value)) <= RouteFare(flights, r)
  {
    var n := |flights|;
    bestRoute := None;
    cheapest := 0;
    ghost var level := 0;
    ghost var bc, pv, vis, ent := bestCost[..], prev[..], visited[..], multiset(minheap.heap);
    while |minheap.heap| > 0
      invariant minheap.Valid() && minheap.comparisonFunction == ByFare
      invariant bestCost[..] == bc && prev[..] == pv && visited[..] == vis && multiset(minheap.heap) == ent
      invariant CheapInv(flights, startCity, t1, t2, ent, level, bc, pv, vis, -1)
      invariant WinnerInv(flights, endCity, bc, vis, bestRoute, cheapest)
      decreases n - CountTrue(vis), |minheap.heap|
    {
      bestRoute, cheapest, level, bc, pv, vis, ent :=
        DrainOnce(flights, startAdj, startCity, endCity, t1, t2, minheap, bestCost, prev, visited,
                  bestRoute, cheapest, level, bc, pv, vis, ent);
    }
    assert minheap.heap == [];
    SearchOutcome(flights, startCity, endCity, t1, t2, ent, level, bc, pv, vis, bestRoute, cheapest);
  }

  /** The whole search: a heap seeded with the first legs leaving
      `startCity`, drained to the end. */
  method FindRoute(flights: seq<Flight>, startAdj: seq<seq<nat>>, startCity: int, endCity: int, t1: int, t2: int)
    returns (prev: array<Option<nat>>, bestRoute: Option<nat>, cheapest: int)
    requires AllWellFormed(flights)
    requires forall c :: 0 <= c < |startAdj| ==> startAdj[c] == Departing(flights, c)
    requires forall i :: 0 <= i < |flights| ==> flights[i].endCity < |startAdj|
    requires 0 <= startCity < |startAdj|
    ensures fresh(prev) && prev.Length == |flights|
    ensures PrevRanked(prev[..], Arrivals(flights))
    ensures bestRoute.Some? ==>
              bestRoute.value < |flights| && RouteTo(flights, Walk(prev[..], Arrivals(flights), bestRoute.value), startCity, endCity, t1, t2)
    ensures bestRoute.Some? ==> RouteFare(flights, Walk(prev[..], Arrivals(flights), bestRoute.value)) == cheapest
    ensures forall r :: RouteTo(flights, r, startCity, endCity, t1, t2) ==>
              bestRoute.Some? && RouteFare(flights, Walk(prev[..], Arrivals(flights), bestRoute.value)) <= RouteFare(flights, r)
  {
    var n := |flights|;
    ByFareIsStrictWeakOrder();
    var minheap := new Heap<Entry>(ByFare, []);
    prev := new Option<nat>[n](_ => None);
    var visited := new bool[n](_ => false);
    var bestCost := new Option<int>[n](_ => None);
    SeedHeap(flights, startCity, t1, t2, startAdj[startCity], minheap, bestCost, prev, visited);
    bestRoute, cheapest := DrainHeap(flights, startAdj, startCity, endCity, t1, t2, minheap, bestCost, prev, visited);
  }
}
