/** The invariant of the breadth-first search over flights and the facts
    that make its hop counts minimal. A queue item is (flight index, hop
    count, arrival time); `lst` is everything ever enqueued and the items
    from `frontier` on are still waiting. `done` marks flights whose
    onward connections have all been examined. */
module BreadthFirst {
  import opened Options
  import opened Flights
  import opened Paths
  import opened SearchFacts
  import opened Fifo

  type Item = (nat, int, int)

  /** Every flight that may open the itinerary has been reached. */
  ghost predicate SeedsReached(flights: seq<Flight>, startCity: int, t1: int, t2: int, reached: seq<bool>) {
    forall v :: 0 <= v < |flights| && v < |reached| && FirstLeg(flights[v], startCity, t1, t2) ==> reached[v]
  }

  /** Every legal onward connection of `u` has been reached. */
  ghost predicate Expanded(flights: seq<Flight>, t2: int, u: nat, reached: seq<bool>) {
    forall x :: 0 <= x < |flights| && x < |reached| && u < |flights| && Connects(flights[u], flights[x], t2) ==> reached[x]
  }

  ghost predicate ClosedUnder(flights: seq<Flight>, t2: int, done: seq<bool>, reached: seq<bool>) {
    forall u :: 0 <= u < |flights| && u < |done| && done[u] ==> Expanded(flights, t2, u, reached)
  }

  /** No route reaches a reached flight in fewer legs than its hop count. */
  ghost predicate DepthsMinimal(flights: seq<Flight>, startCity: int, t1: int, t2: int, reached: seq<bool>, depth: seq<int>) {
    forall v, r :: 0 <= v < |flights| && v < |reached| && v < |depth| && reached[v] && RouteEndsAt(flights, r, v, startCity, t1, t2) ==>
      depth[v] <= |r|
  }

  /** The queue's bookkeeping: each reached flight was enqueued exactly once,
      at position `pos`, with its hop count and arrival time; the flights
      done are exactly those enqueued before `frontier`; the waiting hop
      counts are non-decreasing and lie in [level, level + 1]. */
  ghost predicate QueueInv(flights: seq<Flight>, lst: seq<Item>, frontier: int, level: int,
                           visited: seq<bool>, depth: seq<int>, pos: seq<int>, done: seq<bool>) {
    && |visited| == |depth| == |pos| == |done| == |flights|
    && 0 <= frontier <= |lst|
    && (forall k :: 0 <= k < |lst| ==>
          && lst[k].0 < |flights| && visited[lst[k].0] && pos[lst[k].0] == k
          && lst[k].1 == depth[lst[k].0] && lst[k].2 == flights[lst[k].0].arrivalTime)
    && (forall v :: 0 <= v < |flights| && visited[v] ==> 0 <= pos[v] < |lst| && lst[pos[v]].0 == v)
    && (forall v :: 0 <= v < |flights| && done[v] ==> visited[v] && pos[v] < frontier)
    && (forall v :: 0 <= v < |flights| && visited[v] && !done[v] ==> pos[v] >= frontier)
    && (forall k :: frontier <= k < |lst| ==> level <= lst[k].1 <= level + 1)
    && (forall a, b :: frontier <= a < b < |lst| ==> lst[a].1 <= lst[b].1)
  }

  /** Links are legal, lead back to a first leg, and add one hop each. */
  ghost predicate ChainInv(flights: seq<Flight>, startCity: int, t1: int, t2: int,
                           prev: seq<Option<nat>>, visited: seq<bool>, depth: seq<int>) {
    && |depth| == |flights|
    && LinksConnect(flights, prev, t2)
    && RootedInFirstLegs(flights, prev, visited, startCity, t1, t2)
    && forall v :: 0 <= v < |flights| ==>
         && (!visited[v] ==> prev[v].None?)
         && (visited[v] && prev[v].None? ==> depth[v] == 1)
         && (visited[v] && prev[v].Some? ==> depth[v] == depth[prev[v].value] + 1)
  }

  /** Everything but `SeedsReached`, which holds only once seeding is over. */
  ghost predicate CoreInv(flights: seq<Flight>, startCity: int, t1: int, t2: int,
                          lst: seq<Item>, frontier: int, level: int,
                          visited: seq<bool>, prev: seq<Option<nat>>, depth: seq<int>, pos: seq<int>, done: seq<bool>) {
    && QueueInv(flights, lst, frontier, level, visited, depth, pos, done)
    && ChainInv(flights, startCity, t1, t2, prev, visited, depth)
    && ClosedUnder(flights, t2, done, visited)
    && DepthsMinimal(flights, startCity, t1, t2, visited, depth)
  }

  ghost predicate BfsInv(flights: seq<Flight>, startCity: int, t1: int, t2: int,
                         lst: seq<Item>, frontier: int, level: int,
                         visited: seq<bool>, prev: seq<Option<nat>>, depth: seq<int>, pos: seq<int>, done: seq<bool>) {
    && CoreInv(flights, startCity, t1, t2, lst, frontier, level, visited, prev, depth, pos, done)
    && SeedsReached(flights, startCity, t1, t2, visited)
  }

  /** A route ending at a flight not yet done has at least `m` legs, when
      every reached flight not yet done has hop count at least `m`. */
  lemma {:induction false} UnfinishedRoutesAreLong(flights: seq<Flight>, startCity: int, t1: int, t2: int,
                                                   visited: seq<bool>, done: seq<bool>, depth: seq<int>, m: int, r: seq<nat>)
    requires |visited| == |done| == |depth| == |flights|
    requires SeedsReached(flights, startCity, t1, t2, visited)
    requires ClosedUnder(flights, t2, done, visited)
    requires DepthsMinimal(flights, startCity, t1, t2, visited, depth)
    requires forall v :: 0 <= v < |flights| && visited[v] && !done[v] ==> depth[v] >= m
    requires IsRoute(flights, r, startCity, t1, t2) && !done[r[|r| - 1]]
    ensures |r| >= m
    decreases |r|
  {
    var v := r[|r| - 1];
    if |r| == 1 {
      assert visited[v];
      assert RouteEndsAt(flights, r, v, startCity, t1, t2);
    } else {
      RoutePrefix(flights, r, startCity, t1, t2);
      var p := r[..|r| - 1];
      var w := r[|r| - 2];
      assert p[|p| - 1] == w;
      if done[w] {
        assert Expanded(flights, t2, w, visited);
        assert visited[v];
        assert RouteEndsAt(flights, r, v, startCity, t1, t2);
      } else {
        UnfinishedRoutesAreLong(flights, startCity, t1, t2, visited, done, depth, m, p);
      }
    }
  }

  /** A flight first reached from `u` cannot be reached by any route in
      fewer than depth[u] + 1 legs. */
  lemma NewDepthMinimal(flights: seq<Flight>, startCity: int, t1: int, t2: int,
                        visited: seq<bool>, done: seq<bool>, depth: seq<int>, u: nat, j: nat)
    requires |visited| == |done| == |depth| == |flights|
    requires SeedsReached(flights, startCity, t1, t2, visited)
    requires ClosedUnder(flights, t2, done, visited)
    requires DepthsMinimal(flights, startCity, t1, t2, visited, depth)
    requires u < |flights| && j < |flights| && !visited[j]
    requires forall v :: 0 <= v < |flights| && visited[v] && !done[v] ==> depth[v] >= depth[u]
    ensures forall r :: RouteEndsAt(flights, r, j, startCity, t1, t2) ==> |r| >= depth[u] + 1
  {
    forall r | RouteEndsAt(flights, r, j, startCity, t1, t2)
      ensures |r| >= depth[u] + 1
    {
      if |r| == 1 {
        assert false;
      }
      RoutePrefix(flights, r, startCity, t1, t2);
      var p := r[..|r| - 1];
      var w := r[|r| - 2];
      assert p[|p| - 1] == w;
      assert !done[w];
      UnfinishedRoutesAreLong(flights, startCity, t1, t2, visited, done, depth, depth[u], p);
    }
  }

  /** Dequeuing the front item keeps the invariant with the level set to its
      hop count; the flight dequeued is not yet done. */
  lemma DequeueStep(flights: seq<Flight>, startCity: int, t1: int, t2: int,
                    lst: seq<Item>, frontier: int, level: int,
                    visited: seq<bool>, prev: seq<Option<nat>>, depth: seq<int>, pos: seq<int>, done: seq<bool>)
    requires BfsInv(flights, startCity, t1, t2, lst, frontier, level, visited, prev, depth, pos, done)
    requires frontier < |lst|
    ensures BfsInv(flights, startCity, t1, t2, lst, frontier, lst[frontier].1, visited, prev, depth, pos, done)
    ensures lst[frontier].0 < |flights| && !done[lst[frontier].0] && visited[lst[frontier].0]
    ensures depth[lst[frontier].0] == lst[frontier].1 && pos[lst[frontier].0] == frontier
  {
    DequeueQueue(flights, lst, frontier, level, visited, depth, pos, done);
  }

  lemma DequeueQueue(flights: seq<Flight>, lst: seq<Item>, frontier: int, level: int,
                     visited: seq<bool>, depth: seq<int>, pos: seq<int>, done: seq<bool>)
    requires QueueInv(flights, lst, frontier, level, visited, depth, pos, done)
    requires frontier < |lst|
    ensures QueueInv(flights, lst, frontier, lst[frontier].1, visited, depth, pos, done)
    ensures lst[frontier].0 < |flights| && !done[lst[frontier].0] && visited[lst[frontier].0]
    ensures depth[lst[frontier].0] == lst[frontier].1 && pos[lst[frontier].0] == frontier
  {
  }

  /** Reaching the unreached flight `j` from the flight `u` being expanded,
      with one hop more, keeps the invariant. */
  lemma EnqueueStep(flights: seq<Flight>, startCity: int, t1: int, t2: int,
                    lst: seq<Item>, frontier: int, level: int,
                    visited: seq<bool>, prev: seq<Option<nat>>, depth: seq<int>, pos: seq<int>, done: seq<bool>,
                    u: nat, j: nat)
    requires BfsInv(flights, startCity, t1, t2, lst, frontier, level, visited, prev, depth, pos, done)
    requires frontier < |lst| && lst[frontier].0 == u && depth[u] == level && !done[u]
    requires j < |flights| && !visited[j] && Connects(flights[u], flights[j], t2)
    ensures BfsInv(flights, startCity, t1, t2,
                   lst + [(j, level + 1, flights[j].arrivalTime)], frontier, level,
                   visited[j := true], prev[j := Some(u)], depth[j := level + 1], pos[j := |lst|], done)
  {
    EnqueueQueue(flights, lst, frontier, level, visited, depth, pos, done, u, j);
    EnqueueChain(flights, startCity, t1, t2, prev, visited, depth, u, j);
    EnqueueReach(flights, startCity, t1, t2, visited, done, depth, u, j);
  }

  lemma EnqueueReach(flights: seq<Flight>, startCity: int, t1: int, t2: int,
                     visited: seq<bool>, done: seq<bool>, depth: seq<int>, u: nat, j: nat)
    requires |visited| == |done| == |depth| == |flights|
    requires SeedsReached(flights, startCity, t1, t2, visited)
    requires ClosedUnder(flights, t2, done, visited)
    requires DepthsMinimal(flights, startCity, t1, t2, visited, depth)
    requires u < |flights| && j < |flights| && !visited[j]
    requires forall v :: 0 <= v < |flights| && visited[v] && !done[v] ==> depth[v] >= depth[u]
    ensures SeedsReached(flights, startCity, t1, t2, visited[j := true])
    ensures ClosedUnder(flights, t2, done, visited[j := true])
    ensures DepthsMinimal(flights, startCity, t1, t2, visited[j := true], depth[j := depth[u] + 1])
  {
    NewDepthMinimal(flights, startCity, t1, t2, visited, done, depth, u, j);
    var visited', depth' := visited[j := true], depth[j := depth[u] + 1];
    forall v, r | 0 <= v < |flights| && visited'[v] && RouteEndsAt(flights, r, v, startCity, t1, t2)
      ensures depth'[v] <= |r|
    {
      if v != j {
        assert visited[v];
      }
    }
    forall w | 0 <= w < |flights| && done[w]
      ensures Expanded(flights, t2, w, visited')
    {
      assert Expanded(flights, t2, w, visited);
    }
  }

  lemma EnqueueQueue(flights: seq<Flight>, lst: seq<Item>, frontier: int, level: int,
                     visited: seq<bool>, depth: seq<int>, pos: seq<int>, done: seq<bool>, u: nat, j: nat)
    requires QueueInv(flights, lst, frontier, level, visited, depth, pos, done)
    requires frontier < |lst| && lst[frontier].0 == u && depth[u] == level
    requires j < |flights| && !visited[j]
    ensures QueueInv(flights, lst + [(j, level + 1, flights[j].arrivalTime)], frontier, level,
                     visited[j := true], depth[j := level + 1], pos[j := |lst|], done)
  {
    var lst' := lst + [(j, level + 1, flights[j].arrivalTime)];
    var visited', depth', pos' := visited[j := true], depth[j := level + 1], pos[j := |lst|];
    forall k | 0 <= k < |lst'|
      ensures lst'[k].0 < |flights| && visited'[lst'[k].0] && pos'[lst'[k].0] == k
      ensures lst'[k].1 == depth'[lst'[k].0] && lst'[k].2 == flights[lst'[k].0].arrivalTime
    {
      if k < |lst| {
        assert lst'[k] == lst[k];
        assert lst[k].0 != j;
      }
    }
    forall a, b | frontier <= a < b < |lst'|
      ensures lst'[a].1 <= lst'[b].1
    {
      if b < |lst| {
        assert lst'[a] == lst[a] && lst'[b] == lst[b];
      } else {
        assert lst'[a] == lst[a];
      }
    }
    forall k | frontier <= k < |lst'|
      ensures level <= lst'[k].1 <= level + 1
    {
      if k < |lst| {
        assert lst'[k] == lst[k];
      }
    }
  }

  lemma EnqueueChain(flights: seq<Flight>, startCity: int, t1: int, t2: int,
                     prev: seq<Option<nat>>, visited: seq<bool>, depth: seq<int>, u: nat, j: nat)
    requires ChainInv(flights, startCity, t1, t2, prev, visited, depth)
    requires u < |flights| && visited[u]
    requires j < |flights| && !visited[j] && Connects(flights[u], flights[j], t2)
    ensures ChainInv(flights, startCity, t1, t2, prev[j := Some(u)], visited[j := true], depth[j := depth[u] + 1])
  {
    var visited', prev', depth' := visited[j := true], prev[j := Some(u)], depth[j := depth[u] + 1];
    forall v | 0 <= v < |flights| && visited'[v] && prev'[v].Some?
      ensures depth'[v] == depth'[prev'[v].value] + 1
    {
      if v != j {
        assert prev[v].value != j;
      }
    }
  }

  /** Once every onward connection of the front flight has been reached, it is
      done and the frontier moves past it. */
  lemma FinishStep(flights: seq<Flight>, startCity: int, t1: int, t2: int,
                   lst: seq<Item>, frontier: int, level: int,
                   visited: seq<bool>, prev: seq<Option<nat>>, depth: seq<int>, pos: seq<int>, done: seq<bool>, u: nat)
    requires BfsInv(flights, startCity, t1, t2, lst, frontier, level, visited, prev, depth, pos, done)
    requires frontier < |lst| && lst[frontier].0 == u
    requires Expanded(flights, t2, u, visited)
    ensures BfsInv(flights, startCity, t1, t2, lst, frontier + 1, level, visited, prev, depth, pos, done[u := true])
  {
    FinishQueue(flights, lst, frontier, level, visited, depth, pos, done, u);
    FinishClosed(flights, t2, done, visited, u);
  }

  lemma FinishQueue(flights: seq<Flight>, lst: seq<Item>, frontier: int, level: int,
                    visited: seq<bool>, depth: seq<int>, pos: seq<int>, done: seq<bool>, u: nat)
    requires QueueInv(flights, lst, frontier, level, visited, depth, pos, done)
    requires frontier < |lst| && lst[frontier].0 == u
    ensures QueueInv(flights, lst, frontier + 1, level, visited, depth, pos, done[u := true])
  {
  }

  lemma FinishClosed(flights: seq<Flight>, t2: int, done: seq<bool>, visited: seq<bool>, u: nat)
    requires ClosedUnder(flights, t2, done, visited) && u < |done|
    requires Expanded(flights, t2, u, visited)
    ensures ClosedUnder(flights, t2, done[u := true], visited)
  {
  }

  /** With nothing left waiting every route's last flight is done. */
  lemma ExhaustedReachesAll(flights: seq<Flight>, startCity: int, t1: int, t2: int,
                            lst: seq<Item>, level: int,
                            visited: seq<bool>, prev: seq<Option<nat>>, depth: seq<int>, pos: seq<int>, done: seq<bool>,
                            r: seq<nat>)
    requires BfsInv(flights, startCity, t1, t2, lst, |lst|, level, visited, prev, depth, pos, done)
    requires IsRoute(flights, r, startCity, t1, t2)
    ensures done[r[|r| - 1]]
  {
    if !done[r[|r| - 1]] {
      UnfinishedRoutesAreLong(flights, startCity, t1, t2, visited, done, depth, |r| + 1, r);
    }
  }

  /** The walk back from a reached flight has as many legs as its hop count. */
  lemma {:induction false} WalkLength(flights: seq<Flight>, startCity: int, t1: int, t2: int,
                                      prev: seq<Option<nat>>, visited: seq<bool>, depth: seq<int>, v: nat)
    requires AllWellFormed(flights)
    requires ChainInv(flights, startCity, t1, t2, prev, visited, depth)
    requires v < |flights| && visited[v]
    ensures PrevRanked(prev, Arrivals(flights))
    ensures |Walk(prev, Arrivals(flights), v)| == depth[v]
    decreases flights[v].arrivalTime
  {
    LinksRanked(flights, prev, t2);
    var rank := Arrivals(flights);
    match prev[v]
    case None =>
      assert Walk(prev, rank, v) == [v];
    case Some(u) =>
      WalkLength(flights, startCity, t1, t2, prev, visited, depth, u);
      assert Walk(prev, rank, v) == Walk(prev, rank, u) + [v];
  }

  /** Seeding: a first leg not yet reached enters the queue with one hop. */
  lemma SeedStep(flights: seq<Flight>, startCity: int, t1: int, t2: int,
                 lst: seq<Item>, visited: seq<bool>, prev: seq<Option<nat>>, depth: seq<int>, pos: seq<int>, done: seq<bool>, i: nat)
    requires CoreInv(flights, startCity, t1, t2, lst, 0, 1, visited, prev, depth, pos, done)
    requires forall v :: 0 <= v < |flights| ==> !done[v] && depth[v] == 1
    requires i < |flights| && !visited[i] && FirstLeg(flights[i], startCity, t1, t2)
    ensures CoreInv(flights, startCity, t1, t2, lst + [(i, 1, flights[i].arrivalTime)], 0, 1,
                    visited[i := true], prev, depth, pos[i := |lst|], done)
  {
    var lst' := lst + [(i, 1, flights[i].arrivalTime)];
    var visited', pos' := visited[i := true], pos[i := |lst|];
    forall k | 0 <= k < |lst'|
      ensures lst'[k].0 < |flights| && visited'[lst'[k].0] && pos'[lst'[k].0] == k
      ensures lst'[k].1 == depth[lst'[k].0] && lst'[k].2 == flights[lst'[k].0].arrivalTime
    {
      if k < |lst| {
        assert lst'[k] == lst[k];
        assert lst[k].0 != i;
      }
    }
    forall a, b | 0 <= a < b < |lst'|
      ensures lst'[a].1 <= lst'[b].1
    {
      if b < |lst| {
        assert lst'[a] == lst[a] && lst'[b] == lst[b];
      } else {
        assert lst'[a] == lst[a];
      }
    }
    forall k | 0 <= k < |lst'|
      ensures 1 <= lst'[k].1 <= 2
    {
      if k < |lst| {
        assert lst'[k] == lst[k];
      }
    }
  }

  /** The search's current winner: a covered flight landing in `endCity`
      whose (hop count, arrival time) no other covered such flight beats. */
  ghost predicate WinnerInv(flights: seq<Flight>, endCity: int, covered: seq<bool>, depth: seq<int>,
                            best: Option<nat>, mincount: int, early: int) {
    && |covered| == |depth| == |flights|
    && (best.Some? ==>
          && best.value < |flights| && covered[best.value] && flights[best.value].endCity == endCity
          && depth[best.value] == mincount && flights[best.value].arrivalTime == early)
    && forall v :: 0 <= v < |flights| && covered[v] && flights[v].endCity == endCity ==>
         best.Some? && !LexLess((depth[v], flights[v].arrivalTime), (mincount, early))
  }

  /** Dequeuing flight `idx` covers it: it becomes the winner exactly when it
      lands in `endCity` and there was no winner or its (hop count, arrival
      time) is strictly smaller. */
  lemma WinnerStep(flights: seq<Flight>, endCity: int, done: seq<bool>, depth: seq<int>,
                   best: Option<nat>, mincount: int, early: int, idx: nat,
                   best': Option<nat>, mincount': int, early': int)
    requires WinnerInv(flights, endCity, done, depth, best, mincount, early) && idx < |flights|
    requires (best', mincount', early') ==
               if flights[idx].endCity == endCity
                  && (best.None? || LexLess((depth[idx], flights[idx].arrivalTime), (mincount, early)))
               then (Some(idx), depth[idx], flights[idx].arrivalTime)
               else (best, mincount, early)
    ensures WinnerInv(flights, endCity, done[idx := true], depth, best', mincount', early')
  {
  }

  /** When the queue runs dry every route is accounted for: the winner's walk
      is a route to `endCity`, no route to `endCity` has fewer legs, and none
      with as many legs lands earlier. */
  lemma SearchOutcome(flights: seq<Flight>, startCity: int, endCity: int, t1: int, t2: int,
                      lst: seq<Item>, level: int,
                      visited: seq<bool>, prev: seq<Option<nat>>, depth: seq<int>, pos: seq<int>, done: seq<bool>,
                      best: Option<nat>, mincount: int, early: int)
    requires AllWellFormed(flights)
    requires BfsInv(flights, startCity, t1, t2, lst, |lst|, level, visited, prev, depth, pos, done)
    requires WinnerInv(flights, endCity, done, depth, best, mincount, early)
    ensures PrevRanked(prev, Arrivals(flights))
    ensures best.Some? ==> best.value < |flights| && RouteTo(flights, Walk(prev, Arrivals(flights), best.value), startCity, endCity, t1, t2)
    ensures forall r :: RouteTo(flights, r, startCity, endCity, t1, t2) ==>
              best.Some? && |Walk(prev, Arrivals(flights), best.value)| <= |r|
    ensures forall r :: RouteTo(flights, r, startCity, endCity, t1, t2) ==>
              best.Some? &&
              !LexLess((|r|, flights[r[|r| - 1]].arrivalTime),
                       (|Walk(prev, Arrivals(flights), best.value)|, flights[best.value].arrivalTime))
  {
    LinksRanked(flights, prev, t2);
    if best.Some? {
      WalkIsRoute(flights, prev, visited, startCity, t1, t2, best.value);
      WalkLength(flights, startCity, t1, t2, prev, visited, depth, best.value);
    }
    forall r | RouteTo(flights, r, startCity, endCity, t1, t2)
      ensures best.Some? && |Walk(prev, Arrivals(flights), best.value)| <= |r|
      ensures best.Some? &&
              !LexLess((|r|, flights[r[|r| - 1]].arrivalTime),
                       (|Walk(prev, Arrivals(flights), best.value)|, flights[best.value].arrivalTime))
    {
      ExhaustedReachesAll(flights, startCity, t1, t2, lst, level, visited, prev, depth, pos, done, r);
      assert RouteEndsAt(flights, r, r[|r| - 1], startCity, t1, t2);
    }
  }

  /** The seeding loop's invariant after the first `k` candidate flights:
      exactly the first legs among them are reached, each with one hop. */
  ghost predicate SeedInv(flights: seq<Flight>, startCity: int, t1: int, t2: int, seeds: seq<nat>, k: int,
                          lst: seq<Item>, visited: seq<bool>, prev: seq<Option<nat>>, depth: seq<int>, pos: seq<int>, done: seq<bool>) {
    && seeds == Departing(flights, startCity) && 0 <= k <= |seeds|
    && CoreInv(flights, startCity, t1, t2, lst, 0, 1, visited, prev, depth, pos, done)
    && (forall v :: 0 <= v < |flights| ==> !done[v] && depth[v] == 1)
    && (forall v :: 0 <= v < |flights| && visited[v] ==> v in seeds[..k])
    && (forall v :: 0 <= v < |flights| && v in seeds[..k] && FirstLeg(flights[v], startCity, t1, t2) ==> visited[v])
    && |lst| == CountTrue(visited)
  }

  lemma SeedInit(flights: seq<Flight>, startCity: int, t1: int, t2: int, seeds: seq<nat>,
                 visited: seq<bool>, prev: seq<Option<nat>>)
    requires seeds == Departing(flights, startCity)
    requires |visited| == |prev| == |flights|
    requires forall v :: 0 <= v < |flights| ==> !visited[v] && prev[v].None?
    ensures SeedInv(flights, startCity, t1, t2, seeds, 0, [], visited, prev,
                    seq(|flights|, _ => 1), seq(|flights|, _ => 0), seq(|flights|, _ => false))
  {
    CountTrueNone(visited);
  }

  lemma SeedSkip(flights: seq<Flight>, startCity: int, t1: int, t2: int, seeds: seq<nat>, k: int,
                 lst: seq<Item>, visited: seq<bool>, prev: seq<Option<nat>>, depth: seq<int>, pos: seq<int>, done: seq<bool>)
    requires SeedInv(flights, startCity, t1, t2, seeds, k, lst, visited, prev, depth, pos, done)
    requires k < |seeds| && seeds[k] < |flights| && !FirstLeg(flights[seeds[k]], startCity, t1, t2)
    ensures SeedInv(flights, startCity, t1, t2, seeds, k + 1, lst, visited, prev, depth, pos, done)
  {
    PrefixSnoc(seeds, k);
  }

  lemma SeedTake(flights: seq<Flight>, startCity: int, t1: int, t2: int, seeds: seq<nat>, k: int,
                 lst: seq<Item>, visited: seq<bool>, prev: seq<Option<nat>>, depth: seq<int>, pos: seq<int>, done: seq<bool>)
    requires SeedInv(flights, startCity, t1, t2, seeds, k, lst, visited, prev, depth, pos, done)
    requires k < |seeds| && seeds[k] < |flights| && FirstLeg(flights[seeds[k]], startCity, t1, t2)
    ensures SeedInv(flights, startCity, t1, t2, seeds, k + 1, lst + [(seeds[k], 1, flights[seeds[k]].arrivalTime)],
                    visited[seeds[k] := true], prev, depth, pos[seeds[k] := |lst|], done)
  {
    var i := seeds[k];
    assert !visited[i] by {
      if visited[i] {
        var a :| 0 <= a < k && seeds[a] == i;
        DepartingIncreasing(flights, startCity, |flights|, a, k);
      }
    }
    SeedStep(flights, startCity, t1, t2, lst, visited, prev, depth, pos, done, i);
    CountTrueSet(visited, i);
    PrefixSnoc(seeds, k);
  }

  lemma SeedFinish(flights: seq<Flight>, startCity: int, t1: int, t2: int, seeds: seq<nat>,
                   lst: seq<Item>, visited: seq<bool>, prev: seq<Option<nat>>, depth: seq<int>, pos: seq<int>, done: seq<bool>)
    requires SeedInv(flights, startCity, t1, t2, seeds, |seeds|, lst, visited, prev, depth, pos, done)
    ensures BfsInv(flights, startCity, t1, t2, lst, 0, 1, visited, prev, depth, pos, done)
    ensures forall v :: 0 <= v < |flights| ==> !done[v]
    ensures |lst| == CountTrue(visited)
  {
    forall v | 0 <= v < |flights| && FirstLeg(flights[v], startCity, t1, t2)
      ensures visited[v]
    {
      DepartingMembers(flights, startCity, |flights|, v);
      assert seeds[..|seeds|] == seeds;
    }
  }

  /** The seeding loop: every first leg leaving `startCity` enters the queue
      with one hop and is marked reached. */
  method SeedSearch(flights: seq<Flight>, startCity: int, t1: int, t2: int, seeds: seq<nat>,
                    queue: Queue<Item>, visited: array<bool>, prev: array<Option<nat>>)
    returns (ghost depth: seq<int>, ghost pos: seq<int>, ghost done: seq<bool>)
    requires seeds == Departing(flights, startCity)
    requires queue.Valid() && queue.lst == [] && queue.start == 0
    requires visited.Length == prev.Length == |flights|
    requires forall v :: 0 <= v < |flights| ==> !visited[v] && prev[v].None?
    modifies queue, visited
    ensures queue.Valid() && queue.start == 0
    ensures BfsInv(flights, startCity, t1, t2, queue.lst, 0, 1, visited[..], prev[..], depth, pos, done)
    ensures forall v :: 0 <= v < |flights| ==> !done[v]
    ensures |queue.lst| == CountTrue(visited[..])
  {
    var n := |flights|;
    depth := seq(n, _ => 1);
    pos := seq(n, _ => 0);
    done := seq(n, _ => false);
    SeedInit(flights, startCity, t1, t2, seeds, visited[..], prev[..]);
    ghost var vis, links, items := visited[..], prev[..], queue.lst;
    for k := 0 to |seeds|
      invariant queue.Valid() && queue.start == 0
      invariant visited[..] == vis && prev[..] == links && queue.lst == items
      invariant SeedInv(flights, startCity, t1, t2, seeds, k, items, vis, links, depth, pos, done)
    {
      var i := seeds[k];
      DepartingMembers(flights, startCity, n, i);
      var flight := flights[i];
      if t1 <= flight.departureTime && flight.arrivalTime <= t2 {
        SeedTake(flights, startCity, t1, t2, seeds, k, items, vis, links, depth, pos, done);
        pos := pos[i := |items|];
        queue.Enqueue((i, 1, flight.arrivalTime));
        visited[i] := true;
        vis, items := vis[i := true], items + [(i, 1, flight.arrivalTime)];
      } else {
        SeedSkip(flights, startCity, t1, t2, seeds, k, items, vis, links, depth, pos, done);
      }
    }
    SeedFinish(flights, startCity, t1, t2, seeds, items, vis, links, depth, pos, done);
  }

  /** The expansion loop's invariant after the first `k` flights leaving the
      city where `idx` lands: every legal connection among them is reached,
      and hop counts fixed before the expansion are unchanged. */
  ghost predicate ExpandInv(flights: seq<Flight>, startCity: int, t1: int, t2: int,
                            lst: seq<Item>, frontier: int, count: int,
                            visited: seq<bool>, prev: seq<Option<nat>>, depth0: seq<int>, depth: seq<int>, pos: seq<int>, done: seq<bool>,
                            idx: nat, succ: seq<nat>, k: int) {
    && 0 <= frontier < |lst| && idx < |flights| && |depth0| == |flights|
    && succ == Departing(flights, flights[idx].endCity) && 0 <= k <= |succ|
    && BfsInv(flights, startCity, t1, t2, lst, frontier, count, visited, prev, depth, pos, done)
    && lst[frontier].0 == idx && depth[idx] == count && visited[idx] && !done[idx]
    && (forall x :: 0 <= x < |flights| && x in succ[..k] && Connects(flights[idx], flights[x], t2) ==> visited[x])
    && (forall v :: 0 <= v < |flights| && (done[v] || v == idx) ==> depth[v] == depth0[v])
    && |lst| == CountTrue(visited)
  }

  lemma ExpandStart(flights: seq<Flight>, startCity: int, t1: int, t2: int,
                    lst: seq<Item>, frontier: int, count: int,
                    visited: seq<bool>, prev: seq<Option<nat>>, depth: seq<int>, pos: seq<int>, done: seq<bool>,
                    idx: nat, succ: seq<nat>)
    requires frontier < |lst| && idx < |flights|
    requires BfsInv(flights, startCity, t1, t2, lst, frontier, count, visited, prev, depth, pos, done)
    requires lst[frontier].0 == idx && depth[idx] == count && !done[idx]
    requires succ == Departing(flights, flights[idx].endCity)
    requires |lst| == CountTrue(visited)
    ensures ExpandInv(flights, startCity, t1, t2, lst, frontier, count, visited, prev, depth, depth, pos, done, idx, succ, 0)
  {
  }

  lemma ExpandSkip(flights: seq<Flight>, startCity: int, t1: int, t2: int,
                   lst: seq<Item>, frontier: int, count: int,
                   visited: seq<bool>, prev: seq<Option<nat>>, depth0: seq<int>, depth: seq<int>, pos: seq<int>, done: seq<bool>,
                   idx: nat, succ: seq<nat>, k: int)
    requires ExpandInv(flights, startCity, t1, t2, lst, frontier, count, visited, prev, depth0, depth, pos, done, idx, succ, k)
    requires k < |succ| && succ[k] < |flights|
    requires visited[succ[k]] || !Connects(flights[idx], flights[succ[k]], t2)
    ensures ExpandInv(flights, startCity, t1, t2, lst, frontier, count, visited, prev, depth0, depth, pos, done, idx, succ, k + 1)
  {
    PrefixSnoc(succ, k);
  }

  lemma ExpandTake(flights: seq<Flight>, startCity: int, t1: int, t2: int,
                   lst: seq<Item>, frontier: int, count: int,
                   visited: seq<bool>, prev: seq<Option<nat>>, depth0: seq<int>, depth: seq<int>, pos: seq<int>, done: seq<bool>,
                   idx: nat, succ: seq<nat>, k: int)
    requires ExpandInv(flights, startCity, t1, t2, lst, frontier, count, visited, prev, depth0, depth, pos, done, idx, succ, k)
    requires k < |succ| && succ[k] < |flights|
    requires !visited[succ[k]] && Connects(flights[idx], flights[succ[k]], t2)
    ensures ExpandInv(flights, startCity, t1, t2, lst + [(succ[k], count + 1, flights[succ[k]].arrivalTime)], frontier, count,
                      visited[succ[k] := true], prev[succ[k] := Some(idx)], depth0, depth[succ[k] := count + 1],
                      pos[succ[k] := |lst|], done, idx, succ, k + 1)
  {
    var j := succ[k];
    EnqueueStep(flights, startCity, t1, t2, lst, frontier, count, visited, prev, depth, pos, done, idx, j);
    CountTrueSet(visited, j);
    PrefixSnoc(succ, k);
  }

  lemma ExpandFinish(flights: seq<Flight>, startCity: int, t1: int, t2: int,
                     lst: seq<Item>, frontier: int, count: int,
                     visited: seq<bool>, prev: seq<Option<nat>>, depth0: seq<int>, depth: seq<int>, pos: seq<int>, done: seq<bool>,
                     idx: nat, succ: seq<nat>,
                     endCity: int, best: Option<nat>, mincount: int, early: int, frontier': int, done': seq<bool>)
    requires ExpandInv(flights, startCity, t1, t2, lst, frontier, count, visited, prev, depth0, depth, pos, done, idx, succ, |succ|)
    requires frontier' == frontier + 1 && done' == done[idx := true]
    requires WinnerInv(flights, endCity, done', depth0, best, mincount, early)
    ensures BfsInv(flights, startCity, t1, t2, lst, frontier', count, visited, prev, depth, pos, done')
    ensures WinnerInv(flights, endCity, done', depth, best, mincount, early)
  {
    assert Expanded(flights, t2, idx, visited) by {
      forall x | 0 <= x < |flights| && Connects(flights[idx], flights[x], t2)
        ensures visited[x]
      {
        DepartingMembers(flights, flights[idx].endCity, |flights|, x);
        assert succ[..|succ|] == succ;
      }
    }
    FinishStep(flights, startCity, t1, t2, lst, frontier, count, visited, prev, depth, pos, done, idx);
  }

  /** The part of the search state the expansion loop changes: the items
      ever enqueued, the reached marks, the links and, as ghosts, the hop
      counts and queue positions. */
  type ExpandState = (seq<Item>, seq<bool>, seq<Option<nat>>, seq<int>, seq<int>)

  /** One pass of the expansion loop's body for flight `j`: if `j` is
      unreached and connects from `idx` (dequeued with `count` hops), it is
      reached from `idx` with one hop more and enqueued. */
  function ExpandOne(flights: seq<Flight>, t2: int, idx: nat, count: int, j: nat, s: ExpandState): (s': ExpandState)
    requires idx < |flights| && j < |flights| && |s.1| == |s.2| == |s.3| == |s.4| == |flights|
    ensures |s'.1| == |s'.2| == |s'.3| == |s'.4| == |flights|
  {
    if !s.1[j] && Connects(flights[idx], flights[j], t2)
    then (s.0 + [(j, count + 1, flights[j].arrivalTime)], s.1[j := true], s.2[j := Some(idx)],
          s.3[j := count + 1], s.4[j := |s.0|])
    else s
  }

  /** The state after the loop has seen the flights of `succ` from position
      `k` on, starting in state `s`. */
  function ExpandFrom(flights: seq<Flight>, t2: int, idx: nat, count: int, succ: seq<nat>, k: nat, s: ExpandState)
    : (s': ExpandState)
    requires idx < |flights| && Indices(flights, succ) && k <= |succ|
    requires |s.1| == |s.2| == |s.3| == |s.4| == |flights|
    ensures |s'.1| == |s'.2| == |s'.3| == |s'.4| == |flights|
    decreases |succ| - k
  {
    if k == |succ| then s
    else ExpandFrom(flights, t2, idx, count, succ, k + 1, ExpandOne(flights, t2, idx, count, succ[k], s))
  }

  /** The rest of the expansion loop keeps its invariant. */
  lemma {:induction false} ExpandFromKeepsInv(flights: seq<Flight>, startCity: int, t1: int, t2: int,
                                              frontier: int, count: int, depth0: seq<int>, done: seq<bool>,
                                              idx: nat, succ: seq<nat>, k: nat, s: ExpandState)
    requires Indices(flights, succ)
    requires ExpandInv(flights, startCity, t1, t2, s.0, frontier, count, s.1, s.2, depth0, s.3, s.4, done, idx, succ, k)
    ensures var e := ExpandFrom(flights, t2, idx, count, succ, k, s);
            ExpandInv(flights, startCity, t1, t2, e.0, frontier, count, e.1, e.2, depth0, e.3, e.4, done, idx, succ, |succ|)
    decreases |succ| - k
  {
    if k < |succ| {
      var j := succ[k];
      if !s.1[j] && Connects(flights[idx], flights[j], t2) {
        ExpandTake(flights, startCity, t1, t2, s.0, frontier, count, s.1, s.2, depth0, s.3, s.4, done, idx, succ, k);
      } else {
        ExpandSkip(flights, startCity, t1, t2, s.0, frontier, count, s.1, s.2, depth0, s.3, s.4, done, idx, succ, k);
      }
      ExpandFromKeepsInv(flights, startCity, t1, t2, frontier, count, depth0, done, idx, succ, k + 1,
                         ExpandOne(flights, t2, idx, count, j, s));
    }
  }

  /** Expanding the dequeued flight `idx` on values: afterwards it is done,
      the invariant holds with the frontier past it, and the winner
      stands. */
  lemma ExpandStep(flights: seq<Flight>, startCity: int, t1: int, t2: int,
                   lst: seq<Item>, frontier: int, count: int,
                   visited: seq<bool>, prev: seq<Option<nat>>, depth: seq<int>, pos: seq<int>, done: seq<bool>,
                   idx: nat, succ: seq<nat>, endCity: int, best: Option<nat>, mincount: int, early: int)
    requires frontier < |lst| && idx < |flights|
    requires BfsInv(flights, startCity, t1, t2, lst, frontier, count, visited, prev, depth, pos, done)
    requires lst[frontier].0 == idx && depth[idx] == count && !done[idx]
    requires succ == Departing(flights, flights[idx].endCity)
    requires WinnerInv(flights, endCity, done[idx := true], depth, best, mincount, early)
    requires |lst| == CountTrue(visited)
    ensures Indices(flights, succ)
    ensures var e := ExpandFrom(flights, t2, idx, count, succ, 0, (lst, visited, prev, depth, pos));
            && BfsInv(flights, startCity, t1, t2, e.0, frontier + 1, count, e.1, e.2, e.3, e.4, done[idx := true])
            && WinnerInv(flights, endCity, done[idx := true], e.3, best, mincount, early)
            && |e.0| == CountTrue(e.1)
  {
    DepartingIndices(flights, flights[idx].endCity);
    ExpandStart(flights, startCity, t1, t2, lst, frontier, count, visited, prev, depth, pos, done, idx, succ);
    var s0: ExpandState := (lst, visited, prev, depth, pos);
    ExpandFromKeepsInv(flights, startCity, t1, t2, frontier, count, depth, done, idx, succ, 0, s0);
    var e := ExpandFrom(flights, t2, idx, count, succ, 0, s0);
    ExpandFinish(flights, startCity, t1, t2, e.0, frontier, count, e.1, e.2, depth, e.3, e.4, done, idx, succ,
                 endCity, best, mincount, early, frontier + 1, done[idx := true]);
  }

  /** The inner loop over the flights leaving the city where the dequeued
      flight `idx` lands: every unreached legal connection is reached from
      `idx` with one hop more and enqueued. Its effect is exactly
      `ExpandFrom` from the first of them. */
  method ExpandFlight(flights: seq<Flight>, t2: int,
                      queue: Queue<Item>, visited: array<bool>, prev: array<Option<nat>>,
                      idx: nat, count: int, succ: seq<nat>, ghost depth: seq<int>, ghost pos: seq<int>)
    returns (ghost depth': seq<int>, ghost pos': seq<int>)
    requires queue.Valid()
    requires visited.Length == prev.Length == |depth| == |pos| == |flights| && idx < |flights|
    requires Indices(flights, succ)
    modifies queue, visited, prev
    ensures queue.Valid() && queue.start == old(queue.start)
    ensures (queue.lst, visited[..], prev[..], depth', pos')
         == ExpandFrom(flights, t2, idx, count, succ, 0, (old(queue.lst), old(visited[..]), old(prev[..]), depth, pos))
  {
    var flight := flights[idx];
    depth', pos' := depth, pos;
    ghost var s0: ExpandState := (queue.lst, visited[..], prev[..], depth, pos);
    for k := 0 to |succ|
      invariant queue.Valid() && queue.start == old(queue.start)
      invariant |depth'| == |pos'| == |flights|
      invariant ExpandFrom(flights, t2, idx, count, succ, k, (queue.lst, visited[..], prev[..], depth', pos'))
             == ExpandFrom(flights, t2, idx, count, succ, 0, s0)
    {
      var j := succ[k];
      var nextFlight := flights[j];
      ghost var s: ExpandState := (queue.lst, visited[..], prev[..], depth', pos');
      if !visited[j] && flight.endCity == nextFlight.startCity
         && nextFlight.arrivalTime <= t2 && nextFlight.departureTime >= flight.arrivalTime + MinLayover {
        depth' := depth'[j := count + 1];
        pos' := pos'[j := |queue.lst|];
        queue.Enqueue((j, count + 1, nextFlight.arrivalTime));
        visited[j] := true;
        prev[j] := Some(idx);
      }
      assert (queue.lst, visited[..], prev[..], depth', pos') == ExpandOne(flights, t2, idx, count, j, s);
    }
  }

  /** One pass of the main loop's body: dequeue the front item, let its
      flight compete for the answer and expand it. The ghost parameters
      carry the level, hop counts, queue positions and done marks. */
  method DrainOnce(flights: seq<Flight>, startAdj: seq<seq<nat>>, startCity: int, endCity: int, t1: int, t2: int,
                   queue: Queue<Item>, visited: array<bool>, prev: array<Option<nat>>,
                   bestRoute: Option<nat>, mincount: int, early: int,
                   ghost level: int, ghost depth: seq<int>, ghost pos: seq<int>, ghost done: seq<bool>)
    returns (bestRoute': Option<nat>, mincount': int, early': int,
             ghost level': int, ghost depth': seq<int>, ghost pos': seq<int>, ghost done': seq<bool>)
    requires AllWellFormed(flights)
    requires forall c :: 0 <= c < |startAdj| ==> startAdj[c] == Departing(flights, c)
    requires forall i :: 0 <= i < |flights| ==> flights[i].endCity < |startAdj|
    requires queue.Valid() && queue.start < |queue.lst|
    requires visited.Length == prev.Length == |flights|
    requires BfsInv(flights, startCity, t1, t2, queue.lst, queue.start, level, visited[..], prev[..], depth, pos, done)
    requires WinnerInv(flights, endCity, done, depth, bestRoute, mincount, early)
    requires |queue.lst| == CountTrue(visited[..])
    modifies queue, visited, prev
    ensures queue.Valid() && queue.start == old(queue.start) + 1
    ensures BfsInv(flights, startCity, t1, t2, queue.lst, queue.start, level', visited[..], prev[..], depth', pos', done')
    ensures WinnerInv(flights, endCity, done', depth', bestRoute', mincount', early')
    ensures |queue.lst| == CountTrue(visited[..])
  {
    ghost var frontier := queue.start;
    ghost var lst0, vis0, prev0 := queue.lst, visited[..], prev[..];
    DequeueStep(flights, startCity, t1, t2, lst0, frontier, level, vis0, prev0, depth, pos, done);
    var item := queue.Dequeue();
    var (idx, count, time) := item.value;
    assert (idx, count, time) == lst0[frontier];
    var flight := flights[idx];
    bestRoute', mincount', early' := bestRoute, mincount, early;
    if flight.endCity == endCity {
      if bestRoute'.None? || count < mincount' || (count == mincount' && time < early') {
        bestRoute' := Some(idx);
        mincount' := count;
        early' := time;
      }
    }
    WinnerStep(flights, endCity, done, depth, bestRoute, mincount, early, idx, bestRoute', mincount', early');
    var succ := startAdj[flight.endCity];
    ExpandStep(flights, startCity, t1, t2, lst0, frontier, count, vis0, prev0, depth, pos, done, idx, succ,
               endCity, bestRoute', mincount', early');
    depth', pos' := ExpandFlight(flights, t2, queue, visited, prev, idx, count, succ, depth, pos);
    level', done' := count, done[idx := true];
  }

  /** The main loop: dequeue a flight, let it compete for the winner, expand
      it; when the queue is empty the winner's walk is a route to `endCity`
      with no more legs than any other. */
  method DrainQueue(flights: seq<Flight>, startAdj: seq<seq<nat>>, startCity: int, endCity: int, t1: int, t2: int,
                    queue: Queue<Item>, visited: array<bool>, prev: array<Option<nat>>,
                    ghost depth0: seq<int>, ghost pos0: seq<int>, ghost done0: seq<bool>)
    returns (bestRoute: Option<nat>)
    requires AllWellFormed(flights)
    requires forall c :: 0 <= c < |startAdj| ==> startAdj[c] == Departing(flights, c)
    requires forall i :: 0 <= i < |flights| ==> flights[i].endCity < |startAdj|
    requires queue.Valid() && queue.start == 0
    requires visited.Length == prev.Length == |flights|
    requires BfsInv(flights, startCity, t1, t2, queue.lst, 0, 1, visited[..], prev[..], depth0, pos0, done0)
    requires forall v :: 0 <= v < |flights| ==> !done0[v]
    requires |queue.lst| == CountTrue(visited[..])
    modifies queue, visited, prev
    ensures PrevRanked(prev[..], Arrivals(flights))
    ensures bestRoute.Some? ==>
              bestRoute.value < |flights| && RouteTo(flights, Walk(prev[..], Arrivals(flights), bestRoute.value), startCity, endCity, t1, t2)
    ensures forall r :: RouteTo(flights, r, startCity, endCity, t1, t2) ==>
              bestRoute.Some? && |Walk(prev[..], Arrivals(flights), bestRoute.value)| <= |r|
    ensures forall r :: RouteTo(flights, r, startCity, endCity, t1, t2) ==>
              bestRoute.Some? &&
              !LexLess((|r|, flights[r[|r| - 1]].arrivalTime),
                       (|Walk(prev[..], Arrivals(flights), bestRoute.value)|, flights[bestRoute.value].arrivalTime))
  {
    var n := |flights|;
    bestRoute := None;
    var mincount, early := 0, 0;
    ghost var depth, pos, done := depth0, pos0, done0;
    ghost var level := 1;

    while !queue.IsEmpty()
      invariant queue.Valid()
      invariant BfsInv(flights, startCity, t1, t2, queue.lst, queue.start, level, visited[..], prev[..], depth, pos, done)
      invariant WinnerInv(flights, endCity, done, depth, bestRoute, mincount, early)
      invariant |queue.lst| == CountTrue(visited[..])
      decreases n - queue.start
    {
      bestRoute, mincount, early, level, depth, pos, done :=
        DrainOnce(flights, startAdj, startCity, endCity, t1, t2, queue, visited, prev, bestRoute, mincount, early,
                  level, depth, pos, done);
    }

    SearchOutcome(flights, startCity, endCity, t1, t2, queue.lst, level, visited[..], prev[..], depth, pos, done,
                  bestRoute, mincount, early);
  }

  /** The whole search: a queue seeded with the first legs leaving
      `startCity`, drained to the end. */
  method FindRoute(flights: seq<Flight>, startAdj: seq<seq<nat>>, startCity: int, endCity: int, t1: int, t2: int)
    returns (prev: array<Option<nat>>, bestRoute: Option<nat>)
    requires AllWellFormed(flights)
    requires forall c :: 0 <= c < |startAdj| ==> startAdj[c] == Departing(flights, c)
    requires forall i :: 0 <= i < |flights| ==> flights[i].endCity < |startAdj|
    requires 0 <= startCity < |startAdj|
    ensures fresh(prev) && prev.Length == |flights|
    ensures PrevRanked(prev[..], Arrivals(flights))
    ensures bestRoute.Some? ==>
              bestRoute.value < |flights| && RouteTo(flights, Walk(prev[..], Arrivals(flights), bestRoute.value), startCity, endCity, t1, t2)
    ensures forall r :: RouteTo(flights, r, startCity, endCity, t1, t2) ==>
              bestRoute.Some? && |Walk(prev[..], Arrivals(flights), bestRoute.value)| <= |r|
    ensures forall r :: RouteTo(flights, r, startCity, endCity, t1, t2) ==>
              bestRoute.Some? &&
              !LexLess((|r|, flights[r[|r| - 1]].arrivalTime),
                       (|Walk(prev[..], Arrivals(flights), bestRoute.value)|, flights[bestRoute.value].arrivalTime))
  {
    var n := |flights|;
    var queue := new Queue<Item>();
    prev := new Option<nat>[n](_ => None);
    var visited := new bool[n](_ => false);
    ghost var depth, pos, done := SeedSearch(flights, startCity, t1, t2, startAdj[startCity], queue, visited, prev);
    bestRoute := DrainQueue(flights, startAdj, startCity, endCity, t1, t2, queue, visited, prev, depth, pos, done);
  }
}
