/** The fewest-legs-then-cheapest search as the planner performs it: lazy
    label setting over flights, ordered by the pair (legs, fare). A heap
    entry is (legs, fare, flight index). Every relaxation inserts a fresh
    entry and overwrites the target's link without comparing labels, so a
    link may end up pointing at a predecessor other than the one the
    target's winning entry came through; the lemma
    `PrevOverwriteCounterexample` exhibits this. */
module HopsThenFare {
  import opened Options
  import opened Flights
  import opened Paths
  import opened SearchFacts
  import opened MinHeap

  type Label = (int, int, nat)

  /** The (legs, fare) pair an entry is ordered by. */
  function Key(e: Label): (int, int) {
    (e.0, e.1)
  }

  /** The search's comparison: fewer legs first, then the lower fare. */
  predicate ByHopsThenFare(a: Label, b: Label) {
    LexLess(Key(a), Key(b))
  }

  lemma ByHopsThenFareIsStrictWeakOrder()
    ensures StrictWeakOrder(ByHopsThenFare)
  {
  }

  /** The entries the seeding loop adds for `seeds[k..]`: (1, fare, i) for
      every listed flight inside the time window. */
  function SeedFrom(flights: seq<Flight>, t1: int, t2: int, seeds: seq<nat>, k: nat, entries: multiset<Label>)
    : multiset<Label>
    requires Indices(flights, seeds) && k <= |seeds|
    decreases |seeds| - k
  {
    if k == |seeds| then entries
    else
      var f := flights[seeds[k]];
      SeedFrom(flights, t1, t2, seeds, k + 1,
               if t1 <= f.departureTime && f.arrivalTime <= t2 then entries + multiset{(1, f.fare, seeds[k])} else entries)
  }

  /** The link array and the heap's contents: what relaxation changes. */
  type Links = (seq<Option<nat>>, multiset<Label>)

  /** One pass of the relaxation loop for flight `j` after settling `top`:
      an unsettled flight that connects gets a new entry one leg and its
      fare above `top`, and its link is overwritten with `top`'s flight. */
  function RelaxOne(flights: seq<Flight>, t2: int, visited: seq<bool>, top: Label, j: nat, s: Links): (s': Links)
    requires top.2 < |flights| && j < |flights| && |visited| == |flights| && |s.0| == |flights|
    ensures |s'.0| == |flights|
  {
    if !visited[j] && Connects(flights[top.2], flights[j], t2)
    then (s.0[j := Some(top.2)], s.1 + multiset{(top.0 + 1, top.1 + flights[j].fare, j)})
    else s
  }

  /** The relaxation loop over `succ[k..]`, starting in state `s`. */
  function RelaxFrom(flights: seq<Flight>, t2: int, visited: seq<bool>, top: Label, succ: seq<nat>, k: nat, s: Links)
    : (s': Links)
    requires top.2 < |flights| && |visited| == |flights| && |s.0| == |flights|
    requires Indices(flights, succ) && k <= |succ|
    ensures |s'.0| == |flights|
    decreases |succ| - k
  {
    if k == |succ| then s
    else RelaxFrom(flights, t2, visited, top, succ, k + 1, RelaxOne(flights, t2, visited, top, succ[k], s))
  }

  /** The state of the main loop apart from the heap's layout; `best` is
      None while the winner's legs and fare are still infinite. */
  datatype Search = Search(prev: seq<Option<nat>>, visited: seq<bool>, entries: multiset<Label>,
                           best: Option<nat>, numb: int, mincost: int)

  /** Settling `top` makes it the new winner: it lands in `endCity` and has
      fewer legs than the winner, or as many and a lower fare. */
  predicate Wins(flights: seq<Flight>, endCity: int, top: Label, s: Search)
    requires top.2 < |flights| && |s.visited| == |flights|
  {
    && !s.visited[top.2]
    && flights[top.2].endCity == endCity
    && (s.best.None? || top.0 < s.numb || (top.0 == s.numb && top.1 < s.mincost))
  }

  /** One pass of the main loop's body once `top` has been extracted and the
      heap holds `s.entries`: a settled flight is skipped; otherwise it is
      settled, may become the winner, and is relaxed. */
  function Step(flights: seq<Flight>, endCity: int, t2: int, top: Label, s: Search): (s': Search)
    requires top.2 < |flights| && |s.prev| == |s.visited| == |flights|
    ensures |s'.prev| == |s'.visited| == |flights|
  {
    if s.visited[top.2] then s
    else
      var win := Wins(flights, endCity, top, s);
      var visited := s.visited[top.2 := true];
      DepartingIndices(flights, flights[top.2].endCity);
      var r := RelaxFrom(flights, t2, visited, top, Departing(flights, flights[top.2].endCity), 0, (s.prev, s.entries));
      Search(r.0, visited, r.1,
             if win then Some(top.2) else s.best,
             if win then top.0 else s.numb,
             if win then top.1 else s.mincost)
  }

  /** Every entry names a flight that opens the itinerary or carries a link,
      and none lies below the current level. */
  ghost predicate EntriesRooted(flights: seq<Flight>, startCity: int, t1: int, t2: int, entries: multiset<Label>,
                                prev: seq<Option<nat>>, level: (int, int))
    requires |prev| == |flights|
  {
    forall e :: e in entries ==>
      e.2 < |flights| && (FirstLeg(flights[e.2], startCity, t1, t2) || prev[e.2].Some?) && !LexLess(Key(e), level)
  }

  /** `settled` lists the settled flights with the entries that settled
      them, in the order of settling: as many as are marked, all distinct,
      in non-decreasing (legs, fare) order. */
  ghost predicate SettledInOrder(flights: seq<Flight>, settled: seq<Label>, visited: seq<bool>)
    requires |visited| == |flights|
  {
    && |settled| == CountTrue(visited)
    && (forall i :: 0 <= i < |settled| ==> settled[i].2 < |flights| && visited[settled[i].2])
    && (forall i, j :: 0 <= i < j < |settled| ==>
          settled[i].2 != settled[j].2 && !LexLess(Key(settled[j]), Key(settled[i])))
  }

  /** The invariant of the main loop at `level`, the label of the entry
      extracted last. */
  ghost predicate HopInv(flights: seq<Flight>, startCity: int, t1: int, t2: int, entries: multiset<Label>,
                         level: (int, int), prev: seq<Option<nat>>, visited: seq<bool>, settled: seq<Label>)
  {
    && AllWellFormed(flights)
    && |prev| == |visited| == |flights|
    && LinksConnect(flights, prev, t2)
    && RootedInFirstLegs(flights, prev, visited, startCity, t1, t2)
    && (forall v :: 0 <= v < |flights| && prev[v].Some? ==> prev[v].value < |flights| && visited[prev[v].value])
    && EntriesRooted(flights, startCity, t1, t2, entries, prev, level)
    && SettledInOrder(flights, settled, visited)
    && (forall i :: 0 <= i < |settled| ==> !LexLess(level, Key(settled[i])))
  }

  /** The winner is the flight of the settled entry `settled[bestAt]`, whose
      label is (numb, mincost), and no settled flight landing in `endCity`
      has a smaller label. */
  ghost predicate HopWinner(flights: seq<Flight>, endCity: int, settled: seq<Label>,
                            best: Option<nat>, numb: int, mincost: int, bestAt: int)
  {
    && (best.Some? ==>
          && 0 <= bestAt < |settled| && settled[bestAt] == (numb, mincost, best.value)
          && best.value < |flights| && flights[best.value].endCity == endCity)
    && (forall i :: 0 <= i < |settled| && settled[i].2 < |flights| && flights[settled[i].2].endCity == endCity ==>
          best.Some? && !LexLess(Key(settled[i]), (numb, mincost)))
  }

  /** The seeded entries are first legs with one leg and their own fare,
      lying above the initial level (0, 0). */
  lemma {:induction false} SeedFromRooted(flights: seq<Flight>, startCity: int, t1: int, t2: int, seeds: seq<nat>,
                                          k: nat, entries: multiset<Label>)
    requires AllWellFormed(flights) && seeds == Departing(flights, startCity)
    requires Indices(flights, seeds) && k <= |seeds|
    requires forall e :: e in entries ==>
               e.2 < |flights| && FirstLeg(flights[e.2], startCity, t1, t2) && e == (1, flights[e.2].fare, e.2)
    ensures forall e :: e in SeedFrom(flights, t1, t2, seeds, k, entries) ==>
              e.2 < |flights| && FirstLeg(flights[e.2], startCity, t1, t2) && e == (1, flights[e.2].fare, e.2)
    decreases |seeds| - k
  {
    if k < |seeds| {
      var i := seeds[k];
      DepartingMembers(flights, startCity, |flights|, i);
      var f := flights[i];
      var entries' := if t1 <= f.departureTime && f.arrivalTime <= t2 then entries + multiset{(1, f.fare, i)} else entries;
      SeedFromRooted(flights, startCity, t1, t2, seeds, k + 1, entries');
    }
  }

  /** Before the main loop: nothing settled, no links, seeded entries. */
  lemma SeedInv(flights: seq<Flight>, startCity: int, t1: int, t2: int, seeds: seq<nat>, prev: seq<Option<nat>>,
                visited: seq<bool>)
    requires AllWellFormed(flights) && seeds == Departing(flights, startCity)
    requires |prev| == |visited| == |flights|
    requires forall v :: 0 <= v < |flights| ==> prev[v].None? && !visited[v]
    ensures Indices(flights, seeds)
    ensures HopInv(flights, startCity, t1, t2, SeedFrom(flights, t1, t2, seeds, 0, multiset{}), (0, 0), prev, visited, [])
  {
    DepartingIndices(flights, startCity);
    SeedFromRooted(flights, startCity, t1, t2, seeds, 0, multiset{});
    CountTrueNone(visited);
  }

  /** Relaxing one flight keeps the invariant at the level of the settled
      entry `top`. */
  lemma RelaxOneKeepsInv(flights: seq<Flight>, startCity: int, t1: int, t2: int, visited: seq<bool>, top: Label,
                         settled: seq<Label>, j: nat, s: Links)
    requires HopInv(flights, startCity, t1, t2, s.1, Key(top), s.0, visited, settled)
    requires top.2 < |flights| && visited[top.2] && j < |flights|
    ensures HopInv(flights, startCity, t1, t2, RelaxOne(flights, t2, visited, top, j, s).1, Key(top),
                   RelaxOne(flights, t2, visited, top, j, s).0, visited, settled)
  {
    if !visited[j] && Connects(flights[top.2], flights[j], t2) {
      var s' := RelaxOne(flights, t2, visited, top, j, s);
      var added := (top.0 + 1, top.1 + flights[j].fare, j);
      forall e | e in s'.1
        ensures e.2 < |flights| && (FirstLeg(flights[e.2], startCity, t1, t2) || s'.0[e.2].Some?)
        ensures !LexLess(Key(e), Key(top))
      {
        if e != added {
          assert e in s.1;
        }
      }
    }
  }

  lemma {:induction false} RelaxFromKeepsInv(flights: seq<Flight>, startCity: int, t1: int, t2: int,
                                             visited: seq<bool>, top: Label, settled: seq<Label>,
                                             succ: seq<nat>, k: nat, s: Links)
    requires HopInv(flights, startCity, t1, t2, s.1, Key(top), s.0, visited, settled)
    requires top.2 < |flights| && visited[top.2] && Indices(flights, succ) && k <= |succ|
    ensures HopInv(flights, startCity, t1, t2, RelaxFrom(flights, t2, visited, top, succ, k, s).1, Key(top),
                   RelaxFrom(flights, t2, visited, top, succ, k, s).0, visited, settled)
    decreases |succ| - k
  {
    if k < |succ| {
      RelaxOneKeepsInv(flights, startCity, t1, t2, visited, top, settled, succ[k], s);
      RelaxFromKeepsInv(flights, startCity, t1, t2, visited, top, settled, succ, k + 1,
                        RelaxOne(flights, t2, visited, top, succ[k], s));
    }
  }

  /** Skipping a settled entry keeps the invariant, the level rising to the
      skipped entry's label. */
  lemma StaleKeepsInv(flights: seq<Flight>, startCity: int, t1: int, t2: int, top: Label, s: Search,
                      level: (int, int), settled: seq<Label>)
    requires HopInv(flights, startCity, t1, t2, s.entries + multiset{top}, level, s.prev, s.visited, settled)
    requires forall e :: e in s.entries ==> !ByHopsThenFare(e, top)
    ensures HopInv(flights, startCity, t1, t2, s.entries, Key(top), s.prev, s.visited, settled)
  {
    assert top in s.entries + multiset{top};
    forall e | e in s.entries
      ensures e.2 < |flights| && (FirstLeg(flights[e.2], startCity, t1, t2) || s.prev[e.2].Some?)
    {
      assert e in s.entries + multiset{top};
    }
  }

  /** Settling `top`: the invariant holds with `top` appended to the settled
      entries. */
  lemma SettleKeepsInv(flights: seq<Flight>, startCity: int, t1: int, t2: int, top: Label, s: Search,
                       level: (int, int), settled: seq<Label>)
    requires HopInv(flights, startCity, t1, t2, s.entries + multiset{top}, level, s.prev, s.visited, settled)
    requires forall e :: e in s.entries ==> !ByHopsThenFare(e, top)
    requires top.2 < |flights| && !s.visited[top.2]
    ensures HopInv(flights, startCity, t1, t2, s.entries, Key(top), s.prev, s.visited[top.2 := true], settled + [top])
  {
    StaleKeepsInv(flights, startCity, t1, t2, top, s, level, settled);
    assert top in s.entries + multiset{top};
    CountTrueSet(s.visited, top.2);
  }

  /** The winner rule keeps the winner minimal among the settled entries
      once `top`, no smaller than any of them, joins them. */
  lemma SettleWinner(flights: seq<Flight>, endCity: int, top: Label, s: Search, settled: seq<Label>, bestAt: int)
    requires |s.visited| == |flights| && top.2 < |flights|
    requires HopWinner(flights, endCity, settled, s.best, s.numb, s.mincost, bestAt)
    requires forall i :: 0 <= i < |settled| ==> !LexLess(Key(top), Key(settled[i]))
    ensures Wins(flights, endCity, top, s) ==>
              HopWinner(flights, endCity, settled + [top], Some(top.2), top.0, top.1, |settled|)
    ensures !s.visited[top.2] && !Wins(flights, endCity, top, s) ==>
              HopWinner(flights, endCity, settled + [top], s.best, s.numb, s.mincost, bestAt)
  {
  }

  /** One pass of the main loop keeps the invariant and the winner, and
      either settles one more flight or leaves the state as it was. */
  lemma StepKeepsInv(flights: seq<Flight>, startCity: int, endCity: int, t1: int, t2: int, top: Label, s: Search,
                     level: (int, int), settled: seq<Label>, bestAt: int)
    requires HopInv(flights, startCity, t1, t2, s.entries + multiset{top}, level, s.prev, s.visited, settled)
    requires HopWinner(flights, endCity, settled, s.best, s.numb, s.mincost, bestAt)
    requires forall e :: e in s.entries ==> !ByHopsThenFare(e, top)
    requires top.2 < |flights|
    ensures var s' := Step(flights, endCity, t2, top, s);
            var settled' := if s.visited[top.2] then settled else settled + [top];
            var bestAt' := if Wins(flights, endCity, top, s) then |settled| else bestAt;
            && HopInv(flights, startCity, t1, t2, s'.entries, Key(top), s'.prev, s'.visited, settled')
            && HopWinner(flights, endCity, settled', s'.best, s'.numb, s'.mincost, bestAt')
            && (if s.visited[top.2] then s' == s else CountTrue(s'.visited) == CountTrue(s.visited) + 1)
  {
    if s.visited[top.2] {
      StaleKeepsInv(flights, startCity, t1, t2, top, s, level, settled);
    } else {
      SettleKeepsInv(flights, startCity, t1, t2, top, s, level, settled);
      SettleWinner(flights, endCity, top, s, settled, bestAt);
      var visited := s.visited[top.2 := true];
      DepartingIndices(flights, flights[top.2].endCity);
      RelaxFromKeepsInv(flights, startCity, t1, t2, visited, top, settled + [top],
                        Departing(flights, flights[top.2].endCity), 0, (s.prev, s.entries));
    }
  }

  /** When the heap runs dry, the winner's links spell a legal route to
      `endCity`. */
  lemma WinnerRoute(flights: seq<Flight>, startCity: int, endCity: int, t1: int, t2: int,
                    level: (int, int), prev: seq<Option<nat>>, visited: seq<bool>, settled: seq<Label>,
                    best: Option<nat>, numb: int, mincost: int, bestAt: int)
    requires HopInv(flights, startCity, t1, t2, multiset{}, level, prev, visited, settled)
    requires HopWinner(flights, endCity, settled, best, numb, mincost, bestAt)
    ensures PrevRanked(prev, Arrivals(flights))
    ensures best.Some? ==> best.value < |flights| && RouteTo(flights, Walk(prev, Arrivals(flights), best.value), startCity, endCity, t1, t2)
  {
    LinksRanked(flights, prev, t2);
    if best.Some? {
      WalkIsRoute(flights, prev, visited, startCity, t1, t2, best.value);
    }
  }

  /* What the labels mean. The links aside, the as-written search is lazy
     label setting over (legs, fare) pairs: every label it queues or settles
     belongs to a route, and flights are settled with their smallest label.
     `lab[v]` is the ghost label a settled flight v was settled with. None of
     this mentions the links, which is why the winner's label is right even
     where its links are not. */

  /** Some route ending with flight `v` has `key.0` legs and fare `key.1`. */
  ghost predicate Achieved(flights: seq<Flight>, startCity: int, t1: int, t2: int, v: nat, key: (int, int)) {
    exists r :: RouteEndsAt(flights, r, v, startCity, t1, t2) && |r| == key.0 && RouteFare(flights, r) == key.1
  }

  /** A first leg on its own is a route of one leg at its own fare. */
  lemma AchievedFirstLeg(flights: seq<Flight>, startCity: int, t1: int, t2: int, v: nat)
    requires v < |flights| && FirstLeg(flights[v], startCity, t1, t2)
    ensures Achieved(flights, startCity, t1, t2, v, (1, flights[v].fare))
  {
    var r := [v];
    assert r[..0] == [];
    assert RouteEndsAt(flights, r, v, startCity, t1, t2) && RouteFare(flights, r) == flights[v].fare;
  }

  /** A route ending with `u`, extended by a flight `v` that connects to
      it, has one leg and `v`'s fare more. */
  lemma AchievedSnoc(flights: seq<Flight>, startCity: int, t1: int, t2: int, u: nat, key: (int, int), v: nat)
    requires Achieved(flights, startCity, t1, t2, u, key)
    requires u < |flights| && v < |flights| && Connects(flights[u], flights[v], t2)
    ensures Achieved(flights, startCity, t1, t2, v, (key.0 + 1, key.1 + flights[v].fare))
  {
    var r :| RouteEndsAt(flights, r, u, startCity, t1, t2) && |r| == key.0 && RouteFare(flights, r) == key.1;
    RouteSnoc(flights, r, v, startCity, t1, t2);
    assert RouteEndsAt(flights, r + [v], v, startCity, t1, t2);
  }

  /** Every entry names a flight, lies at or above the level, and carries
      the legs and fare of some route ending with its flight. */
  ghost predicate EntriesAchieved(flights: seq<Flight>, startCity: int, t1: int, t2: int, entries: multiset<Label>,
                                  level: (int, int)) {
    forall e :: e in entries ==>
      e.2 < |flights| && !LexLess(Key(e), level) && Achieved(flights, startCity, t1, t2, e.2, Key(e))
  }

  /** Every settled flight's label belongs to a route ending with it. */
  ghost predicate SettledAchieved(flights: seq<Flight>, startCity: int, t1: int, t2: int,
                                  visited: seq<bool>, lab: seq<(int, int)>)
    requires |visited| == |lab| == |flights|
  {
    forall v :: 0 <= v < |flights| && visited[v] ==> Achieved(flights, startCity, t1, t2, v, lab[v])
  }

  /** Flights are settled in label order: none above the level. */
  ghost predicate SettledBelow(flights: seq<Flight>, visited: seq<bool>, lab: seq<(int, int)>, level: (int, int))
    requires |visited| == |lab| == |flights|
  {
    forall v :: 0 <= v < |flights| && visited[v] ==> !LexLess(level, lab[v])
  }

  /** Every unsettled first leg waits in the heap with its seed entry. */
  ghost predicate FirstLegsQueued(flights: seq<Flight>, startCity: int, t1: int, t2: int,
                                  entries: multiset<Label>, visited: seq<bool>)
    requires |visited| == |flights|
  {
    forall v :: 0 <= v < |flights| && FirstLeg(flights[v], startCity, t1, t2) && !visited[v] ==>
      (1, flights[v].fare, v) in entries
  }

  /** Every unsettled legal connection of the settled flight `u` waits in
      the heap with the entry `u`'s relaxation queued for it. */
  ghost predicate ConnectionsQueued(flights: seq<Flight>, t2: int, entries: multiset<Label>,
                                    visited: seq<bool>, lab: seq<(int, int)>, u: nat)
    requires |visited| == |lab| == |flights| && u < |flights|
  {
    forall x :: 0 <= x < |flights| && !visited[x] && Connects(flights[u], flights[x], t2) ==>
      (lab[u].0 + 1, lab[u].1 + flights[x].fare, x) in entries
  }

  /** Every settled flight other than `except` (the one being relaxed) has
      been relaxed. */
  ghost predicate SettledRelaxed(flights: seq<Flight>, t2: int, entries: multiset<Label>,
                                 visited: seq<bool>, lab: seq<(int, int)>, except: int)
    requires |visited| == |lab| == |flights|
  {
    forall u :: 0 <= u < |flights| && visited[u] && u != except ==> ConnectionsQueued(flights, t2, entries, visited, lab, u)
  }

  /** No route ending with a settled flight has a smaller (legs, fare) pair
      than the flight's label. */
  ghost predicate SettledOptimal(flights: seq<Flight>, startCity: int, t1: int, t2: int,
                                 visited: seq<bool>, lab: seq<(int, int)>)
    requires |visited| == |lab| == |flights|
  {
    forall v, r :: 0 <= v < |flights| && visited[v] && RouteEndsAt(flights, r, v, startCity, t1, t2) ==>
      !LexLess((|r|, RouteFare(flights, r)), lab[v])
  }

  /** The invariant of the main loop about labels, at `level`, with the
      settled flight `except` still to be relaxed. */
  ghost predicate LabelInv(flights: seq<Flight>, startCity: int, t1: int, t2: int, entries: multiset<Label>,
                           level: (int, int), visited: seq<bool>, lab: seq<(int, int)>, except: int) {
    && |visited| == |lab| == |flights|
    && EntriesAchieved(flights, startCity, t1, t2, entries, level)
    && SettledAchieved(flights, startCity, t1, t2, visited, lab)
    && SettledBelow(flights, visited, lab, level)
    && FirstLegsQueued(flights, startCity, t1, t2, entries, visited)
    && SettledRelaxed(flights, t2, entries, visited, lab, except)
    && SettledOptimal(flights, startCity, t1, t2, visited, lab)
  }

  /** The winner is a settled flight landing in `endCity` with the label
      (numb, mincost), and no settled flight landing there has a smaller
      label. */
  ghost predicate LabelWinner(flights: seq<Flight>, endCity: int, visited: seq<bool>, lab: seq<(int, int)>,
                              best: Option<nat>, numb: int, mincost: int)
    requires |visited| == |lab| == |flights|
  {
    && (best.Some? ==>
          && best.value < |flights| && visited[best.value] && flights[best.value].endCity == endCity
          && lab[best.value] == (numb, mincost))
    && forall v :: 0 <= v < |flights| && visited[v] && flights[v].endCity == endCity ==>
         best.Some? && !LexLess(lab[v], (numb, mincost))
  }

  /** Seeding keeps what was queued and queues every first leg listed in
      `seeds[k..]`. */
  lemma {:induction false} SeedFromComplete(flights: seq<Flight>, t1: int, t2: int, seeds: seq<nat>, k: nat,
                                            entries: multiset<Label>, v: nat)
    requires Indices(flights, seeds) && k <= |seeds|
    requires v < |flights|
    requires (v in seeds[k..] && t1 <= flights[v].departureTime && flights[v].arrivalTime <= t2)
             || (1, flights[v].fare, v) in entries
    ensures (1, flights[v].fare, v) in SeedFrom(flights, t1, t2, seeds, k, entries)
    decreases |seeds| - k
  {
    if k < |seeds| {
      var f := flights[seeds[k]];
      var entries' := if t1 <= f.departureTime && f.arrivalTime <= t2 then entries + multiset{(1, f.fare, seeds[k])}
                      else entries;
      if v != seeds[k] && (1, flights[v].fare, v) !in entries {
        assert v in seeds[k + 1..];
      }
      SeedFromComplete(flights, t1, t2, seeds, k + 1, entries', v);
    }
  }

  /** Before the main loop: nothing settled, every seed entry a one-leg
      route, and every first leg queued. */
  lemma SeedLabels(flights: seq<Flight>, startCity: int, t1: int, t2: int, seeds: seq<nat>,
                   visited: seq<bool>, lab: seq<(int, int)>)
    requires AllWellFormed(flights) && seeds == Departing(flights, startCity)
    requires |visited| == |lab| == |flights|
    requires forall v :: 0 <= v < |flights| ==> !visited[v]
    ensures Indices(flights, seeds)
    ensures LabelInv(flights, startCity, t1, t2, SeedFrom(flights, t1, t2, seeds, 0, multiset{}), (0, 0), visited, lab, -1)
  {
    DepartingIndices(flights, startCity);
    var entries := SeedFrom(flights, t1, t2, seeds, 0, multiset{});
    SeedFromRooted(flights, startCity, t1, t2, seeds, 0, multiset{});
    forall e | e in entries
      ensures Achieved(flights, startCity, t1, t2, e.2, Key(e))
    {
      AchievedFirstLeg(flights, startCity, t1, t2, e.2);
    }
    forall v | 0 <= v < |flights| && FirstLeg(flights[v], startCity, t1, t2) && !visited[v]
      ensures (1, flights[v].fare, v) in entries
    {
      DepartingMembers(flights, startCity, |flights|, v);
      assert seeds[0..] == seeds;
      SeedFromComplete(flights, t1, t2, seeds, 0, multiset{}, v);
    }
  }

  /** A route ending with an unsettled flight has no smaller (legs, fare)
      pair than some entry waiting in the heap. */
  lemma {:induction false} FrontierEntry(flights: seq<Flight>, startCity: int, t1: int, t2: int,
                                         entries: multiset<Label>, visited: seq<bool>, lab: seq<(int, int)>,
                                         r: seq<nat>)
    returns (e: Label)
    requires |visited| == |lab| == |flights|
    requires FirstLegsQueued(flights, startCity, t1, t2, entries, visited)
    requires SettledRelaxed(flights, t2, entries, visited, lab, -1)
    requires SettledOptimal(flights, startCity, t1, t2, visited, lab)
    requires IsRoute(flights, r, startCity, t1, t2) && !visited[r[|r| - 1]]
    ensures e in entries && !LexLess((|r|, RouteFare(flights, r)), Key(e))
    decreases |r|
  {
    var x := r[|r| - 1];
    assert RouteFare(flights, r) == RouteFare(flights, r[..|r| - 1]) + flights[x].fare;
    if |r| == 1 {
      assert r[..0] == [];
      e := (1, flights[x].fare, x);
    } else {
      RoutePrefix(flights, r, startCity, t1, t2);
      var p := r[..|r| - 1];
      var w := r[|r| - 2];
      assert p[|p| - 1] == w;
      if visited[w] {
        assert ConnectionsQueued(flights, t2, entries, visited, lab, w);
        assert RouteEndsAt(flights, p, w, startCity, t1, t2);
        e := (lab[w].0 + 1, lab[w].1 + flights[x].fare, x);
      } else {
        e := FrontierEntry(flights, startCity, t1, t2, entries, visited, lab, p);
      }
    }
  }

  /** Taking out an entry of a settled flight changes nothing but the
      level. */
  lemma StaleLabels(flights: seq<Flight>, startCity: int, t1: int, t2: int, top: Label,
                    rest: multiset<Label>, level: (int, int), visited: seq<bool>, lab: seq<(int, int)>)
    requires LabelInv(flights, startCity, t1, t2, rest + multiset{top}, level, visited, lab, -1)
    requires forall e :: e in rest ==> !ByHopsThenFare(e, top)
    requires top.2 < |flights| && visited[top.2]
    ensures LabelInv(flights, startCity, t1, t2, rest, Key(top), visited, lab, -1)
  {
    var entries := rest + multiset{top};
    assert top in entries;
    forall e | e in rest
      ensures e in entries
    {
    }
    forall v | 0 <= v < |flights| && FirstLeg(flights[v], startCity, t1, t2) && !visited[v]
      ensures (1, flights[v].fare, v) in rest
    {
      assert (1, flights[v].fare, v) in entries;
    }
    forall u, x | 0 <= u < |flights| && visited[u] && 0 <= x < |flights| && !visited[x] && Connects(flights[u], flights[x], t2)
      ensures (lab[u].0 + 1, lab[u].1 + flights[x].fare, x) in rest
    {
      assert ConnectionsQueued(flights, t2, entries, visited, lab, u);
    }
  }

  /** Settling `top`'s flight with `top`'s label: no route ending with it
      has a smaller (legs, fare) pair. */
  lemma SettleOptimal(flights: seq<Flight>, startCity: int, t1: int, t2: int, top: Label,
                      rest: multiset<Label>, visited: seq<bool>, lab: seq<(int, int)>)
    requires |visited| == |lab| == |flights|
    requires FirstLegsQueued(flights, startCity, t1, t2, rest + multiset{top}, visited)
    requires SettledRelaxed(flights, t2, rest + multiset{top}, visited, lab, -1)
    requires SettledOptimal(flights, startCity, t1, t2, visited, lab)
    requires forall e :: e in rest ==> !ByHopsThenFare(e, top)
    requires top.2 < |flights| && !visited[top.2]
    ensures SettledOptimal(flights, startCity, t1, t2, visited[top.2 := true], lab[top.2 := Key(top)])
  {
    var visited', lab' := visited[top.2 := true], lab[top.2 := Key(top)];
    forall v, r | 0 <= v < |flights| && visited'[v] && RouteEndsAt(flights, r, v, startCity, t1, t2)
      ensures !LexLess((|r|, RouteFare(flights, r)), lab'[v])
    {
      if v == top.2 {
        var e := FrontierEntry(flights, startCity, t1, t2, rest + multiset{top}, visited, lab, r);
        assert e == top || e in rest;
      } else {
        assert visited[v];
      }
    }
  }

  /** The entries left after taking out `top` keep their routes and lie
      above `top`'s label, which the newly settled flight takes together
      with `top`'s route. */
  lemma SettleEntries(flights: seq<Flight>, startCity: int, t1: int, t2: int, top: Label,
                      rest: multiset<Label>, level: (int, int), visited: seq<bool>, lab: seq<(int, int)>)
    requires |visited| == |lab| == |flights|
    requires EntriesAchieved(flights, startCity, t1, t2, rest + multiset{top}, level)
    requires SettledAchieved(flights, startCity, t1, t2, visited, lab)
    requires SettledBelow(flights, visited, lab, level)
    requires forall e :: e in rest ==> !ByHopsThenFare(e, top)
    requires top.2 < |flights| && !visited[top.2]
    ensures EntriesAchieved(flights, startCity, t1, t2, rest, Key(top))
    ensures SettledAchieved(flights, startCity, t1, t2, visited[top.2 := true], lab[top.2 := Key(top)])
    ensures SettledBelow(flights, visited[top.2 := true], lab[top.2 := Key(top)], Key(top))
  {
    assert top in rest + multiset{top};
    forall e | e in rest
      ensures e in rest + multiset{top}
    {
    }
  }

  /** Every first leg and every relaxed connection still waiting stays in
      the heap, since only `top`'s flight loses entries by settling. */
  lemma SettleQueued(flights: seq<Flight>, startCity: int, t1: int, t2: int, top: Label,
                     rest: multiset<Label>, visited: seq<bool>, lab: seq<(int, int)>)
    requires |visited| == |lab| == |flights|
    requires FirstLegsQueued(flights, startCity, t1, t2, rest + multiset{top}, visited)
    requires SettledRelaxed(flights, t2, rest + multiset{top}, visited, lab, -1)
    requires top.2 < |flights| && !visited[top.2]
    ensures FirstLegsQueued(flights, startCity, t1, t2, rest, visited[top.2 := true])
    ensures SettledRelaxed(flights, t2, rest, visited[top.2 := true], lab[top.2 := Key(top)], top.2)
  {
    var entries := rest + multiset{top};
    var visited', lab' := visited[top.2 := true], lab[top.2 := Key(top)];
    forall v | 0 <= v < |flights| && FirstLeg(flights[v], startCity, t1, t2) && !visited'[v]
      ensures (1, flights[v].fare, v) in rest
    {
      assert (1, flights[v].fare, v) in entries;
    }
    forall u | 0 <= u < |flights| && visited'[u] && u != top.2
      ensures ConnectionsQueued(flights, t2, rest, visited', lab', u)
    {
      assert ConnectionsQueued(flights, t2, entries, visited, lab, u);
      forall x | 0 <= x < |flights| && !visited'[x] && Connects(flights[u], flights[x], t2)
        ensures (lab'[u].0 + 1, lab'[u].1 + flights[x].fare, x) in rest
      {
        assert (lab[u].0 + 1, lab[u].1 + flights[x].fare, x) in entries;
      }
    }
  }

  /** Taking out the first entry of an unsettled flight settles it with its
      entry's label, which belongs to a route and is the smallest any route
      to it has; only its own relaxation is outstanding. */
  lemma SettleLabels(flights: seq<Flight>, startCity: int, t1: int, t2: int, top: Label,
                     rest: multiset<Label>, level: (int, int), visited: seq<bool>, lab: seq<(int, int)>)
    requires LabelInv(flights, startCity, t1, t2, rest + multiset{top}, level, visited, lab, -1)
    requires forall e :: e in rest ==> !ByHopsThenFare(e, top)
    requires top.2 < |flights| && !visited[top.2]
    ensures LabelInv(flights, startCity, t1, t2, rest, Key(top), visited[top.2 := true], lab[top.2 := Key(top)], top.2)
  {
    SettleEntries(flights, startCity, t1, t2, top, rest, level, visited, lab);
    SettleQueued(flights, startCity, t1, t2, top, rest, visited, lab);
    SettleOptimal(flights, startCity, t1, t2, top, rest, visited, lab);
  }

  /** The winner rule keeps the winner minimal among the settled flights
      once `top`'s flight, settled with `top`'s label, joins them. */
  lemma SettleLabelWinner(flights: seq<Flight>, endCity: int, top: Label, s: Search, lab: seq<(int, int)>)
    requires |s.visited| == |lab| == |flights| && top.2 < |flights| && !s.visited[top.2]
    requires LabelWinner(flights, endCity, s.visited, lab, s.best, s.numb, s.mincost)
    requires forall v :: 0 <= v < |flights| && s.visited[v] ==> !LexLess(Key(top), lab[v])
    ensures Wins(flights, endCity, top, s) ==>
              LabelWinner(flights, endCity, s.visited[top.2 := true], lab[top.2 := Key(top)], Some(top.2), top.0, top.1)
    ensures !Wins(flights, endCity, top, s) ==>
              LabelWinner(flights, endCity, s.visited[top.2 := true], lab[top.2 := Key(top)], s.best, s.numb, s.mincost)
  {
  }

  /** An entry the relaxation of `top` queues: a connection of `top`'s
      flight, one leg and that flight's fare above `top`'s label. */
  ghost predicate QueuedFrom(flights: seq<Flight>, t2: int, top: Label, e: Label) {
    && top.2 < |flights| && e.2 < |flights| && Connects(flights[top.2], flights[e.2], t2)
    && e == (top.0 + 1, top.1 + flights[e.2].fare, e.2)
  }

  /** The relaxation loop's effect on the entries after `k` of the flights
      in `succ`: it has only added, to the entries `base` it started from,
      entries queued from `top`, and every unsettled legal connection among
      those `k` flights is queued. */
  ghost predicate RelaxQueued(flights: seq<Flight>, t2: int, base: multiset<Label>, entries: multiset<Label>,
                              top: Label, visited: seq<bool>, succ: seq<nat>, k: int) {
    && top.2 < |flights| && |visited| == |flights| && 0 <= k <= |succ|
    && base <= entries
    && (forall e :: e in entries - base ==> QueuedFrom(flights, t2, top, e))
    && forall x :: 0 <= x < |flights| && x in succ[..k] && !visited[x] && Connects(flights[top.2], flights[x], t2) ==>
         (top.0 + 1, top.1 + flights[x].fare, x) in entries
  }

  /** One pass of the relaxation loop keeps `RelaxQueued`. */
  lemma RelaxOneQueues(flights: seq<Flight>, t2: int, base: multiset<Label>, top: Label, visited: seq<bool>,
                       succ: seq<nat>, k: nat, s: Links)
    requires RelaxQueued(flights, t2, base, s.1, top, visited, succ, k)
    requires k < |succ| && Indices(flights, succ) && |s.0| == |flights|
    ensures RelaxQueued(flights, t2, base, RelaxOne(flights, t2, visited, top, succ[k], s).1, top, visited, succ, k + 1)
  {
    var j := succ[k];
    var added := (top.0 + 1, top.1 + flights[j].fare, j);
    var entries' := RelaxOne(flights, t2, visited, top, j, s).1;
    assert succ[..k + 1] == succ[..k] + [j];
    if !visited[j] && Connects(flights[top.2], flights[j], t2) {
      assert entries' == s.1 + multiset{added};
      forall e | e in entries' - base
        ensures QueuedFrom(flights, t2, top, e)
      {
        if e != added {
          assert e in s.1 - base;
        }
      }
    }
    forall x | 0 <= x < |flights| && x in succ[..k + 1] && !visited[x] && Connects(flights[top.2], flights[x], t2)
      ensures (top.0 + 1, top.1 + flights[x].fare, x) in entries'
    {
      if x != j {
        assert x in succ[..k];
      }
    }
  }

  lemma {:induction false} RelaxFromQueues(flights: seq<Flight>, t2: int, base: multiset<Label>, top: Label,
                                           visited: seq<bool>, succ: seq<nat>, k: nat, s: Links)
    requires RelaxQueued(flights, t2, base, s.1, top, visited, succ, k)
    requires Indices(flights, succ) && |s.0| == |flights|
    ensures RelaxQueued(flights, t2, base, RelaxFrom(flights, t2, visited, top, succ, k, s).1, top, visited, succ, |succ|)
    decreases |succ| - k
  {
    if k < |succ| {
      RelaxOneQueues(flights, t2, base, top, visited, succ, k, s);
      RelaxFromQueues(flights, t2, base, top, visited, succ, k + 1, RelaxOne(flights, t2, visited, top, succ[k], s));
    }
  }

  /** The entries after the loop keep their routes: those it started from
      by the invariant, those it queued by extending `top`'s route. */
  lemma RelaxedAchieved(flights: seq<Flight>, startCity: int, t1: int, t2: int, base: multiset<Label>,
                        entries: multiset<Label>, top: Label, visited: seq<bool>, lab: seq<(int, int)>,
                        succ: seq<nat>)
    requires |visited| == |lab| == |flights|
    requires EntriesAchieved(flights, startCity, t1, t2, base, Key(top))
    requires SettledAchieved(flights, startCity, t1, t2, visited, lab)
    requires RelaxQueued(flights, t2, base, entries, top, visited, succ, |succ|)
    requires visited[top.2] && lab[top.2] == Key(top)
    ensures EntriesAchieved(flights, startCity, t1, t2, entries, Key(top))
  {
    forall e | e in entries
      ensures e.2 < |flights| && !LexLess(Key(e), Key(top)) && Achieved(flights, startCity, t1, t2, e.2, Key(e))
    {
      if e !in base {
        assert e in entries - base;
        assert QueuedFrom(flights, t2, top, e);
        AchievedSnoc(flights, startCity, t1, t2, top.2, Key(top), e.2);
      }
    }
  }

  /** Everything queued before the loop still is, and every unsettled legal
      connection of `top`'s flight is queued through it. */
  lemma RelaxedQueued(flights: seq<Flight>, startCity: int, t1: int, t2: int, base: multiset<Label>,
                      entries: multiset<Label>, top: Label, visited: seq<bool>, lab: seq<(int, int)>,
                      succ: seq<nat>)
    requires top.2 < |flights| && |visited| == |lab| == |flights| && succ == Departing(flights, flights[top.2].endCity)
    requires FirstLegsQueued(flights, startCity, t1, t2, base, visited)
    requires SettledRelaxed(flights, t2, base, visited, lab, top.2)
    requires RelaxQueued(flights, t2, base, entries, top, visited, succ, |succ|)
    requires lab[top.2] == Key(top)
    ensures FirstLegsQueued(flights, startCity, t1, t2, entries, visited)
    ensures SettledRelaxed(flights, t2, entries, visited, lab, -1)
  {
    assert succ[..|succ|] == succ;
    forall u | 0 <= u < |flights| && visited[u]
      ensures ConnectionsQueued(flights, t2, entries, visited, lab, u)
    {
      if u == top.2 {
        forall x | 0 <= x < |flights| && !visited[x] && Connects(flights[top.2], flights[x], t2)
          ensures (lab[top.2].0 + 1, lab[top.2].1 + flights[x].fare, x) in entries
        {
          DepartingMembers(flights, flights[top.2].endCity, |flights|, x);
        }
      } else {
        assert ConnectionsQueued(flights, t2, base, visited, lab, u);
      }
    }
  }

  /** After the whole list, `top`'s flight is relaxed too: the label
      invariant holds of the new entries with no exception. */
  lemma RelaxLabels(flights: seq<Flight>, startCity: int, t1: int, t2: int, base: multiset<Label>,
                    entries: multiset<Label>, top: Label, visited: seq<bool>, lab: seq<(int, int)>, succ: seq<nat>)
    requires LabelInv(flights, startCity, t1, t2, base, Key(top), visited, lab, top.2)
    requires top.2 < |flights| && visited[top.2] && lab[top.2] == Key(top)
    requires succ == Departing(flights, flights[top.2].endCity)
    requires RelaxQueued(flights, t2, base, entries, top, visited, succ, |succ|)
    ensures LabelInv(flights, startCity, t1, t2, entries, Key(top), visited, lab, -1)
  {
    RelaxedAchieved(flights, startCity, t1, t2, base, entries, top, visited, lab, succ);
    RelaxedQueued(flights, startCity, t1, t2, base, entries, top, visited, lab, succ);
  }

  /** One pass of the main loop keeps the label invariant and the winner's
      minimality, whatever it does to the links. */
  lemma StepLabels(flights: seq<Flight>, startCity: int, endCity: int, t1: int, t2: int, top: Label, s: Search,
                   level: (int, int), lab: seq<(int, int)>)
    requires LabelInv(flights, startCity, t1, t2, s.entries + multiset{top}, level, s.visited, lab, -1)
    requires LabelWinner(flights, endCity, s.visited, lab, s.best, s.numb, s.mincost)
    requires forall e :: e in s.entries ==> !ByHopsThenFare(e, top)
    requires top.2 < |flights| && |s.prev| == |flights|
    ensures var s' := Step(flights, endCity, t2, top, s);
            var lab' := if s.visited[top.2] then lab else lab[top.2 := Key(top)];
            && LabelInv(flights, startCity, t1, t2, s'.entries, Key(top), s'.visited, lab', -1)
            && LabelWinner(flights, endCity, s'.visited, lab', s'.best, s'.numb, s'.mincost)
  {
    if s.visited[top.2] {
      StaleLabels(flights, startCity, t1, t2, top, s.entries, level, s.visited, lab);
    } else {
      assert top in s.entries + multiset{top};
      SettleLabels(flights, startCity, t1, t2, top, s.entries, level, s.visited, lab);
      SettleLabelWinner(flights, endCity, top, s, lab);
      var visited, lab' := s.visited[top.2 := true], lab[top.2 := Key(top)];
      var succ := Departing(flights, flights[top.2].endCity);
      DepartingIndices(flights, flights[top.2].endCity);
      RelaxFromQueues(flights, t2, s.entries, top, visited, succ, 0, (s.prev, s.entries));
      RelaxLabels(flights, startCity, t1, t2, s.entries, RelaxFrom(flights, t2, visited, top, succ, 0, (s.prev, s.entries)).1,
                  top, visited, lab', succ);
    }
  }

  /** Once the heap is empty the winner's label belongs to a route ending
      with the winner, and every legal route to `endCity` has more legs, or
      as many and no lower fare. */
  lemma LabelOutcome(flights: seq<Flight>, startCity: int, endCity: int, t1: int, t2: int, level: (int, int),
                     visited: seq<bool>, lab: seq<(int, int)>, best: Option<nat>, numb: int, mincost: int)
    requires LabelInv(flights, startCity, t1, t2, multiset{}, level, visited, lab, -1)
    requires LabelWinner(flights, endCity, visited, lab, best, numb, mincost)
    ensures best.Some? ==> best.value < |flights| && Achieved(flights, startCity, t1, t2, best.value, (numb, mincost))
    ensures forall r :: RouteTo(flights, r, startCity, endCity, t1, t2) ==>
              best.Some? && !LexLess((|r|, RouteFare(flights, r)), (numb, mincost))
  {
    forall r | RouteTo(flights, r, startCity, endCity, t1, t2)
      ensures best.Some? && !LexLess((|r|, RouteFare(flights, r)), (numb, mincost))
    {
      var x := r[|r| - 1];
      if !visited[x] {
        var e := FrontierEntry(flights, startCity, t1, t2, multiset{}, visited, lab, r);
        assert false;
      }
      assert RouteEndsAt(flights, r, x, startCity, t1, t2);
    }
  }

  /** The seeding loop: one entry (1, fare, i) per flight leaving the
      start city inside the time window. */
  method SeedEntries(flights: seq<Flight>, t1: int, t2: int, seeds: seq<nat>, minheap: Heap<Label>)
    requires Indices(flights, seeds)
    requires minheap.Valid()
    modifies minheap
    ensures minheap.Valid()
    ensures multiset(minheap.heap) == SeedFrom(flights, t1, t2, seeds, 0, old(multiset(minheap.heap)))
  {
    ghost var entries0 := multiset(minheap.heap);
    for k := 0 to |seeds|
      invariant minheap.Valid()
      invariant SeedFrom(flights, t1, t2, seeds, k, multiset(minheap.heap)) == SeedFrom(flights, t1, t2, seeds, 0, entries0)
    {
      var i := seeds[k];
      var flight := flights[i];
      if t1 <= flight.departureTime && flight.arrivalTime <= t2 {
        minheap.Insert((1, flight.fare, i));
      }
    }
  }

  /** The body of the relaxation loop for the flight `j`: if it is
      unsettled and connects, queue it through `top` and point its link at
      `top`'s flight, whatever the link was. */
  method RelaxTo(flights: seq<Flight>, t2: int, visited: array<bool>, top: Label, j: nat,
                 minheap: Heap<Label>, prev: array<Option<nat>>)
    requires top.2 < |flights| && j < |flights| && visited.Length == prev.Length == |flights|
    requires minheap.Valid()
    modifies minheap, prev
    ensures minheap.Valid()
    ensures (prev[..], multiset(minheap.heap))
            == RelaxOne(flights, t2, visited[..], top, j, old((prev[..], multiset(minheap.heap))))
  {
    var (count, cost, idx) := top;
    var flight := flights[idx];
    if !visited[j] {
      var next := flights[j];
      if flight.endCity == next.startCity {
        if next.arrivalTime <= t2 && next.departureTime >= flight.arrivalTime + MinLayover {
          minheap.Insert((count + 1, cost + next.fare, j));
          prev[j] := Some(idx);
        }
      }
    }
  }

  /** The relaxation loop after settling `top`: every unsettled flight in
      `succ` that connects gets a new entry and a link to `top`'s flight. */
  method RelaxEach(flights: seq<Flight>, t2: int, visited: array<bool>, top: Label, succ: seq<nat>,
                   minheap: Heap<Label>, prev: array<Option<nat>>)
    requires top.2 < |flights| && visited.Length == prev.Length == |flights| && Indices(flights, succ)
    requires minheap.Valid()
    modifies minheap, prev
    ensures minheap.Valid()
    ensures (prev[..], multiset(minheap.heap))
            == RelaxFrom(flights, t2, visited[..], top, succ, 0, old((prev[..], multiset(minheap.heap))))
  {
    ghost var s0: Links := (prev[..], multiset(minheap.heap));
    for k := 0 to |succ|
      invariant minheap.Valid()
      invariant RelaxFrom(flights, t2, visited[..], top, succ, k, (prev[..], multiset(minheap.heap)))
                == RelaxFrom(flights, t2, visited[..], top, succ, 0, s0)
    {
      RelaxTo(flights, t2, visited, top, succ[k], minheap, prev);
    }
  }

  /** One pass of the main loop: extract the entry `top`, and skip it or
      settle, judge and relax it. */
  method SearchOnce(flights: seq<Flight>, startAdj: seq<seq<nat>>, endCity: int, t2: int,
                    minheap: Heap<Label>, prev: array<Option<nat>>, visited: array<bool>,
                    best: Option<nat>, numb: int, mincost: int)
    returns (best': Option<nat>, numb': int, mincost': int, top: Label)
    requires forall c :: 0 <= c < |startAdj| ==> startAdj[c] == Departing(flights, c)
    requires forall i :: 0 <= i < |flights| ==> 0 <= flights[i].endCity < |startAdj|
    requires minheap.Valid() && minheap.comparisonFunction == ByHopsThenFare && |minheap.heap| > 0
    requires forall e :: e in multiset(minheap.heap) ==> e.2 < |flights|
    requires prev.Length == visited.Length == |flights|
    modifies minheap, prev, visited
    ensures minheap.Valid()
    ensures top in old(multiset(minheap.heap)) && top.2 < |flights|
    ensures forall e :: e in old(multiset(minheap.heap)) - multiset{top} ==> !ByHopsThenFare(e, top)
    ensures Search(prev[..], visited[..], multiset(minheap.heap), best', numb', mincost')
            == Step(flights, endCity, t2, top,
                    Search(old(prev[..]), old(visited[..]), old(multiset(minheap.heap)) - multiset{top}, best, numb, mincost))
  {
    var extracted := minheap.Extract();
    top := extracted.value;
    NonePrecedes(minheap.heap, minheap.comparisonFunction, top);
    ghost var s := Search(prev[..], visited[..], multiset(minheap.heap), best, numb, mincost);
    assert old(multiset(minheap.heap)) - multiset{top} == s.entries;
    var (count, cost, idx) := top;
    best', numb', mincost' := best, numb, mincost;
    if visited[idx] {
      assert Step(flights, endCity, t2, top, s) == s;
      return;
    }
    ghost var win := Wins(flights, endCity, top, s);
    visited[idx] := true;
    var flight := flights[idx];
    if flight.endCity == endCity {
      if best.None? || count < numb || (count == numb && cost < mincost) {
        best', numb', mincost' := Some(idx), count, cost;
      }
    }
    assert win ==> (best', numb', mincost') == (Some(idx), count, cost);
    assert !win ==> (best', numb', mincost') == (best, numb, mincost);
    var succ := startAdj[flight.endCity];
    DepartingIndices(flights, flight.endCity);
    ghost var visited' := visited[..];
    assert visited' == s.visited[idx := true];
    RelaxEach(flights, t2, visited, top, succ, minheap, prev);
    ghost var r := RelaxFrom(flights, t2, visited', top, succ, 0, (s.prev, s.entries));
    assert prev[..] == r.0 && multiset(minheap.heap) == r.1 && visited[..] == visited';
    assert Step(flights, endCity, t2, top, s) == Search(r.0, visited', r.1, best', numb', mincost');
  }

  /** One pass of the main loop in terms of the loop's own state: a pass
      that extracts `top` from `entries` and leaves the state `t` keeps both
      pairs of invariants, with `top` appended to the settled entries and its
      label recorded when it settles. */
  lemma PassKeepsInv(flights: seq<Flight>, startCity: int, endCity: int, t1: int, t2: int, top: Label,
                     prev: seq<Option<nat>>, visited: seq<bool>, entries: multiset<Label>,
                     best: Option<nat>, numb: int, mincost: int, level: (int, int),
                     settled: seq<Label>, bestAt: int, lab: seq<(int, int)>, t: Search)
    returns (settled': seq<Label>, bestAt': int, lab': seq<(int, int)>)
    requires HopInv(flights, startCity, t1, t2, entries, level, prev, visited, settled)
    requires HopWinner(flights, endCity, settled, best, numb, mincost, bestAt)
    requires LabelInv(flights, startCity, t1, t2, entries, level, visited, lab, -1)
    requires LabelWinner(flights, endCity, visited, lab, best, numb, mincost)
    requires top in entries && top.2 < |flights|
    requires forall e :: e in entries - multiset{top} ==> !ByHopsThenFare(e, top)
    requires t == Step(flights, endCity, t2, top, Search(prev, visited, entries - multiset{top}, best, numb, mincost))
    ensures HopInv(flights, startCity, t1, t2, t.entries, Key(top), t.prev, t.visited, settled')
    ensures HopWinner(flights, endCity, settled', t.best, t.numb, t.mincost, bestAt')
    ensures LabelInv(flights, startCity, t1, t2, t.entries, Key(top), t.visited, lab', -1)
    ensures LabelWinner(flights, endCity, t.visited, lab', t.best, t.numb, t.mincost)
    ensures if visited[top.2] then t.visited == visited && |t.entries| < |entries|
            else CountTrue(t.visited) == CountTrue(visited) + 1
  {
    var s := Search(prev, visited, entries - multiset{top}, best, numb, mincost);
    assert entries == s.entries + multiset{top};
    StepKeepsInv(flights, startCity, endCity, t1, t2, top, s, level, settled, bestAt);
    StepLabels(flights, startCity, endCity, t1, t2, top, s, level, lab);
    settled' := if visited[top.2] then settled else settled + [top];
    bestAt' := if Wins(flights, endCity, top, s) then |settled| else bestAt;
    lab' := if visited[top.2] then lab else lab[top.2 := Key(top)];
  }

  /** One pass of the main loop together with the proof that it keeps the
      loop's invariants and makes progress. */
  method DrainOnce(flights: seq<Flight>, startAdj: seq<seq<nat>>, startCity: int, endCity: int, t1: int, t2: int,
                   minheap: Heap<Label>, prev: array<Option<nat>>, visited: array<bool>,
                   best: Option<nat>, numb: int, mincost: int, ghost level: (int, int),
                   ghost settled: seq<Label>, ghost bestAt: int, ghost lab: seq<(int, int)>)
    returns (best': Option<nat>, numb': int, mincost': int, ghost level': (int, int),
             ghost settled': seq<Label>, ghost bestAt': int, ghost lab': seq<(int, int)>)
    requires forall c :: 0 <= c < |startAdj| ==> startAdj[c] == Departing(flights, c)
    requires forall i :: 0 <= i < |flights| ==> 0 <= flights[i].endCity < |startAdj|
    requires minheap.Valid() && minheap.comparisonFunction == ByHopsThenFare && |minheap.heap| > 0
    requires prev.Length == visited.Length == |flights|
    requires HopInv(flights, startCity, t1, t2, multiset(minheap.heap), level, prev[..], visited[..], settled)
    requires HopWinner(flights, endCity, settled, best, numb, mincost, bestAt)
    requires LabelInv(flights, startCity, t1, t2, multiset(minheap.heap), level, visited[..], lab, -1)
    requires LabelWinner(flights, endCity, visited[..], lab, best, numb, mincost)
    modifies minheap, prev, visited
    ensures minheap.Valid()
    ensures HopInv(flights, startCity, t1, t2, multiset(minheap.heap), level', prev[..], visited[..], settled')
    ensures HopWinner(flights, endCity, settled', best', numb', mincost', bestAt')
    ensures LabelInv(flights, startCity, t1, t2, multiset(minheap.heap), level', visited[..], lab', -1)
    ensures LabelWinner(flights, endCity, visited[..], lab', best', numb', mincost')
    ensures || CountTrue(visited[..]) == old(CountTrue(visited[..])) + 1
            || (visited[..] == old(visited[..]) && |minheap.heap| < old(|minheap.heap|))
  {
    ghost var prev0, visited0, entries0 := prev[..], visited[..], multiset(minheap.heap);
    var top;
    best', numb', mincost', top := SearchOnce(flights, startAdj, endCity, t2, minheap, prev, visited, best, numb, mincost);
    settled', bestAt', lab' :=
      PassKeepsInv(flights, startCity, endCity, t1, t2, top, prev0, visited0, entries0, best, numb, mincost,
                   level, settled, bestAt, lab, Search(prev[..], visited[..], multiset(minheap.heap), best', numb', mincost'));
    level' := Key(top);
  }

  /** The main loop of the search, run until the heap is empty. It returns
      the winner and, as ghosts, the settled entries in the order of
      settling, the winner's label and its position among them. */
  method DrainHeap(flights: seq<Flight>, startAdj: seq<seq<nat>>, startCity: int, endCity: int, t1: int, t2: int,
                   minheap: Heap<Label>, prev: array<Option<nat>>, visited: array<bool>, ghost lab0: seq<(int, int)>)
    returns (bestRoute: Option<nat>, ghost settled: seq<Label>, ghost numb: int, ghost mincost: int, ghost bestAt: int)
    requires forall c :: 0 <= c < |startAdj| ==> startAdj[c] == Departing(flights, c)
    requires forall i :: 0 <= i < |flights| ==> 0 <= flights[i].endCity < |startAdj|
    requires minheap.Valid() && minheap.comparisonFunction == ByHopsThenFare
    requires prev.Length == visited.Length == |flights|
    requires HopInv(flights, startCity, t1, t2, multiset(minheap.heap), (0, 0), prev[..], visited[..], [])
    requires LabelInv(flights, startCity, t1, t2, multiset(minheap.heap), (0, 0), visited[..], lab0, -1)
    requires forall v :: 0 <= v < visited.Length ==> !visited[v]
    modifies minheap, prev, visited
    ensures PrevRanked(prev[..], Arrivals(flights))
    ensures bestRoute.Some? ==>
              bestRoute.value < |flights| &&
              RouteTo(flights, Walk(prev[..], Arrivals(flights), bestRoute.value), startCity, endCity, t1, t2)
    ensures SettledInOrder(flights, settled, visited[..])
    ensures HopWinner(flights, endCity, settled, bestRoute, numb, mincost, bestAt)
    ensures bestRoute.Some? ==> Achieved(flights, startCity, t1, t2, bestRoute.value, (numb, mincost))
    ensures forall r :: RouteTo(flights, r, startCity, endCity, t1, t2) ==>
              bestRoute.Some? && !LexLess((|r|, RouteFare(flights, r)), (numb, mincost))
  {
    bestRoute := None;
    var numb', mincost' := 0, 0;
    ghost var level := (0, 0);
    ghost var lab := lab0;
    settled, bestAt := [], -1;
    while |minheap.heap| > 0
      invariant minheap.Valid()
      invariant HopInv(flights, startCity, t1, t2, multiset(minheap.heap), level, prev[..], visited[..], settled)
      invariant HopWinner(flights, endCity, settled, bestRoute, numb', mincost', bestAt)
      invariant LabelInv(flights, startCity, t1, t2, multiset(minheap.heap), level, visited[..], lab, -1)
      invariant LabelWinner(flights, endCity, visited[..], lab, bestRoute, numb', mincost')
      decreases |flights| - CountTrue(visited[..]), |minheap.heap|
    {
      bestRoute, numb', mincost', level, settled, bestAt, lab :=
        DrainOnce(flights, startAdj, startCity, endCity, t1, t2, minheap, prev, visited,
                  bestRoute, numb', mincost', level, settled, bestAt, lab);
    }
    numb, mincost := numb', mincost';
    WinnerRoute(flights, startCity, endCity, t1, t2, level, prev[..], visited[..], settled,
                bestRoute, numb, mincost, bestAt);
    LabelOutcome(flights, startCity, endCity, t1, t2, level, visited[..], lab, bestRoute, numb, mincost);
  }

  /** Three flights: F0 and F1 both fly from city 0 to city 1, leaving at 0
      and landing at 10, at fares 1 and 5; F2 flies from 1 to 2, leaving at
      40 and landing at 60, at fare 1. */
  function OverwriteFlights(): seq<Flight> {
    [Flight(0, 0, 0, 1, 10, 1), Flight(1, 0, 0, 1, 10, 5), Flight(2, 1, 40, 2, 60, 1)]
  }

  /** `top` comes before every other entry of `entries`, so it is the only
      entry an extraction, which leaves nothing ahead of what it returns,
      can return. */
  ghost predicate OnlyCandidate(top: Label, entries: multiset<Label>) {
    top in entries && forall e :: e in entries && e != top ==> ByHopsThenFare(top, e)
  }

  lemma ExampleDeparting()
    ensures Departing(OverwriteFlights(), 0) == [0, 1]
    ensures Departing(OverwriteFlights(), 1) == [2]
    ensures Departing(OverwriteFlights(), 2) == []
  {
    var fl := OverwriteFlights();
    assert fl[0].startCity == 0 && fl[1].startCity == 0 && fl[2].startCity == 1;
    assert DepartingBefore(fl, 0, 1) == [0];
    assert DepartingBefore(fl, 0, 2) == [0, 1];
    assert DepartingBefore(fl, 0, 3) == [0, 1];
    assert DepartingBefore(fl, 1, 2) == [];
    assert DepartingBefore(fl, 1, 3) == [2];
    assert DepartingBefore(fl, 2, 2) == [];
    assert DepartingBefore(fl, 2, 3) == [];
  }

  /** F0 and F1 are seeded; settling F0 queues F2 at (2, 2) and links it
      to F0. */
  lemma ExampleFirstPasses()
    ensures SeedFrom(OverwriteFlights(), 0, 100, [0, 1], 0, multiset{}) == multiset{(1, 1, 0), (1, 5, 1)}
    ensures Step(OverwriteFlights(), 2, 100, (1, 1, 0),
                 Search([None, None, None], [false, false, false], multiset{(1, 5, 1)}, None, 0, 0))
         == Search([None, None, Some(0)], [true, false, false], multiset{(1, 5, 1), (2, 2, 2)}, None, 0, 0)
  {
    ExampleDeparting();
    var fl := OverwriteFlights();
    assert Connects(fl[0], fl[2], 100);
    var s := RelaxOne(fl, 100, [true, false, false], (1, 1, 0), 2, ([None, None, None], multiset{(1, 5, 1)}));
    assert s.0 == [None, None, Some(0)];
    assert s.1 == multiset{(1, 5, 1), (2, 2, 2)};
    assert RelaxFrom(fl, 100, [true, false, false], (1, 1, 0), [2], 0, ([None, None, None], multiset{(1, 5, 1)})) == s;
  }

  /** Settling F1 queues F2 again at (2, 6) and overwrites its link. */
  lemma ExampleSecondPass()
    ensures Step(OverwriteFlights(), 2, 100, (1, 5, 1),
                 Search([None, None, Some(0)], [true, false, false], multiset{(2, 2, 2)}, None, 0, 0))
         == Search([None, None, Some(1)], [true, true, false], multiset{(2, 2, 2), (2, 6, 2)}, None, 0, 0)
  {
    ExampleDeparting();
    var fl := OverwriteFlights();
    assert Connects(fl[1], fl[2], 100);
    var s := RelaxOne(fl, 100, [true, true, false], (1, 5, 1), 2, ([None, None, Some(0)], multiset{(2, 2, 2)}));
    assert s.0 == [None, None, Some(1)];
    assert s.1 == multiset{(2, 2, 2), (2, 6, 2)};
    assert RelaxFrom(fl, 100, [true, true, false], (1, 5, 1), [2], 0, ([None, None, Some(0)], multiset{(2, 2, 2)})) == s;
  }

  /** Settling F2 through the entry (2, 2) makes it the winner; its later
      entry (2, 6) is skipped. */
  lemma ExampleLastPasses()
    ensures Step(OverwriteFlights(), 2, 100, (2, 2, 2),
                 Search([None, None, Some(1)], [true, true, false], multiset{(2, 6, 2)}, None, 0, 0))
         == Search([None, None, Some(1)], [true, true, true], multiset{(2, 6, 2)}, Some(2), 2, 2)
    ensures Step(OverwriteFlights(), 2, 100, (2, 6, 2),
                 Search([None, None, Some(1)], [true, true, true], multiset{}, Some(2), 2, 2))
         == Search([None, None, Some(1)], [true, true, true], multiset{}, Some(2), 2, 2)
  {
    ExampleDeparting();
  }

  /** Each pass of the example has a single candidate. */
  lemma ExampleCandidates()
    ensures OnlyCandidate((1, 1, 0), multiset{(1, 1, 0), (1, 5, 1)})
    ensures OnlyCandidate((1, 5, 1), multiset{(1, 5, 1), (2, 2, 2)})
    ensures OnlyCandidate((2, 2, 2), multiset{(2, 2, 2), (2, 6, 2)})
    ensures OnlyCandidate((2, 6, 2), multiset{(2, 6, 2)})
  {
  }

  /** The final links spell [F1, F2]; [F0, F2] is a cheaper route. */
  lemma ExampleRoutes()
    ensures AllWellFormed(OverwriteFlights())
    ensures PrevRanked([None, None, Some(1)], Arrivals(OverwriteFlights()))
    ensures Walk([None, None, Some(1)], Arrivals(OverwriteFlights()), 2) == [1, 2]
    ensures RouteFare(OverwriteFlights(), [1, 2]) == 6
    ensures RouteTo(OverwriteFlights(), [0, 2], 0, 2, 0, 100) && RouteFare(OverwriteFlights(), [0, 2]) == 2
  {
    var fl := OverwriteFlights();
    var w := Walk([None, None, Some(1)], Arrivals(fl), 2);
    assert w[|w| - 2] == 1;
    assert [1, 2][..1] == [1];
    assert [0, 2][..1] == [0];
  }

  /** The search from city 0 to city 2 within times 0 to 100 over
      `OverwriteFlights`. Each pass has a single candidate, so the entries
      come out as (1, 1, F0), (1, 5, F1), (2, 2, F2), (2, 6, F2). Settling F1
      overwrites the link F0 gave F2, after F0 had queued F2 at fare 2. F2
      wins with the label (2 legs, fare 2), yet its links spell [F1, F2] at
      fare 6, although the route [F0, F2] costs 2. */
  lemma PrevOverwriteCounterexample()
    ensures var fl := OverwriteFlights();
            var e0 := multiset{(1, 1, 0), (1, 5, 1)};
            var s1 := Search([None, None, Some(0)], [true, false, false], multiset{(1, 5, 1), (2, 2, 2)}, None, 0, 0);
            var s2 := Search([None, None, Some(1)], [true, true, false], multiset{(2, 2, 2), (2, 6, 2)}, None, 0, 0);
            var s3 := Search([None, None, Some(1)], [true, true, true], multiset{(2, 6, 2)}, Some(2), 2, 2);
            var s4 := s3.(entries := multiset{});
            && AllWellFormed(fl) && Departing(fl, 0) == [0, 1]
            && SeedFrom(fl, 0, 100, [0, 1], 0, multiset{}) == e0
            && OnlyCandidate((1, 1, 0), e0)
            && Step(fl, 2, 100, (1, 1, 0), Search([None, None, None], [false, false, false], e0 - multiset{(1, 1, 0)}, None, 0, 0)) == s1
            && OnlyCandidate((1, 5, 1), s1.entries)
            && Step(fl, 2, 100, (1, 5, 1), s1.(entries := s1.entries - multiset{(1, 5, 1)})) == s2
            && OnlyCandidate((2, 2, 2), s2.entries)
            && Step(fl, 2, 100, (2, 2, 2), s2.(entries := s2.entries - multiset{(2, 2, 2)})) == s3
            && OnlyCandidate((2, 6, 2), s3.entries)
            && Step(fl, 2, 100, (2, 6, 2), s3.(entries := s3.entries - multiset{(2, 6, 2)})) == s4
            && PrevRanked(s4.prev, Arrivals(fl)) && Walk(s4.prev, Arrivals(fl), 2) == [1, 2]
            && RouteFare(fl, [1, 2]) == 6 && (s4.numb, s4.mincost) == (2, 2)
            && RouteTo(fl, [0, 2], 0, 2, 0, 100) && RouteFare(fl, [0, 2]) == 2
  {
    ExampleDeparting();
    ExampleFirstPasses();
    ExampleSecondPass();
    ExampleLastPasses();
    ExampleCandidates();
    ExampleRoutes();
    assert multiset{(1, 1, 0), (1, 5, 1)} - multiset{(1, 1, 0)} == multiset{(1, 5, 1)};
    assert multiset{(1, 5, 1), (2, 2, 2)} - multiset{(1, 5, 1)} == multiset{(2, 2, 2)};
    assert multiset{(2, 2, 2), (2, 6, 2)} - multiset{(2, 2, 2)} == multiset{(2, 6, 2)};
  }

  /** The whole search: a heap seeded with the first legs leaving
      `startCity`, drained to the end. */
  method FindRoute(flights: seq<Flight>, startAdj: seq<seq<nat>>, startCity: int, endCity: int, t1: int, t2: int)
    returns (prev: array<Option<nat>>, bestRoute: Option<nat>, ghost settled: seq<Label>,
             ghost numb: int, ghost mincost: int, ghost bestAt: int)
    requires AllWellFormed(flights)
    requires forall c :: 0 <= c < |startAdj| ==> startAdj[c] == Departing(flights, c)
    requires forall i :: 0 <= i < |flights| ==> 0 <= flights[i].endCity < |startAdj|
    requires 0 <= startCity < |startAdj|
    ensures fresh(prev) && prev.Length == |flights|
    ensures PrevRanked(prev[..], Arrivals(flights))
    ensures bestRoute.Some? ==>
              bestRoute.value < |flights| &&
              RouteTo(flights, Walk(prev[..], Arrivals(flights), bestRoute.value), startCity, endCity, t1, t2)
    ensures forall i, j :: 0 <= i < j < |settled| ==>
              settled[i].2 != settled[j].2 && !LexLess(Key(settled[j]), Key(settled[i]))
    ensures HopWinner(flights, endCity, settled, bestRoute, numb, mincost, bestAt)
    ensures bestRoute.Some? ==> Achieved(flights, startCity, t1, t2, bestRoute.value, (numb, mincost))
    ensures forall r :: RouteTo(flights, r, startCity, endCity, t1, t2) ==>
              bestRoute.Some? && !LexLess((|r|, RouteFare(flights, r)), (numb, mincost))
  {
    var n := |flights|;
    ByHopsThenFareIsStrictWeakOrder();
    var minheap := new Heap<Label>(ByHopsThenFare, []);
    prev := new Option<nat>[n](_ => None);
    var visited := new bool[n](_ => false);
    ghost var lab0 := seq(n, _ => (0, 0));
    SeedInv(flights, startCity, t1, t2, startAdj[startCity], prev[..], visited[..]);
    SeedLabels(flights, startCity, t1, t2, startAdj[startCity], visited[..], lab0);
    SeedEntries(flights, t1, t2, startAdj[startCity], minheap);
    bestRoute, settled, numb, mincost, bestAt :=
      DrainHeap(flights, startAdj, startCity, endCity, t1, t2, minheap, prev, visited, lab0);
  }
}
