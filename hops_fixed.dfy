/** The fewest-legs-then-cheapest search with its link bug corrected: each
    heap entry carries the flight it was queued from, and a flight's link
    is set when it is settled, from the entry that settles it, rather than
    overwritten at every relaxation. A heap entry is (legs, fare, flight
    index, predecessor). With this change the search is lazy label setting
    over (legs, fare) pairs, and the winner's links spell a route with the
    fewest legs and, among those, the lowest fare. `lab[v]` is the ghost
    label a settled flight v was settled with. */
module HopsThenFareCorrected {
  import opened Options
  import opened Flights
  import opened Paths
  import opened SearchFacts
  import opened MinHeap

  type Candidate = (int, int, nat, Option<nat>)

  /** The (legs, fare) pair an entry is ordered by. */
  function Key(e: Candidate): (int, int) {
    (e.0, e.1)
  }

  /** The search's comparison: fewer legs first, then the lower fare. */
  predicate ByHopsThenFare(a: Candidate, b: Candidate) {
    LexLess(Key(a), Key(b))
  }

  lemma ByHopsThenFareIsStrictWeakOrder()
    ensures StrictWeakOrder(ByHopsThenFare)
  {
  }

  /** The entries the seeding loop adds for `seeds[k..]`: (1, fare, i, None)
      for every listed flight inside the time window. */
  function SeedFrom(flights: seq<Flight>, t1: int, t2: int, seeds: seq<nat>, k: nat, entries: multiset<Candidate>)
    : multiset<Candidate>
    requires Indices(flights, seeds) && k <= |seeds|
    decreases |seeds| - k
  {
    if k == |seeds| then entries
    else
      var f := flights[seeds[k]];
      SeedFrom(flights, t1, t2, seeds, k + 1,
               if t1 <= f.departureTime && f.arrivalTime <= t2 then entries + multiset{(1, f.fare, seeds[k], None)}
               else entries)
  }

  /** One pass of the relaxation loop for flight `j` after settling `top`:
      an unsettled flight that connects gets an entry one leg and its fare
      above `top`, recording `top`'s flight as where it came from. */
  function RelaxOne(flights: seq<Flight>, t2: int, visited: seq<bool>, top: Candidate, j: nat,
                    entries: multiset<Candidate>): multiset<Candidate>
    requires top.2 < |flights| && j < |flights| && |visited| == |flights|
  {
    if !visited[j] && Connects(flights[top.2], flights[j], t2)
    then entries + multiset{(top.0 + 1, top.1 + flights[j].fare, j, Some(top.2))}
    else entries
  }

  /** The relaxation loop over `succ[k..]`, starting from `entries`. */
  function RelaxFrom(flights: seq<Flight>, t2: int, visited: seq<bool>, top: Candidate, succ: seq<nat>, k: nat,
                     entries: multiset<Candidate>): multiset<Candidate>
    requires top.2 < |flights| && |visited| == |flights|
    requires Indices(flights, succ) && k <= |succ|
    decreases |succ| - k
  {
    if k == |succ| then entries
    else RelaxFrom(flights, t2, visited, top, succ, k + 1, RelaxOne(flights, t2, visited, top, succ[k], entries))
  }

  /** The state of the main loop apart from the heap's layout; `best` is
      None while the winner's legs and fare are still infinite. */
  datatype Search = Search(prev: seq<Option<nat>>, visited: seq<bool>, entries: multiset<Candidate>,
                           best: Option<nat>, numb: int, mincost: int)

  /** Settling `top` makes it the new winner: it lands in `endCity` and has
      fewer legs than the winner, or as many and a lower fare. */
  predicate Wins(flights: seq<Flight>, endCity: int, top: Candidate, s: Search)
    requires top.2 < |flights| && |s.visited| == |flights|
  {
    && !s.visited[top.2]
    && flights[top.2].endCity == endCity
    && (s.best.None? || top.0 < s.numb || (top.0 == s.numb && top.1 < s.mincost))
  }

  /** One pass of the main loop's body once `top` has been extracted and the
      heap holds `s.entries`: a settled flight is skipped; otherwise it is
      settled with the link its entry carries, may become the winner, and
      is relaxed. */
  function Step(flights: seq<Flight>, endCity: int, t2: int, top: Candidate, s: Search): (s': Search)
    requires top.2 < |flights| && |s.prev| == |s.visited| == |flights|
    ensures |s'.prev| == |s'.visited| == |flights|
  {
    if s.visited[top.2] then s
    else
      var win := Wins(flights, endCity, top, s);
      var visited := s.visited[top.2 := true];
      DepartingIndices(flights, flights[top.2].endCity);
      Search(s.prev[top.2 := top.3], visited,
             RelaxFrom(flights, t2, visited, top, Departing(flights, flights[top.2].endCity), 0, s.entries),
             if win then Some(top.2) else s.best,
             if win then top.0 else s.numb,
             if win then top.1 else s.mincost)
  }

  /** Every entry names a flight, lies at or above the level, and carries
      the exact label of the route it stands for: a first leg on its own, or
      one leg and a fare above the label of the settled flight it connects
      from. */
  ghost predicate EntriesExact(flights: seq<Flight>, startCity: int, t1: int, t2: int, entries: multiset<Candidate>,
                               level: (int, int), visited: seq<bool>, lab: seq<(int, int)>)
    requires |visited| == |lab| == |flights|
  {
    forall e :: e in entries ==>
      && e.2 < |flights| && !LexLess(Key(e), level)
      && (e.3.None? ==> FirstLeg(flights[e.2], startCity, t1, t2) && Key(e) == (1, flights[e.2].fare))
      && (e.3.Some? ==>
            && e.3.value < |flights| && visited[e.3.value] && Connects(flights[e.3.value], flights[e.2], t2)
            && Key(e) == (lab[e.3.value].0 + 1, lab[e.3.value].1 + flights[e.2].fare))
  }

  /** Only settled flights have links; links are legal and lead to settled
      flights; labels add one leg and the fare along each link, and a
      settled flight without a link is a first leg labelled (1, fare). */
  ghost predicate LabelChain(flights: seq<Flight>, startCity: int, t1: int, t2: int,
                             prev: seq<Option<nat>>, visited: seq<bool>, lab: seq<(int, int)>)
    requires |prev| == |visited| == |lab| == |flights|
  {
    LinksConnect(flights, prev, t2) && LabelsAdd(flights, startCity, t1, t2, prev, visited, lab)
  }

  ghost predicate LabelsAdd(flights: seq<Flight>, startCity: int, t1: int, t2: int,
                            prev: seq<Option<nat>>, visited: seq<bool>, lab: seq<(int, int)>)
    requires |prev| == |visited| == |lab| == |flights|
  {
    forall v {:trigger prev[v]} :: 0 <= v < |flights| ==>
         && (prev[v].Some? ==>
               && visited[v] && prev[v].value < |flights| && visited[prev[v].value]
               && lab[v] == (lab[prev[v].value].0 + 1, lab[prev[v].value].1 + flights[v].fare))
         && (visited[v] && prev[v].None? ==> FirstLeg(flights[v], startCity, t1, t2) && lab[v] == (1, flights[v].fare))
  }

  /** Flights are settled in label order: none above the level. */
  ghost predicate SettledBelow(flights: seq<Flight>, visited: seq<bool>, lab: seq<(int, int)>, level: (int, int))
    requires |visited| == |lab| == |flights|
  {
    forall v :: 0 <= v < |flights| && visited[v] ==> !LexLess(level, lab[v])
  }

  /** Every unsettled first leg waits in the heap with its seed entry. */
  ghost predicate FirstLegsQueued(flights: seq<Flight>, startCity: int, t1: int, t2: int,
                                  entries: multiset<Candidate>, visited: seq<bool>)
    requires |visited| == |flights|
  {
    forall v :: 0 <= v < |flights| && FirstLeg(flights[v], startCity, t1, t2) && !visited[v] ==>
      (1, flights[v].fare, v, None) in entries
  }

  /** Every unsettled legal connection of the settled flight `u` waits in
      the heap with the entry `u`'s relaxation queued for it. */
  ghost predicate ConnectionsQueued(flights: seq<Flight>, t2: int, entries: multiset<Candidate>,
                                    visited: seq<bool>, lab: seq<(int, int)>, u: nat)
    requires |visited| == |lab| == |flights| && u < |flights|
  {
    forall x :: 0 <= x < |flights| && !visited[x] && Connects(flights[u], flights[x], t2) ==>
      (lab[u].0 + 1, lab[u].1 + flights[x].fare, x, Some(u)) in entries
  }

  /** Every settled flight other than `except` (the one being relaxed) has
      been relaxed. */
  ghost predicate SettledRelaxed(flights: seq<Flight>, t2: int, entries: multiset<Candidate>,
                                 visited: seq<bool>, lab: seq<(int, int)>, except: int)
    requires |visited| == |lab| == |flights|
  {
    forall u :: 0 <= u < |flights| && visited[u] && u != except ==> ConnectionsQueued(flights, t2, entries, visited, lab, u)
  }

  /** No route ending with a settled flight has a smaller (legs, fare) pair
      than the flight's label. */
  ghost predicate SettledOptimal(flights: seq<Flight>, startCity: int, t1: int, t2: int,
                                 visited: seq<bool>, lab: seq<(int, int)>)
    requires |visited| == |lab| == |flights|
  {
    forall v, r :: 0 <= v < |flights| && visited[v] && RouteEndsAt(flights, r, v, startCity, t1, t2) ==>
      !LexLess((|r|, RouteFare(flights, r)), lab[v])
  }

  ghost predicate FixInv(flights: seq<Flight>, startCity: int, t1: int, t2: int, entries: multiset<Candidate>,
                         level: (int, int), prev: seq<Option<nat>>, visited: seq<bool>, lab: seq<(int, int)>,
                         except: int) {
    && AllWellFormed(flights)
    && |prev| == |visited| == |lab| == |flights|
    && EntriesExact(flights, startCity, t1, t2, entries, level, visited, lab)
    && LabelChain(flights, startCity, t1, t2, prev, visited, lab)
    && SettledBelow(flights, visited, lab, level)
    && FirstLegsQueued(flights, startCity, t1, t2, entries, visited)
    && SettledRelaxed(flights, t2, entries, visited, lab, except)
    && SettledOptimal(flights, startCity, t1, t2, visited, lab)
  }

  /** The winner is a settled flight landing in `endCity` with the label
      (numb, mincost), and no settled flight landing there has a smaller
      label. */
  ghost predicate FixWinner(flights: seq<Flight>, endCity: int, visited: seq<bool>, lab: seq<(int, int)>,
                            best: Option<nat>, numb: int, mincost: int)
    requires |visited| == |lab| == |flights|
  {
    && (best.Some? ==>
          && best.value < |flights| && visited[best.value] && flights[best.value].endCity == endCity
          && lab[best.value] == (numb, mincost))
    && forall v :: 0 <= v < |flights| && visited[v] && flights[v].endCity == endCity ==>
         best.Some? && !LexLess(lab[v], (numb, mincost))
  }

  /** The seeded entries are the first legs' seed entries. */
  lemma {:induction false} SeedFromExact(flights: seq<Flight>, startCity: int, t1: int, t2: int, seeds: seq<nat>,
                                         k: nat, entries: multiset<Candidate>)
    requires seeds == Departing(flights, startCity)
    requires Indices(flights, seeds) && k <= |seeds|
    requires forall e :: e in entries ==>
               e.2 < |flights| && FirstLeg(flights[e.2], startCity, t1, t2) && e == (1, flights[e.2].fare, e.2, None)
    ensures forall e :: e in SeedFrom(flights, t1, t2, seeds, k, entries) ==>
              e.2 < |flights| && FirstLeg(flights[e.2], startCity, t1, t2) && e == (1, flights[e.2].fare, e.2, None)
    decreases |seeds| - k
  {
    if k < |seeds| {
      var i := seeds[k];
      DepartingMembers(flights, startCity, |flights|, i);
      var f := flights[i];
      var entries' := if t1 <= f.departureTime && f.arrivalTime <= t2 then entries + multiset{(1, f.fare, i, None)} else entries;
      SeedFromExact(flights, startCity, t1, t2, seeds, k + 1, entries');
    }
  }

  /** Seeding keeps what was queued and queues every first leg listed in
      `seeds[k..]`. */
  lemma {:induction false} SeedFromComplete(flights: seq<Flight>, t1: int, t2: int, seeds: seq<nat>, k: nat,
                                            entries: multiset<Candidate>, v: nat)
    requires Indices(flights, seeds) && k <= |seeds|
    requires v < |flights|
    requires (v in seeds[k..] && t1 <= flights[v].departureTime && flights[v].arrivalTime <= t2)
             || (1, flights[v].fare, v, None) in entries
    ensures (1, flights[v].fare, v, None) in SeedFrom(flights, t1, t2, seeds, k, entries)
    decreases |seeds| - k
  {
    if k < |seeds| {
      var f := flights[seeds[k]];
      var entries' := if t1 <= f.departureTime && f.arrivalTime <= t2 then entries + multiset{(1, f.fare, seeds[k], None)}
                      else entries;
      if v != seeds[k] && (1, flights[v].fare, v, None) !in entries {
        assert v in seeds[k + 1..];
      }
      SeedFromComplete(flights, t1, t2, seeds, k + 1, entries', v);
    }
  }

  /** Before the main loop: nothing settled, no links, and every first leg
      queued with its seed entry. */
  lemma SeedInv(flights: seq<Flight>, startCity: int, t1: int, t2: int, seeds: seq<nat>,
                prev: seq<Option<nat>>, visited: seq<bool>, lab: seq<(int, int)>)
    requires AllWellFormed(flights) && seeds == Departing(flights, startCity)
    requires |prev| == |visited| == |lab| == |flights|
    requires forall v :: 0 <= v < |flights| ==> prev[v].None? && !visited[v]
    ensures Indices(flights, seeds)
    ensures FixInv(flights, startCity, t1, t2, SeedFrom(flights, t1, t2, seeds, 0, multiset{}), (0, 0),
                   prev, visited, lab, -1)
  {
    DepartingIndices(flights, startCity);
    var entries := SeedFrom(flights, t1, t2, seeds, 0, multiset{});
    SeedFromExact(flights, startCity, t1, t2, seeds, 0, multiset{});
    forall v | 0 <= v < |flights| && FirstLeg(flights[v], startCity, t1, t2) && !visited[v]
      ensures (1, flights[v].fare, v, None) in entries
    {
      DepartingMembers(flights, startCity, |flights|, v);
      assert seeds[0..] == seeds;
      SeedFromComplete(flights, t1, t2, seeds, 0, multiset{}, v);
    }
  }

  /** A route ending with an unsettled flight has no smaller (legs, fare)
      pair than some entry waiting in the heap. */
  lemma {:induction false} FrontierEntry(flights: seq<Flight>, startCity: int, t1: int, t2: int,
                                         entries: multiset<Candidate>, visited: seq<bool>, lab: seq<(int, int)>,
                                         r: seq<nat>)
    returns (e: Candidate)
    requires |visited| == |lab| == |flights|
    requires FirstLegsQueued(flights, startCity, t1, t2, entries, visited)
    requires SettledRelaxed(flights, t2, entries, visited, lab, -1)
    requires SettledOptimal(flights, startCity, t1, t2, visited, lab)
    requires IsRoute(flights, r, startCity, t1, t2) && !visited[r[|r| - 1]]
    ensures e in entries && !LexLess((|r|, RouteFare(flights, r)), Key(e))
    decreases |r|
  {
    var x := r[|r| - 1];
    assert RouteFare(flights, r) == RouteFare(flights, r[..|r| - 1]) + flights[x].fare;
    if |r| == 1 {
      assert r[..0] == [];
      e := (1, flights[x].fare, x, None);
    } else {
      RoutePrefix(flights, r, startCity, t1, t2);
      var p := r[..|r| - 1];
      var w := r[|r| - 2];
      assert p[|p| - 1] == w;
      if visited[w] {
        assert ConnectionsQueued(flights, t2, entries, visited, lab, w);
        assert RouteEndsAt(flights, p, w, startCity, t1, t2);
        e := (lab[w].0 + 1, lab[w].1 + flights[x].fare, x, Some(w));
      } else {
        e := FrontierEntry(flights, startCity, t1, t2, entries, visited, lab, p);
      }
    }
  }

  /** Taking out an entry of a settled flight changes nothing but the
      level. */
  lemma StaleStep(flights: seq<Flight>, startCity: int, t1: int, t2: int, top: Candidate,
                  rest: multiset<Candidate>, level: (int, int), prev: seq<Option<nat>>, visited: seq<bool>,
                  lab: seq<(int, int)>)
    requires FixInv(flights, startCity, t1, t2, rest + multiset{top}, level, prev, visited, lab, -1)
    requires forall e :: e in rest ==> !ByHopsThenFare(e, top)
    requires top.2 < |flights| && visited[top.2]
    ensures FixInv(flights, startCity, t1, t2, rest, Key(top), prev, visited, lab, -1)
  {
    var entries := rest + multiset{top};
    assert top in entries;
    forall e | e in rest
      ensures e in entries
    {
    }
    forall v | 0 <= v < |flights| && FirstLeg(flights[v], startCity, t1, t2) && !visited[v]
      ensures (1, flights[v].fare, v, None) in rest
    {
      assert (1, flights[v].fare, v, None) in entries;
    }
    forall u, x | 0 <= u < |flights| && visited[u] && 0 <= x < |flights| && !visited[x] && Connects(flights[u], flights[x], t2)
      ensures (lab[u].0 + 1, lab[u].1 + flights[x].fare, x, Some(u)) in rest
    {
      assert ConnectionsQueued(flights, t2, entries, visited, lab, u);
    }
  }

  /** Settling `top`'s flight with `top`'s label: no route ending with it
      has a smaller (legs, fare) pair. */
  lemma SettleOptimal(flights: seq<Flight>, startCity: int, t1: int, t2: int, top: Candidate,
                      rest: multiset<Candidate>, visited: seq<bool>, lab: seq<(int, int)>)
    requires |visited| == |lab| == |flights|
    requires FirstLegsQueued(flights, startCity, t1, t2, rest + multiset{top}, visited)
    requires SettledRelaxed(flights, t2, rest + multiset{top}, visited, lab, -1)
    requires SettledOptimal(flights, startCity, t1, t2, visited, lab)
    requires forall e :: e in rest ==> !ByHopsThenFare(e, top)
    requires top.2 < |flights| && !visited[top.2]
    ensures SettledOptimal(flights, startCity, t1, t2, visited[top.2 := true], lab[top.2 := Key(top)])
  {
    var visited', lab' := visited[top.2 := true], lab[top.2 := Key(top)];
    forall v, r | 0 <= v < |flights| && visited'[v] && RouteEndsAt(flights, r, v, startCity, t1, t2)
      ensures !LexLess((|r|, RouteFare(flights, r)), lab'[v])
    {
      if v == top.2 {
        var e := FrontierEntry(flights, startCity, t1, t2, rest + multiset{top}, visited, lab, r);
        assert e == top || e in rest;
      } else {
        assert visited[v];
      }
    }
  }

  /** The entries left after taking out `top` stay exact and above `top`'s
      label, which the newly settled flight takes. */
  lemma SettleEntries(flights: seq<Flight>, startCity: int, t1: int, t2: int, top: Candidate,
                      rest: multiset<Candidate>, level: (int, int), visited: seq<bool>, lab: seq<(int, int)>)
    requires |visited| == |lab| == |flights|
    requires EntriesExact(flights, startCity, t1, t2, rest + multiset{top}, level, visited, lab)
    requires SettledBelow(flights, visited, lab, level)
    requires forall e :: e in rest ==> !ByHopsThenFare(e, top)
    requires top.2 < |flights| && !visited[top.2]
    ensures EntriesExact(flights, startCity, t1, t2, rest, Key(top), visited[top.2 := true], lab[top.2 := Key(top)])
    ensures SettledBelow(flights, visited[top.2 := true], lab[top.2 := Key(top)], Key(top))
  {
    assert top in rest + multiset{top};
    forall e | e in rest
      ensures e in rest + multiset{top}
    {
    }
  }

  /** The settled flight takes the link its entry carries, which keeps the
      labels adding up along links. */
  lemma SettleChain(flights: seq<Flight>, startCity: int, t1: int, t2: int, top: Candidate,
                    entries: multiset<Candidate>, level: (int, int), prev: seq<Option<nat>>, visited: seq<bool>,
                    lab: seq<(int, int)>)
    requires |prev| == |visited| == |lab| == |flights|
    requires EntriesExact(flights, startCity, t1, t2, entries, level, visited, lab)
    requires LabelChain(flights, startCity, t1, t2, prev, visited, lab)
    requires top in entries && !visited[top.2]
    ensures LabelChain(flights, startCity, t1, t2, prev[top.2 := top.3], visited[top.2 := true], lab[top.2 := Key(top)])
  {
  }

  /** Every first leg and every relaxed connection still waiting stays in
      the heap, since only `top`'s flight loses entries by settling. */
  lemma SettleQueued(flights: seq<Flight>, startCity: int, t1: int, t2: int, top: Candidate,
                     rest: multiset<Candidate>, visited: seq<bool>, lab: seq<(int, int)>)
    requires |visited| == |lab| == |flights|
    requires FirstLegsQueued(flights, startCity, t1, t2, rest + multiset{top}, visited)
    requires SettledRelaxed(flights, t2, rest + multiset{top}, visited, lab, -1)
    requires top.2 < |flights| && !visited[top.2]
    ensures FirstLegsQueued(flights, startCity, t1, t2, rest, visited[top.2 := true])
    ensures SettledRelaxed(flights, t2, rest, visited[top.2 := true], lab[top.2 := Key(top)], top.2)
  {
    var entries := rest + multiset{top};
    var visited', lab' := visited[top.2 := true], lab[top.2 := Key(top)];
    forall v | 0 <= v < |flights| && FirstLeg(flights[v], startCity, t1, t2) && !visited'[v]
      ensures (1, flights[v].fare, v, None) in rest
    {
      assert (1, flights[v].fare, v, None) in entries;
    }
    forall u | 0 <= u < |flights| && visited'[u] && u != top.2
      ensures ConnectionsQueued(flights, t2, rest, visited', lab', u)
    {
      assert ConnectionsQueued(flights, t2, entries, visited, lab, u);
      forall x | 0 <= x < |flights| && !visited'[x] && Connects(flights[u], flights[x], t2)
        ensures (lab'[u].0 + 1, lab'[u].1 + flights[x].fare, x, Some(u)) in rest
      {
        assert (lab[u].0 + 1, lab[u].1 + flights[x].fare, x, Some(u)) in entries;
      }
    }
  }

  /** Taking out the first entry of an unsettled flight settles it with its
      entry's label and link; only its own relaxation is outstanding. */
  lemma SettleStep(flights: seq<Flight>, startCity: int, t1: int, t2: int, top: Candidate,
                   rest: multiset<Candidate>, level: (int, int), prev: seq<Option<nat>>, visited: seq<bool>,
                   lab: seq<(int, int)>)
    requires FixInv(flights, startCity, t1, t2, rest + multiset{top}, level, prev, visited, lab, -1)
    requires forall e :: e in rest ==> !ByHopsThenFare(e, top)
    requires top.2 < |flights| && !visited[top.2]
    ensures FixInv(flights, startCity, t1, t2, rest, Key(top), prev[top.2 := top.3], visited[top.2 := true],
                   lab[top.2 := Key(top)], top.2)
  {
    SettleEntries(flights, startCity, t1, t2, top, rest, level, visited, lab);
    assert top in rest + multiset{top};
    SettleChain(flights, startCity, t1, t2, top, rest + multiset{top}, level, prev, visited, lab);
    SettleQueued(flights, startCity, t1, t2, top, rest, visited, lab);
    SettleOptimal(flights, startCity, t1, t2, top, rest, visited, lab);
  }

  /** The winner rule keeps the winner minimal among the settled flights
      once `top`'s flight, settled with `top`'s label, joins them. */
  lemma SettleWinner(flights: seq<Flight>, endCity: int, top: Candidate, s: Search, lab: seq<(int, int)>)
    requires |s.visited| == |lab| == |flights| && top.2 < |flights| && !s.visited[top.2]
    requires FixWinner(flights, endCity, s.visited, lab, s.best, s.numb, s.mincost)
    requires forall v :: 0 <= v < |flights| && s.visited[v] ==> !LexLess(Key(top), lab[v])
    ensures Wins(flights, endCity, top, s) ==>
              FixWinner(flights, endCity, s.visited[top.2 := true], lab[top.2 := Key(top)], Some(top.2), top.0, top.1)
    ensures !Wins(flights, endCity, top, s) ==>
              FixWinner(flights, endCity, s.visited[top.2 := true], lab[top.2 := Key(top)], s.best, s.numb, s.mincost)
  {
  }

  /** An entry the relaxation of `top` queues: a connection of `top`'s
      flight, one leg and that flight's fare above `top`'s label. */
  ghost predicate QueuedFrom(flights: seq<Flight>, t2: int, top: Candidate, e: Candidate) {
    && top.2 < |flights| && e.2 < |flights| && Connects(flights[top.2], flights[e.2], t2)
    && e == (top.0 + 1, top.1 + flights[e.2].fare, e.2, Some(top.2))
  }

  /** The invariant of the relaxation loop after `k` of the flights in
      `succ`: the loop has only added, to the entries `base` it started
      from, entries queued from `top`, and every unsettled legal connection
      among those `k` flights is queued. */
  ghost predicate RelaxInv(flights: seq<Flight>, t2: int, base: multiset<Candidate>, entries: multiset<Candidate>,
                           top: Candidate, visited: seq<bool>, succ: seq<nat>, k: int) {
    && top.2 < |flights| && |visited| == |flights| && 0 <= k <= |succ|
    && base <= entries
    && (forall e :: e in entries - base ==> QueuedFrom(flights, t2, top, e))
    && forall x :: 0 <= x < |flights| && x in succ[..k] && !visited[x] && Connects(flights[top.2], flights[x], t2) ==>
         (top.0 + 1, top.1 + flights[x].fare, x, Some(top.2)) in entries
  }

  /** One pass of the relaxation loop keeps the relaxation invariant. */
  lemma RelaxOneKeepsInv(flights: seq<Flight>, t2: int, base: multiset<Candidate>, entries: multiset<Candidate>,
                         top: Candidate, visited: seq<bool>, succ: seq<nat>, k: nat)
    requires RelaxInv(flights, t2, base, entries, top, visited, succ, k)
    requires k < |succ| && Indices(flights, succ)
    ensures RelaxInv(flights, t2, base, RelaxOne(flights, t2, visited, top, succ[k], entries), top, visited, succ, k + 1)
  {
    var j := succ[k];
    var added := (top.0 + 1, top.1 + flights[j].fare, j, Some(top.2));
    var entries' := RelaxOne(flights, t2, visited, top, j, entries);
    assert succ[..k + 1] == succ[..k] + [j];
    if !visited[j] && Connects(flights[top.2], flights[j], t2) {
      assert entries' == entries + multiset{added};
      forall e | e in entries' - base
        ensures QueuedFrom(flights, t2, top, e)
      {
        if e != added {
          assert e in entries - base;
        }
      }
    }
    forall x | 0 <= x < |flights| && x in succ[..k + 1] && !visited[x] && Connects(flights[top.2], flights[x], t2)
      ensures (top.0 + 1, top.1 + flights[x].fare, x, Some(top.2)) in entries'
    {
      if x != j {
        assert x in succ[..k];
      }
    }
  }

  lemma {:induction false} RelaxFromKeepsInv(flights: seq<Flight>, t2: int, base: multiset<Candidate>,
                                             entries: multiset<Candidate>, top: Candidate, visited: seq<bool>,
                                             succ: seq<nat>, k: nat)
    requires RelaxInv(flights, t2, base, entries, top, visited, succ, k)
    requires Indices(flights, succ)
    ensures RelaxInv(flights, t2, base, RelaxFrom(flights, t2, visited, top, succ, k, entries), top, visited, succ, |succ|)
    decreases |succ| - k
  {
    if k < |succ| {
      RelaxOneKeepsInv(flights, t2, base, entries, top, visited, succ, k);
      RelaxFromKeepsInv(flights, t2, base, RelaxOne(flights, t2, visited, top, succ[k], entries), top, visited, succ, k + 1);
    }
  }

  /** The entries after the loop carry exact labels: those it started from
      by the search invariant, those it queued from `top`'s label. */
  lemma RelaxedExact(flights: seq<Flight>, startCity: int, t1: int, t2: int, base: multiset<Candidate>,
                     entries: multiset<Candidate>, top: Candidate, visited: seq<bool>, lab: seq<(int, int)>,
                     succ: seq<nat>)
    requires AllWellFormed(flights) && |visited| == |lab| == |flights|
    requires EntriesExact(flights, startCity, t1, t2, base, Key(top), visited, lab)
    requires RelaxInv(flights, t2, base, entries, top, visited, succ, |succ|)
    requires visited[top.2] && lab[top.2] == Key(top)
    ensures EntriesExact(flights, startCity, t1, t2, entries, Key(top), visited, lab)
  {
    forall e | e in entries
      ensures e.2 < |flights| && !LexLess(Key(e), Key(top))
      ensures e.3.None? ==> FirstLeg(flights[e.2], startCity, t1, t2) && Key(e) == (1, flights[e.2].fare)
      ensures e.3.Some? ==>
                && e.3.value < |flights| && visited[e.3.value] && Connects(flights[e.3.value], flights[e.2], t2)
                && Key(e) == (lab[e.3.value].0 + 1, lab[e.3.value].1 + flights[e.2].fare)
    {
      if e !in base {
        assert e in entries - base;
        assert QueuedFrom(flights, t2, top, e);
      }
    }
  }

  /** Everything queued before the loop still is, and every unsettled legal
      connection of `top`'s flight is queued through it. */
  lemma RelaxedQueued(flights: seq<Flight>, startCity: int, t1: int, t2: int, base: multiset<Candidate>,
                      entries: multiset<Candidate>, top: Candidate, visited: seq<bool>, lab: seq<(int, int)>,
                      succ: seq<nat>)
    requires top.2 < |flights| && |visited| == |lab| == |flights| && succ == Departing(flights, flights[top.2].endCity)
    requires FirstLegsQueued(flights, startCity, t1, t2, base, visited)
    requires SettledRelaxed(flights, t2, base, visited, lab, top.2)
    requires RelaxInv(flights, t2, base, entries, top, visited, succ, |succ|)
    requires lab[top.2] == Key(top)
    ensures FirstLegsQueued(flights, startCity, t1, t2, entries, visited)
    ensures SettledRelaxed(flights, t2, entries, visited, lab, -1)
  {
    assert succ[..|succ|] == succ;
    forall u | 0 <= u < |flights| && visited[u]
      ensures ConnectionsQueued(flights, t2, entries, visited, lab, u)
    {
      if u == top.2 {
        forall x | 0 <= x < |flights| && !visited[x] && Connects(flights[top.2], flights[x], t2)
          ensures (lab[top.2].0 + 1, lab[top.2].1 + flights[x].fare, x, Some(top.2)) in entries
        {
          DepartingMembers(flights, flights[top.2].endCity, |flights|, x);
        }
      } else {
        assert ConnectionsQueued(flights, t2, base, visited, lab, u);
      }
    }
  }

  /** After the whole list, `top`'s flight is relaxed too: the search
      invariant holds of the new entries with no exception. */
  lemma RelaxFinish(flights: seq<Flight>, startCity: int, t1: int, t2: int, base: multiset<Candidate>,
                    entries: multiset<Candidate>, top: Candidate, prev: seq<Option<nat>>, visited: seq<bool>,
                    lab: seq<(int, int)>, succ: seq<nat>)
    requires FixInv(flights, startCity, t1, t2, base, Key(top), prev, visited, lab, top.2)
    requires top.2 < |flights| && visited[top.2] && lab[top.2] == Key(top)
    requires succ == Departing(flights, flights[top.2].endCity)
    requires RelaxInv(flights, t2, base, entries, top, visited, succ, |succ|)
    ensures FixInv(flights, startCity, t1, t2, entries, Key(top), prev, visited, lab, -1)
  {
    RelaxedExact(flights, startCity, t1, t2, base, entries, top, visited, lab, succ);
    RelaxedQueued(flights, startCity, t1, t2, base, entries, top, visited, lab, succ);
  }

  /** One pass of the main loop keeps the invariant and the winner, and
      either settles one more flight or leaves the state as it was. */
  lemma StepKeepsInv(flights: seq<Flight>, startCity: int, endCity: int, t1: int, t2: int, top: Candidate, s: Search,
                     level: (int, int), lab: seq<(int, int)>)
    requires FixInv(flights, startCity, t1, t2, s.entries + multiset{top}, level, s.prev, s.visited, lab, -1)
    requires FixWinner(flights, endCity, s.visited, lab, s.best, s.numb, s.mincost)
    requires forall e :: e in s.entries ==> !ByHopsThenFare(e, top)
    requires top.2 < |flights|
    ensures var s' := Step(flights, endCity, t2, top, s);
            var lab' := if s.visited[top.2] then lab else lab[top.2 := Key(top)];
            && FixInv(flights, startCity, t1, t2, s'.entries, Key(top), s'.prev, s'.visited, lab', -1)
            && FixWinner(flights, endCity, s'.visited, lab', s'.best, s'.numb, s'.mincost)
            && (if s.visited[top.2] then s' == s else CountTrue(s'.visited) == CountTrue(s.visited) + 1)
  {
    if s.visited[top.2] {
      StaleStep(flights, startCity, t1, t2, top, s.entries, level, s.prev, s.visited, lab);
    } else {
      assert top in s.entries + multiset{top};
      SettleStep(flights, startCity, t1, t2, top, s.entries, level, s.prev, s.visited, lab);
      SettleWinner(flights, endCity, top, s, lab);
      CountTrueSet(s.visited, top.2);
      var visited, lab' := s.visited[top.2 := true], lab[top.2 := Key(top)];
      var succ := Departing(flights, flights[top.2].endCity);
      DepartingIndices(flights, flights[top.2].endCity);
      RelaxFromKeepsInv(flights, t2, s.entries, s.entries, top, visited, succ, 0);
      RelaxFinish(flights, startCity, t1, t2, s.entries, RelaxFrom(flights, t2, visited, top, succ, 0, s.entries),
                  top, s.prev[top.2 := top.3], visited, lab', succ);
    }
  }

  /** The same in terms of the loop's own state: a pass that extracts `top`
      from `entries` and leaves the state `t` keeps the invariant, with
      `top`'s label recorded when it settles. */
  lemma PassKeepsInv(flights: seq<Flight>, startCity: int, endCity: int, t1: int, t2: int, top: Candidate,
                     prev: seq<Option<nat>>, visited: seq<bool>, entries: multiset<Candidate>,
                     best: Option<nat>, numb: int, mincost: int, level: (int, int), lab: seq<(int, int)>, t: Search)
    returns (lab': seq<(int, int)>)
    requires FixInv(flights, startCity, t1, t2, entries, level, prev, visited, lab, -1)
    requires FixWinner(flights, endCity, visited, lab, best, numb, mincost)
    requires top in entries && top.2 < |flights|
    requires forall e :: e in entries - multiset{top} ==> !ByHopsThenFare(e, top)
    requires t == Step(flights, endCity, t2, top, Search(prev, visited, entries - multiset{top}, best, numb, mincost))
    ensures FixInv(flights, startCity, t1, t2, t.entries, Key(top), t.prev, t.visited, lab', -1)
    ensures FixWinner(flights, endCity, t.visited, lab', t.best, t.numb, t.mincost)
    ensures if visited[top.2] then t.visited == visited && |t.entries| < |entries|
            else CountTrue(t.visited) == CountTrue(visited) + 1
  {
    var s := Search(prev, visited, entries - multiset{top}, best, numb, mincost);
    assert entries == s.entries + multiset{top};
    StepKeepsInv(flights, startCity, endCity, t1, t2, top, s, level, lab);
    lab' := if visited[top.2] then lab else lab[top.2 := Key(top)];
  }

  /** Following the links from a settled flight spells a route whose
      number of legs and total fare are the flight's label. */
  lemma {:induction false} WalkLabel(flights: seq<Flight>, startCity: int, t1: int, t2: int,
                                     prev: seq<Option<nat>>, visited: seq<bool>, lab: seq<(int, int)>, v: nat)
    requires AllWellFormed(flights) && |prev| == |visited| == |lab| == |flights|
    requires LabelsAdd(flights, startCity, t1, t2, prev, visited, lab)
    requires PrevRanked(prev, Arrivals(flights))
    requires v < |flights| && visited[v]
    ensures Indices(flights, Walk(prev, Arrivals(flights), v))
    ensures |Walk(prev, Arrivals(flights), v)| == lab[v].0
    ensures RouteFare(flights, Walk(prev, Arrivals(flights), v)) == lab[v].1
    decreases Arrivals(flights)[v]
  {
    var rank := Arrivals(flights);
    var w := Walk(prev, rank, v);
    match prev[v]
    case None =>
      assert w == [v] && w[..0] == [];
      assert RouteFare(flights, w) == RouteFare(flights, []) + flights[v].fare;
    case Some(u) =>
      assert lab[v].0 == lab[u].0 + 1 && lab[v].1 == lab[u].1 + flights[v].fare;
      WalkLabel(flights, startCity, t1, t2, prev, visited, lab, u);
      var wu := Walk(prev, rank, u);
      assert w == wu + [v] && w[..|w| - 1] == wu;
      assert RouteFare(flights, w) == RouteFare(flights, wu) + flights[v].fare;
  }

  /** Once the heap is empty: the winner's links spell a legal route to
      `endCity` whose legs and fare are the winner's label, and every legal
      route to `endCity` has more legs, or as many and no lower fare. */
  lemma SearchOutcome(flights: seq<Flight>, startCity: int, endCity: int, t1: int, t2: int, level: (int, int),
                      prev: seq<Option<nat>>, visited: seq<bool>, lab: seq<(int, int)>,
                      entries: multiset<Candidate>, best: Option<nat>, numb: int, mincost: int)
    requires FixInv(flights, startCity, t1, t2, entries, level, prev, visited, lab, -1) && entries == multiset{}
    requires FixWinner(flights, endCity, visited, lab, best, numb, mincost)
    ensures PrevRanked(prev, Arrivals(flights))
    ensures best.Some? ==>
              && best.value < |flights|
              && RouteTo(flights, Walk(prev, Arrivals(flights), best.value), startCity, endCity, t1, t2)
              && |Walk(prev, Arrivals(flights), best.value)| == numb
              && RouteFare(flights, Walk(prev, Arrivals(flights), best.value)) == mincost
    ensures forall r :: RouteTo(flights, r, startCity, endCity, t1, t2) ==>
              best.Some? && !LexLess((|r|, RouteFare(flights, r)), (numb, mincost))
  {
    LinksRanked(flights, prev, t2);
    if best.Some? {
      assert RootedInFirstLegs(flights, prev, visited, startCity, t1, t2);
      WalkIsRoute(flights, prev, visited, startCity, t1, t2, best.value);
      WalkLabel(flights, startCity, t1, t2, prev, visited, lab, best.value);
    }
    forall r | RouteTo(flights, r, startCity, endCity, t1, t2)
      ensures best.Some? && !LexLess((|r|, RouteFare(flights, r)), (numb, mincost))
    {
      var x := r[|r| - 1];
      if !visited[x] {
        var e := FrontierEntry(flights, startCity, t1, t2, multiset{}, visited, lab, r);
        assert false;
      }
      assert RouteEndsAt(flights, r, x, startCity, t1, t2);
    }
  }

  /** The seeding loop: one entry (1, fare, i, None) per flight leaving the
      start city inside the time window. */
  method SeedEntries(flights: seq<Flight>, t1: int, t2: int, seeds: seq<nat>, minheap: Heap<Candidate>)
    requires Indices(flights, seeds)
    requires minheap.Valid()
    modifies minheap
    ensures minheap.Valid()
    ensures multiset(minheap.heap) == SeedFrom(flights, t1, t2, seeds, 0, old(multiset(minheap.heap)))
  {
    ghost var entries0 := multiset(minheap.heap);
    for k := 0 to |seeds|
      invariant minheap.Valid()
      invariant SeedFrom(flights, t1, t2, seeds, k, multiset(minheap.heap)) == SeedFrom(flights, t1, t2, seeds, 0, entries0)
    {
      var i := seeds[k];
      var flight := flights[i];
      if t1 <= flight.departureTime && flight.arrivalTime <= t2 {
        minheap.Insert((1, flight.fare, i, None));
      }
    }
  }

  /** The body of the relaxation loop for the flight `j`: queue it through
      `top` if it is unsettled and connects. */
  method RelaxTo(flights: seq<Flight>, t2: int, visited: array<bool>, top: Candidate, j: nat,
                 minheap: Heap<Candidate>)
    requires top.2 < |flights| && j < |flights| && visited.Length == |flights|
    requires minheap.Valid()
    modifies minheap
    ensures minheap.Valid()
    ensures multiset(minheap.heap) == RelaxOne(flights, t2, visited[..], top, j, old(multiset(minheap.heap)))
  {
    var (count, cost, idx, _) := top;
    var flight := flights[idx];
    if !visited[j] {
      var next := flights[j];
      if flight.endCity == next.startCity {
        if next.arrivalTime <= t2 && next.departureTime >= flight.arrivalTime + MinLayover {
          minheap.Insert((count + 1, cost + next.fare, j, Some(idx)));
        }
      }
    }
  }

  /** The relaxation loop after settling `top`: every unsettled flight in
      `succ` that connects gets an entry recording `top`'s flight. Links are
      left alone. */
  method RelaxEach(flights: seq<Flight>, t2: int, visited: array<bool>, top: Candidate, succ: seq<nat>,
                   minheap: Heap<Candidate>)
    requires top.2 < |flights| && visited.Length == |flights| && Indices(flights, succ)
    requires minheap.Valid()
    modifies minheap
    ensures minheap.Valid()
    ensures multiset(minheap.heap) == RelaxFrom(flights, t2, visited[..], top, succ, 0, old(multiset(minheap.heap)))
  {
    ghost var entries0 := multiset(minheap.heap);
    for k := 0 to |succ|
      invariant minheap.Valid()
      invariant RelaxFrom(flights, t2, visited[..], top, succ, k, multiset(minheap.heap))
                == RelaxFrom(flights, t2, visited[..], top, succ, 0, entries0)
    {
      RelaxTo(flights, t2, visited, top, succ[k], minheap);
    }
  }

  /** One pass of the main loop: extract the entry `top`, and skip it or
      settle it with the link it carries, judge and relax it. */
  method SearchOnce(flights: seq<Flight>, startAdj: seq<seq<nat>>, endCity: int, t2: int,
                    minheap: Heap<Candidate>, prev: array<Option<nat>>, visited: array<bool>,
                    best: Option<nat>, numb: int, mincost: int)
    returns (best': Option<nat>, numb': int, mincost': int, top: Candidate)
    requires forall c :: 0 <= c < |startAdj| ==> startAdj[c] == Departing(flights, c)
    requires forall i :: 0 <= i < |flights| ==> 0 <= flights[i].endCity < |startAdj|
    requires minheap.Valid() && minheap.comparisonFunction == ByHopsThenFare && |minheap.heap| > 0
    requires forall e :: e in multiset(minheap.heap) ==> e.2 < |flights|
    requires prev.Length == visited.Length == |flights|
    modifies minheap, prev, visited
    ensures minheap.Valid()
    ensures top in old(multiset(minheap.heap)) && top.2 < |flights|
    ensures forall e :: e in old(multiset(minheap.heap)) - multiset{top} ==> !ByHopsThenFare(e, top)
    ensures Search(prev[..], visited[..], multiset(minheap.heap), best', numb', mincost')
            == Step(flights, endCity, t2, top,
                    Search(old(prev[..]), old(visited[..]), old(multiset(minheap.heap)) - multiset{top}, best, numb, mincost))
  {
    var extracted := minheap.Extract();
    top := extracted.value;
    NonePrecedes(minheap.heap, minheap.comparisonFunction, top);
    ghost var s := Search(prev[..], visited[..], multiset(minheap.heap), best, numb, mincost);
    assert old(multiset(minheap.heap)) - multiset{top} == s.entries;
    var (count, cost, idx, from) := top;
    best', numb', mincost' := best, numb, mincost;
    if visited[idx] {
      assert Step(flights, endCity, t2, top, s) == s;
      return;
    }
    ghost var win := Wins(flights, endCity, top, s);
    visited[idx] := true;
    prev[idx] := from;
    var flight := flights[idx];
    if flight.endCity == endCity {
      if best.None? || count < numb || (count == numb && cost < mincost) {
        best', numb', mincost' := Some(idx), count, cost;
      }
    }
    assert win ==> (best', numb', mincost') == (Some(idx), count, cost);
    assert !win ==> (best', numb', mincost') == (best, numb, mincost);
    var succ := startAdj[flight.endCity];
    DepartingIndices(flights, flight.endCity);
    ghost var visited' := visited[..];
    assert visited' == s.visited[idx := true] && prev[..] == s.prev[idx := from];
    RelaxEach(flights, t2, visited, top, succ, minheap);
    ghost var r := RelaxFrom(flights, t2, visited', top, succ, 0, s.entries);
    assert multiset(minheap.heap) == r && visited[..] == visited';
    assert Step(flights, endCity, t2, top, s) == Search(s.prev[idx := from], visited', r, best', numb', mincost');
  }

  /** One pass of the main loop together with the proof that it keeps the
      loop's invariant and makes progress. */
  method DrainOnce(flights: seq<Flight>, startAdj: seq<seq<nat>>, startCity: int, endCity: int, t1: int, t2: int,
                   minheap: Heap<Candidate>, prev: array<Option<nat>>, visited: array<bool>,
                   best: Option<nat>, numb: int, mincost: int, ghost level: (int, int), ghost lab: seq<(int, int)>)
    returns (best': Option<nat>, numb': int, mincost': int, ghost level': (int, int), ghost lab': seq<(int, int)>)
    requires forall c :: 0 <= c < |startAdj| ==> startAdj[c] == Departing(flights, c)
    requires forall i :: 0 <= i < |flights| ==> 0 <= flights[i].endCity < |startAdj|
    requires minheap.Valid() && minheap.comparisonFunction == ByHopsThenFare && |minheap.heap| > 0
    requires prev.Length == visited.Length == |flights|
    requires FixInv(flights, startCity, t1, t2, multiset(minheap.heap), level, prev[..], visited[..], lab, -1)
    requires FixWinner(flights, endCity, visited[..], lab, best, numb, mincost)
    modifies minheap, prev, visited
    ensures minheap.Valid()
    ensures FixInv(flights, startCity, t1, t2, multiset(minheap.heap), level', prev[..], visited[..], lab', -1)
    ensures FixWinner(flights, endCity, visited[..], lab', best', numb', mincost')
    ensures || CountTrue(visited[..]) == old(CountTrue(visited[..])) + 1
            || (visited[..] == old(visited[..]) && |minheap.heap| < old(|minheap.heap|))
  {
    ghost var prev0, visited0, entries0 := prev[..], visited[..], multiset(minheap.heap);
    var top;
    best', numb', mincost', top := SearchOnce(flights, startAdj, endCity, t2, minheap, prev, visited, best, numb, mincost);
    lab' := PassKeepsInv(flights, startCity, endCity, t1, t2, top, prev0, visited0, entries0, best, numb, mincost,
                         level, lab, Search(prev[..], visited[..], multiset(minheap.heap), best', numb', mincost'));
    level' := Key(top);
  }

  /** The main loop of the search, run until the heap is empty. It returns
      the winner and, as ghosts, its number of legs and total fare. */
  method DrainHeap(flights: seq<Flight>, startAdj: seq<seq<nat>>, startCity: int, endCity: int, t1: int, t2: int,
                   minheap: Heap<Candidate>, prev: array<Option<nat>>, visited: array<bool>, ghost lab0: seq<(int, int)>)
    returns (bestRoute: Option<nat>, ghost numb: int, ghost mincost: int)
    requires forall c :: 0 <= c < |startAdj| ==> startAdj[c] == Departing(flights, c)
    requires forall i :: 0 <= i < |flights| ==> 0 <= flights[i].endCity < |startAdj|
    requires minheap.Valid() && minheap.comparisonFunction == ByHopsThenFare
    requires prev.Length == visited.Length == |flights|
    requires FixInv(flights, startCity, t1, t2, multiset(minheap.heap), (0, 0), prev[..], visited[..], lab0, -1)
    requires forall v :: 0 <= v < visited.Length ==> !visited[v]
    modifies minheap, prev, visited
    ensures PrevRanked(prev[..], Arrivals(flights))
    ensures bestRoute.Some? ==>
              && bestRoute.value < |flights|
              && RouteTo(flights, Walk(prev[..], Arrivals(flights), bestRoute.value), startCity, endCity, t1, t2)
              && |Walk(prev[..], Arrivals(flights), bestRoute.value)| == numb
              && RouteFare(flights, Walk(prev[..], Arrivals(flights), bestRoute.value)) == mincost
    ensures forall r :: RouteTo(flights, r, startCity, endCity, t1, t2) ==>
              bestRoute.Some? && !LexLess((|r|, RouteFare(flights, r)), (numb, mincost))
  {
    bestRoute := None;
    var numb', mincost' := 0, 0;
    ghost var level := (0, 0);
    ghost var lab := lab0;
    while |minheap.heap| > 0
      invariant minheap.Valid()
      invariant FixInv(flights, startCity, t1, t2, multiset(minheap.heap), level, prev[..], visited[..], lab, -1)
      invariant FixWinner(flights, endCity, visited[..], lab, bestRoute, numb', mincost')
      decreases |flights| - CountTrue(visited[..]), |minheap.heap|
    {
      bestRoute, numb', mincost', level, lab :=
        DrainOnce(flights, startAdj, startCity, endCity, t1, t2, minheap, prev, visited, bestRoute, numb', mincost', level, lab);
    }
    numb, mincost := numb', mincost';
    SearchOutcome(flights, startCity, endCity, t1, t2, level, prev[..], visited[..], lab,
                  multiset(minheap.heap), bestRoute, numb, mincost);
  }

  /** The whole search: a heap seeded with the first legs leaving
      `startCity`, drained to the end. */
  method FindRoute(flights: seq<Flight>, startAdj: seq<seq<nat>>, startCity: int, endCity: int, t1: int, t2: int)
    returns (prev: array<Option<nat>>, bestRoute: Option<nat>, ghost numb: int, ghost mincost: int)
    requires AllWellFormed(flights)
    requires forall c :: 0 <= c < |startAdj| ==> startAdj[c] == Departing(flights, c)
    requires forall i :: 0 <= i < |flights| ==> 0 <= flights[i].endCity < |startAdj|
    requires 0 <= startCity < |startAdj|
    ensures fresh(prev) && prev.Length == |flights|
    ensures PrevRanked(prev[..], Arrivals(flights))
    ensures bestRoute.Some? ==>
              && bestRoute.value < |flights|
              && RouteTo(flights, Walk(prev[..], Arrivals(flights), bestRoute.value), startCity, endCity, t1, t2)
              && |Walk(prev[..], Arrivals(flights), bestRoute.value)| == numb
              && RouteFare(flights, Walk(prev[..], Arrivals(flights), bestRoute.value)) == mincost
    ensures forall r :: RouteTo(flights, r, startCity, endCity, t1, t2) ==>
              bestRoute.Some? && !LexLess((|r|, RouteFare(flights, r)), (numb, mincost))
  {
    var n := |flights|;
    ByHopsThenFareIsStrictWeakOrder();
    var minheap := new Heap<Candidate>(ByHopsThenFare, []);
    prev := new Option<nat>[n](_ => None);
    var visited := new bool[n](_ => false);
    ghost var lab0 := seq(n, _ => (0, 0));
    SeedInv(flights, startCity, t1, t2, startAdj[startCity], prev[..], visited[..], lab0);
    SeedEntries(flights, t1, t2, startAdj[startCity], minheap);
    bestRoute, numb, mincost := DrainHeap(flights, startAdj, startCity, endCity, t1, t2, minheap, prev, visited, lab0);
  }
}
