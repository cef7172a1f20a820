/** Facts shared by the three searches: how their predecessor links are
    shaped, why following them terminates, and what the walk they describe
    is. */
module SearchFacts {
  import opened Options
  import opened Flights
  import opened Paths

  /** Arrival times, the ranking under which every recorded predecessor link
      points backwards in time. */
  function Arrivals(flights: seq<Flight>): (rank: seq<nat>)
    requires AllWellFormed(flights)
    ensures |rank| == |flights|
    ensures forall i :: 0 <= i < |flights| ==> rank[i] == flights[i].arrivalTime
  {
    seq(|flights|, i requires 0 <= i < |flights| => flights[i].arrivalTime as nat)
  }

  /** Number of flights marked in a visited array. */
  function CountTrue(s: seq<bool>): (c: nat)
    ensures c <= |s|
  {
    if s == [] then 0 else CountTrue(s[..|s| - 1]) + (if s[|s| - 1] then 1 else 0)
  }

  lemma {:induction false} CountTrueNone(s: seq<bool>)
    requires forall k :: 0 <= k < |s| ==> !s[k]
    ensures CountTrue(s) == 0
  {
    if s != [] {
      CountTrueNone(s[..|s| - 1]);
    }
  }

  lemma {:induction false} CountTrueSet(s: seq<bool>, j: int)
    requires 0 <= j < |s| && !s[j]
    ensures CountTrue(s[j := true]) == CountTrue(s) + 1
  {
    var s' := s[j := true];
    if j < |s| - 1 {
      assert s'[..|s| - 1] == s[..|s| - 1][j := true];
      CountTrueSet(s[..|s| - 1], j);
    } else {
      assert s'[..|s| - 1] == s[..|s| - 1];
    }
  }

  /** Every recorded link joins two flights by the connection rule. */
  ghost predicate LinksConnect(flights: seq<Flight>, prev: seq<Option<nat>>, t2: int) {
    && |prev| == |flights|
    && forall v :: 0 <= v < |prev| && prev[v].Some? ==>
         prev[v].value < |flights| && Connects(flights[prev[v].value], flights[v], t2)
  }

  /** Following links from a reached flight stays among reached flights and
      ends at a flight that may open the itinerary. */
  ghost predicate RootedInFirstLegs(flights: seq<Flight>, prev: seq<Option<nat>>, reached: seq<bool>, startCity: int, t1: int, t2: int) {
    && |reached| == |flights| == |prev|
    && forall v :: 0 <= v < |reached| && reached[v] ==>
         && (prev[v].None? ==> FirstLeg(flights[v], startCity, t1, t2))
         && (prev[v].Some? ==> prev[v].value < |reached| && reached[prev[v].value])
  }

  /** Links that obey the connection rule between well-formed flights are
      acyclic: each points to an earlier arrival. */
  lemma LinksRanked(flights: seq<Flight>, prev: seq<Option<nat>>, t2: int)
    requires AllWellFormed(flights) && LinksConnect(flights, prev, t2)
    ensures PrevRanked(prev, Arrivals(flights))
  {
    forall v | 0 <= v < |prev| && prev[v].Some?
      ensures flights[prev[v].value].arrivalTime < flights[v].arrivalTime
    {
      ConnectsDelaysArrival(flights[prev[v].value], flights[v], t2);
    }
  }

  /** The walk back from a reached flight is a legal route ending there. */
  lemma {:induction false} WalkIsRoute(flights: seq<Flight>, prev: seq<Option<nat>>, reached: seq<bool>,
                                       startCity: int, t1: int, t2: int, v: nat)
    requires AllWellFormed(flights) && LinksConnect(flights, prev, t2)
    requires RootedInFirstLegs(flights, prev, reached, startCity, t1, t2)
    requires v < |flights| && reached[v]
    ensures PrevRanked(prev, Arrivals(flights))
    ensures RouteEndsAt(flights, Walk(prev, Arrivals(flights), v), v, startCity, t1, t2)
    decreases flights[v].arrivalTime
  {
    LinksRanked(flights, prev, t2);
    var rank := Arrivals(flights);
    match prev[v]
    case None =>
      assert Walk(prev, rank, v) == [v];
    case Some(u) =>
      WalkIsRoute(flights, prev, reached, startCity, t1, t2, u);
      assert Walk(prev, rank, v) == Walk(prev, rank, u) + [v];
      RouteSnoc(flights, Walk(prev, rank, u), v, startCity, t1, t2);
  }
}
