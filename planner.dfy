/** The route-search engine: the planner object with its adjacency index, the
    path reconstruction shared by all searches, and the three searches. */
module Planning {
  import opened Options
  import opened Flights
  import opened Paths
  import opened SearchFacts
  import BreadthFirst
  import CheapestFirst
  import HopsThenFare
  import HopsThenFareCorrected

  /** `m` is the largest city mentioned by any flight, or 0 when there is
      none larger. */
  ghost predicate IsMaxCity(flights: seq<Flight>, m: int) {
    && m >= 0
    && (forall i :: 0 <= i < |flights| ==> flights[i].startCity <= m && flights[i].endCity <= m)
    && (m == 0 || exists i :: 0 <= i < |flights| && (flights[i].startCity == m || flights[i].endCity == m))
  }

  /** The first loop of the planner's constructor. */
  method ComputeMaxCity(flights: seq<Flight>) returns (maxCity: int)
    ensures IsMaxCity(flights, maxCity)
  {
    maxCity := 0;
    ghost var holder := -1;
    for i := 0 to |flights|
      invariant maxCity >= 0
      invariant forall k :: 0 <= k < i ==> flights[k].startCity <= maxCity && flights[k].endCity <= maxCity
      invariant maxCity == 0 || (0 <= holder < i && (flights[holder].startCity == maxCity || flights[holder].endCity == maxCity))
    {
      var flight := flights[i];
      var m := if flight.startCity > flight.endCity then flight.startCity else flight.endCity;
      if m > maxCity {
        maxCity := m;
        holder := i;
      }
    }
  }

  /** The second loop of the planner's constructor: one list per city up to
      `maxCity`, each holding the indices of the flights leaving it. */
  method BuildStartAdj(flights: seq<Flight>, maxCity: int) returns (startAdj: seq<seq<nat>>)
    requires maxCity >= 0
    requires forall i :: 0 <= i < |flights| ==> 0 <= flights[i].startCity <= maxCity
    ensures |startAdj| == maxCity + 1
    ensures forall c :: 0 <= c <= maxCity ==> startAdj[c] == Departing(flights, c)
  {
    startAdj := seq(maxCity + 1, _ => []);
    for i := 0 to |flights|
      invariant |startAdj| == maxCity + 1
      invariant forall c :: 0 <= c <= maxCity ==> startAdj[c] == DepartingBefore(flights, c, i)
    {
      var c := flights[i].startCity;
      startAdj := startAdj[c := startAdj[c] + [i]];
    }
  }

  lemma FlightsOfReversed(flights: seq<Flight>, r: seq<nat>)
    requires Indices(flights, r)
    ensures Indices(flights, Reversed<nat>(r))
    ensures FlightsOf(flights, Reversed<nat>(r)) == Reversed<Flight>(FlightsOf(flights, r))
  {
    var rr := Reversed<nat>(r);
    var p := FlightsOf(flights, r);
    forall k | 0 <= k < |r|
      ensures rr[k] < |flights| && flights[rr[k]] == Reversed<Flight>(p)[k]
    {
      ReversedAt<nat>(r, k);
      ReversedAt<Flight>(p, k);
    }
  }

  class Planner {
    const flights: seq<Flight>
    const startAdj: seq<seq<nat>>

    /** The engine's invariant: well-formed flights, and an index with one
        entry per city up to the largest one, listing the flights leaving
        that city. */
    ghost predicate Valid() {
      && AllWellFormed(flights)
      && IsMaxCity(flights, |startAdj| - 1)
      && forall c :: 0 <= c < |startAdj| ==> startAdj[c] == Departing(flights, c)
    }

    constructor (flights: seq<Flight>)
      requires AllWellFormed(flights)
      ensures this.flights == flights && Valid()
    {
      var maxCity := ComputeMaxCity(flights);
      var adj := BuildStartAdj(flights, maxCity);
      this.flights := flights;
      this.startAdj := adj;
    }

    /** Rebuilds the itinerary ending with flight `lastIdx` by following the
        predecessor links back and then reversing the collected flights. */
    method GetAns(prev: array<Option<nat>>, lastIdx: Option<nat>, ghost rank: seq<nat>) returns (path: seq<Flight>)
      requires prev.Length == |flights|
      requires PrevRanked(prev[..], rank)
      requires lastIdx.Some? ==> lastIdx.value < |flights|
      ensures lastIdx.None? ==> path == []
      ensures lastIdx.Some? ==> path == FlightsOf(flights, Walk(prev[..], rank, lastIdx.value))
    {
      if lastIdx.None? {
        return [];
      }
      path := [];
      var curr: Option<nat> := lastIdx;
      ghost var links := prev[..];
      ghost var taken: seq<nat> := [];
      ghost var w := Walk(links, rank, lastIdx.value);
      while curr.Some?
        invariant curr.Some? ==> curr.value < |flights|
        invariant Indices(flights, taken) && path == FlightsOf(flights, taken)
        invariant w == (if curr.Some? then Walk(links, rank, curr.value) else []) + Reversed<nat>(taken)
        decreases if curr.Some? then rank[curr.value] + 1 else 0
      {
        var c := curr.value;
        WalkStep(links, rank, c, taken);
        FlightsOfSnoc(flights, taken, c);
        path := path + [flights[c]];
        taken := taken + [c];
        curr := prev[c];
      }
      FlightsOfReversed(flights, taken);
      path := ReverseInPlace(path);
    }

    /** The common end of every search: the itinerary the winning flight's
        links spell, or nothing when no flight won. */
    method Answer(prev: array<Option<nat>>, bestRoute: Option<nat>, startCity: int, endCity: int, t1: int, t2: int)
      returns (path: seq<Flight>, ghost route: seq<nat>)
      requires AllWellFormed(flights)
      requires prev.Length == |flights| && PrevRanked(prev[..], Arrivals(flights))
      requires bestRoute.Some? ==>
                 bestRoute.value < |flights| && RouteTo(flights, Walk(prev[..], Arrivals(flights), bestRoute.value), startCity, endCity, t1, t2)
      ensures bestRoute.None? ==> route == []
      ensures bestRoute.Some? ==> route == Walk(prev[..], Arrivals(flights), bestRoute.value) && route != []
      ensures Indices(flights, route) && path == FlightsOf(flights, route)
      ensures route != [] ==> RouteTo(flights, route, startCity, endCity, t1, t2)
      ensures path != [] ==> IsItinerary(path, startCity, endCity, t1, t2)
    {
      ghost var rank := Arrivals(flights);
      path := GetAns(prev, bestRoute, rank);
      if bestRoute.Some? {
        route := Walk(prev[..], rank, bestRoute.value);
        RouteIsItinerary(flights, route, startCity, endCity, t1, t2);
      } else {
        route := [];
      }
    }

    /** Breadth-first search over flights: the route with the fewest legs,
        and among those one that lands earliest. */
    method LeastFlightsEarliestRoute(startCity: int, endCity: int, t1: int, t2: int)
      returns (path: seq<Flight>, ghost route: seq<nat>)
      requires Valid()
      requires startCity == endCity || 0 <= startCity < |startAdj|
      ensures startCity == endCity ==> path == [] && route == []
      ensures Indices(flights, route) && path == FlightsOf(flights, route)
      ensures route != [] ==> RouteTo(flights, route, startCity, endCity, t1, t2)
      ensures path != [] ==> IsItinerary(path, startCity, endCity, t1, t2)
      ensures startCity != endCity ==>
                forall r :: RouteTo(flights, r, startCity, endCity, t1, t2) ==> route != [] && |route| <= |r|
      ensures startCity != endCity ==>
                forall r :: RouteTo(flights, r, startCity, endCity, t1, t2) ==>
                  && route != []
                  && !LexLess((|r|, flights[r[|r| - 1]].arrivalTime),
                              (|route|, flights[route[|route| - 1]].arrivalTime))
    {
      if startCity == endCity {
        return [], [];
      }
      var prev, bestRoute := BreadthFirst.FindRoute(flights, startAdj, startCity, endCity, t1, t2);
      path, route := Answer(prev, bestRoute, startCity, endCity, t1, t2);
    }

    /** Cheapest-fare search: Dijkstra's algorithm over flights, with each
        flight's fare as the cost of taking it. */
    method CheapestRoute(startCity: int, endCity: int, t1: int, t2: int)
      returns (path: seq<Flight>, ghost route: seq<nat>)
      requires Valid()
      requires startCity == endCity || 0 <= startCity < |startAdj|
      ensures startCity == endCity ==> path == [] && route == []
      ensures Indices(flights, route) && path == FlightsOf(flights, route)
      ensures route != [] ==> RouteTo(flights, route, startCity, endCity, t1, t2)
      ensures path != [] ==> IsItinerary(path, startCity, endCity, t1, t2)
      ensures startCity != endCity ==>
                forall r :: RouteTo(flights, r, startCity, endCity, t1, t2) ==>
                  route != [] && RouteFare(flights, route) <= RouteFare(flights, r)
    {
      if startCity == endCity {
        return [], [];
      }
      var prev, bestRoute, cheapest := CheapestFirst.FindRoute(flights, startAdj, startCity, endCity, t1, t2);
      path, route := Answer(prev, bestRoute, startCity, endCity, t1, t2);
    }

    /** The fewest-legs-then-cheapest search exactly as the engine performs
        it, links overwritten on every relaxation. Besides the legality of
        what it returns, it settles flights in non-decreasing (legs, fare)
        order, each at most once, and its winner is the settled flight
        landing in `endCity` with the smallest such label. That label,
        (numb, mincost), is optimal: some route ending with the winner has
        those legs and that fare, and no legal route to `endCity` has fewer
        legs, or as many and a lower fare. The itinerary its links spell
        need not carry that label. */
    method LeastFlightsCheapestRouteAsWritten(startCity: int, endCity: int, t1: int, t2: int)
      returns (path: seq<Flight>, ghost route: seq<nat>, ghost settled: seq<HopsThenFare.Label>,
               ghost numb: int, ghost mincost: int)
      requires Valid()
      requires startCity == endCity || 0 <= startCity < |startAdj|
      ensures startCity == endCity ==> path == [] && route == [] && settled == []
      ensures Indices(flights, route) && path == FlightsOf(flights, route)
      ensures route != [] ==> RouteTo(flights, route, startCity, endCity, t1, t2)
      ensures path != [] ==> IsItinerary(path, startCity, endCity, t1, t2)
      ensures forall i, j :: 0 <= i < j < |settled| ==>
                settled[i].2 != settled[j].2 && !LexLess(HopsThenFare.Key(settled[j]), HopsThenFare.Key(settled[i]))
      ensures route != [] ==>
                exists i :: 0 <= i < |settled| && settled[i] == (numb, mincost, route[|route| - 1])
      ensures forall i :: 0 <= i < |settled| && settled[i].2 < |flights| && flights[settled[i].2].endCity == endCity ==>
                route != [] && !LexLess(HopsThenFare.Key(settled[i]), (numb, mincost))
      ensures route != [] ==> HopsThenFare.Achieved(flights, startCity, t1, t2, route[|route| - 1], (numb, mincost))
      ensures startCity != endCity ==>
                forall r :: RouteTo(flights, r, startCity, endCity, t1, t2) ==>
                  route != [] && !LexLess((|r|, RouteFare(flights, r)), (numb, mincost))
    {
      if startCity == endCity {
        return [], [], [], 0, 0;
      }
      var prev, bestRoute;
      ghost var bestAt;
      prev, bestRoute, settled, numb, mincost, bestAt :=
        HopsThenFare.FindRoute(flights, startAdj, startCity, endCity, t1, t2);
      path, route := Answer(prev, bestRoute, startCity, endCity, t1, t2);
    }

    /** The fewest-legs-then-cheapest search with each link recorded when its
        flight is settled, from the entry that settles it: among the legal
        routes to `endCity` it returns one with the fewest legs, and among
        those one with the lowest fare. */
    method LeastFlightsCheapestRoute(startCity: int, endCity: int, t1: int, t2: int)
      returns (path: seq<Flight>, ghost route: seq<nat>)
      requires Valid()
      requires startCity == endCity || 0 <= startCity < |startAdj|
      ensures startCity == endCity ==> path == [] && route == []
      ensures Indices(flights, route) && path == FlightsOf(flights, route)
      ensures route != [] ==> RouteTo(flights, route, startCity, endCity, t1, t2)
      ensures path != [] ==> IsItinerary(path, startCity, endCity, t1, t2)
      ensures startCity != endCity ==>
                forall r :: RouteTo(flights, r, startCity, endCity, t1, t2) ==>
                  && route != []
                  && (|route| < |r| || (|route| == |r| && RouteFare(flights, route) <= RouteFare(flights, r)))
    {
      if startCity == endCity {
        return [], [];
      }
      var prev, bestRoute;
      ghost var numb, mincost;
      prev, bestRoute, numb, mincost := HopsThenFareCorrected.FindRoute(flights, startAdj, startCity, endCity, t1, t2);
      path, route := Answer(prev, bestRoute, startCity, endCity, t1, t2);
    }
  }
}
