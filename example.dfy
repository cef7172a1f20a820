/** Worked queries against two small timetables, derived from the planner's
    contracts alone. */
module PlannerExample {
  import opened Options
  import opened Flights
  import opened Planning
  import HopsThenFare

  /** F0 flies 0 to 1 (times 0 to 10, fare 5), F1 flies 1 to 2 (40 to 60,
      fare 5) and F2 flies 0 to 2 directly (0 to 100, fare 20). */
  function ThreeFlights(): seq<Flight> {
    [Flight(0, 0, 0, 1, 10, 5), Flight(1, 1, 40, 2, 60, 5), Flight(2, 0, 0, 2, 100, 20)]
  }

  /** From city 0 to city 2 within [0, 100] there are exactly two routes:
      F0 then F1, and F2 alone. */
  lemma ThreeFlightsRoutes(r: seq<nat>)
    ensures RouteTo(ThreeFlights(), r, 0, 2, 0, 100) <==> r == [0, 1] || r == [2]
  {
    var fs := ThreeFlights();
    if r == [0, 1] {
      assert Connects(fs[0], fs[1], 100);
    }
    if RouteTo(fs, r, 0, 2, 0, 100) {
      assert r[0] == 0 || r[0] == 2;
      forall k | 0 <= k < |r| - 1
        ensures r[k] == 0
      {
        assert Connects(fs[r[k]], fs[r[k + 1]], 100);
      }
      forall k | 0 < k < |r|
        ensures r[k] == 1
      {
        assert Connects(fs[r[k - 1]], fs[r[k]], 100);
      }
      var second := if |r| > 1 then r[1] else 0;
      assert |r| <= 2;
      assert |r| == 1 ==> r[0] == 2;
    }
  }

  /** Within [0, 50] no route reaches city 2: both flights landing there
      land later. */
  lemma ThreeFlightsLateWindow(r: seq<nat>)
    ensures !RouteTo(ThreeFlights(), r, 0, 2, 0, 50)
  {
    LastLegWithin(ThreeFlights(), r, 0, 2, 0, 50);
  }

  /** The cheapest query takes the two connecting legs (fare 10 against
      20); the breadth-first and the corrected fewest-legs-then-cheapest
      queries take the direct flight; with the window closing at 50 nothing
      is found. */
  method ThreeFlightsQueries()
    returns (cheapest: seq<Flight>, fewest: seq<Flight>, fewestCheapest: seq<Flight>, late: seq<Flight>)
    ensures cheapest == [ThreeFlights()[0], ThreeFlights()[1]]
    ensures fewest == [ThreeFlights()[2]]
    ensures fewestCheapest == [ThreeFlights()[2]]
    ensures late == []
  {
    var fs := ThreeFlights();
    var planner := new Planner(fs);
    ThreeFlightsRoutes([0, 1]);
    ThreeFlightsRoutes([2]);
    ghost var route;
    cheapest, route := planner.CheapestRoute(0, 2, 0, 100);
    ThreeFlightsRoutes(route);
    fewest, route := planner.LeastFlightsEarliestRoute(0, 2, 0, 100);
    ThreeFlightsRoutes(route);
    fewestCheapest, route := planner.LeastFlightsCheapestRoute(0, 2, 0, 100);
    ThreeFlightsRoutes(route);
    late, route := planner.CheapestRoute(0, 2, 0, 50);
    ThreeFlightsLateWindow(route);
  }

  /** The fewest-legs-then-cheapest search as written also takes the
      direct flight here: its winner's label is optimal, and no label of a
      route ending with F1 has a single leg. */
  method ThreeFlightsAsWrittenQuery() returns (fewestCheapest: seq<Flight>)
    ensures fewestCheapest == [ThreeFlights()[2]]
  {
    var fs := ThreeFlights();
    var planner := new Planner(fs);
    ThreeFlightsRoutes([0, 1]);
    ThreeFlightsRoutes([2]);
    ghost var route, settled, numb, mincost;
    fewestCheapest, route, settled, numb, mincost := planner.LeastFlightsCheapestRouteAsWritten(0, 2, 0, 100);
    ThreeFlightsRoutes(route);
  }

  /** On the timetable `HopsThenFare.OverwriteFlights` (F0 and F1 from 0 to
      1 at fares 1 and 5, F2 from 1 to 2 at fare 1) the routes from city 0
      to city 2 within [0, 100] are F0 then F2 (fare 2) and F1 then F2
      (fare 6). */
  lemma TwoWaysRoutes(r: seq<nat>)
    ensures RouteTo(HopsThenFare.OverwriteFlights(), r, 0, 2, 0, 100) <==> r == [0, 2] || r == [1, 2]
  {
    var fs := HopsThenFare.OverwriteFlights();
    if r == [0, 2] {
      assert Connects(fs[0], fs[2], 100);
    }
    if r == [1, 2] {
      assert Connects(fs[1], fs[2], 100);
    }
    if RouteTo(fs, r, 0, 2, 0, 100) {
      assert r[0] == 0 || r[0] == 1;
      forall k | 0 <= k < |r| - 1
        ensures r[k] < 2
      {
        assert Connects(fs[r[k]], fs[r[k + 1]], 100);
      }
      forall k | 0 < k < |r|
        ensures r[k] == 2
      {
        assert Connects(fs[r[k - 1]], fs[r[k]], 100);
      }
      var second := if |r| > 1 then r[1] else 0;
      assert |r| <= 2;
    }
  }

  /** On that timetable the corrected fewest-legs-then-cheapest query
      returns the fare-2 route. The query as written returns one of the two
      routes with the right winning label, two legs and fare 2; which route
      its links spell its contract leaves open
      (`HopsThenFare.PrevOverwriteCounterexample` traces it to the fare-6
      one). */
  method TwoWaysQuery() returns (fewestCheapest: seq<Flight>, asWritten: seq<Flight>, ghost key: (int, int))
    ensures fewestCheapest == [HopsThenFare.OverwriteFlights()[0], HopsThenFare.OverwriteFlights()[2]]
    ensures || asWritten == [HopsThenFare.OverwriteFlights()[0], HopsThenFare.OverwriteFlights()[2]]
            || asWritten == [HopsThenFare.OverwriteFlights()[1], HopsThenFare.OverwriteFlights()[2]]
    ensures key == (2, 2)
  {
    var fs := HopsThenFare.OverwriteFlights();
    var planner := new Planner(fs);
    TwoWaysRoutes([0, 2]);
    TwoWaysRoutes([1, 2]);
    ghost var route;
    fewestCheapest, route := planner.LeastFlightsCheapestRoute(0, 2, 0, 100);
    TwoWaysRoutes(route);
    ghost var settled, numb, mincost;
    asWritten, route, settled, numb, mincost := planner.LeastFlightsCheapestRouteAsWritten(0, 2, 0, 100);
    TwoWaysRoutes(route);
    ghost var r :| RouteEndsAt(fs, r, 2, 0, 0, 100) && |r| == numb && RouteFare(fs, r) == mincost;
    TwoWaysRoutes(r);
    key := (numb, mincost);
  }
}
