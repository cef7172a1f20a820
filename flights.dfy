/** The optional value used wherever the planner keeps "no value yet"
    (an unset predecessor, no winner found, an unbounded best cost). */
module Options {
  datatype Option<+T> = None | Some(value: T)
}

/** Scheduled flights, the connection rule shared by all searches, and
    routes: legally connected chains of flights given by their indices. */
module Flights {

  /** One scheduled leg: identifier, origin, departure time, destination,
      arrival time and fare. */
  datatype Flight = Flight(
    flightNo: int,
    startCity: int,
    departureTime: int,
    endCity: int,
    arrivalTime: int,
    fare: int)

  /** Minimum ground time between the arrival of one leg and the departure
      of the next. */
  const MinLayover: int := 20

  /** What the planner silently trusts of its input: cities and times are
      non-negative, a flight does not land before it leaves, fares are
      non-negative. */
  predicate WellFormed(f: Flight) {
    && f.startCity >= 0
    && f.endCity >= 0
    && 0 <= f.departureTime <= f.arrivalTime
    && f.fare >= 0
  }

  predicate AllWellFormed(flights: seq<Flight>) {
    forall i :: 0 <= i < |flights| ==> WellFormed(flights[i])
  }

  /** `f` may open an itinerary: it leaves `startCity` no earlier than `t1`
      and lands no later than `t2`. */
  predicate FirstLeg(f: Flight, startCity: int, t1: int, t2: int) {
    f.startCity == startCity && t1 <= f.departureTime && f.arrivalTime <= t2
  }

  /** `g` may follow `f`: it leaves where `f` lands, lands by `t2`, and leaves
      at least `MinLayover` after `f` lands. */
  predicate Connects(f: Flight, g: Flight, t2: int) {
    f.endCity == g.startCity && g.arrivalTime <= t2 && g.departureTime >= f.arrivalTime + MinLayover
  }

  /** Between well-formed flights a connection strictly delays the arrival
      time, so no chain of connections can close into a cycle. */
  lemma ConnectsDelaysArrival(f: Flight, g: Flight, t2: int)
    requires WellFormed(g) && Connects(f, g, t2)
    ensures f.arrivalTime + MinLayover <= g.arrivalTime
  {
  }

  /** An itinerary over flight values: a non-empty chain whose first leg may
      open the trip, whose last leg lands in `endCity`, and whose consecutive
      legs connect. */
  predicate IsItinerary(path: seq<Flight>, startCity: int, endCity: int, t1: int, t2: int) {
    && |path| > 0
    && FirstLeg(path[0], startCity, t1, t2)
    && path[|path| - 1].endCity == endCity
    && forall k :: 0 <= k < |path| - 1 ==> Connects(path[k], path[k + 1], t2)
  }

  predicate Indices(flights: seq<Flight>, r: seq<nat>) {
    forall k :: 0 <= k < |r| ==> r[k] < |flights|
  }

  /** A route: a non-empty sequence of flight indices forming a legal chain
      that starts as a first leg from `startCity`. */
  predicate IsRoute(flights: seq<Flight>, r: seq<nat>, startCity: int, t1: int, t2: int) {
    && |r| > 0
    && Indices(flights, r)
    && FirstLeg(flights[r[0]], startCity, t1, t2)
    && forall k :: 0 <= k < |r| - 1 ==> Connects(flights[r[k]], flights[r[k + 1]], t2)
  }

  /** A route whose last leg is flight `v`. */
  predicate RouteEndsAt(flights: seq<Flight>, r: seq<nat>, v: nat, startCity: int, t1: int, t2: int) {
    IsRoute(flights, r, startCity, t1, t2) && r[|r| - 1] == v
  }

  /** A route whose last leg lands in `endCity`. */
  predicate RouteTo(flights: seq<Flight>, r: seq<nat>, startCity: int, endCity: int, t1: int, t2: int) {
    IsRoute(flights, r, startCity, t1, t2) && flights[r[|r| - 1]].endCity == endCity
  }

  function FlightsOf(flights: seq<Flight>, r: seq<nat>): (path: seq<Flight>)
    requires Indices(flights, r)
    ensures |path| == |r|
    ensures forall k :: 0 <= k < |r| ==> path[k] == flights[r[k]]
  {
    seq(|r|, k requires 0 <= k < |r| => flights[r[k]])
  }

  lemma FlightsOfSnoc(flights: seq<Flight>, r: seq<nat>, i: nat)
    requires Indices(flights, r) && i < |flights|
    ensures Indices(flights, r + [i])
    ensures FlightsOf(flights, r + [i]) == FlightsOf(flights, r) + [flights[i]]
  {
    assert Indices(flights, r + [i]);
    var a := FlightsOf(flights, r + [i]);
    var b := FlightsOf(flights, r) + [flights[i]];
    assert |a| == |b|;
    forall k | 0 <= k < |a| ensures a[k] == b[k] {
      if k < |r| {
        assert (r + [i])[k] == r[k];
      }
    }
  }

  /** Total fare of a route: each leg's fare once. */
  function RouteFare(flights: seq<Flight>, r: seq<nat>): int
    requires Indices(flights, r)
  {
    if r == [] then 0 else RouteFare(flights, r[..|r| - 1]) + flights[r[|r| - 1]].fare
  }

  /** Removing the last leg of a route of two or more legs leaves a route
      ending at the leg's predecessor, connected to the removed leg. */
  lemma {:induction false} RoutePrefix(flights: seq<Flight>, r: seq<nat>, startCity: int, t1: int, t2: int)
    requires IsRoute(flights, r, startCity, t1, t2) && |r| > 1
    ensures IsRoute(flights, r[..|r| - 1], startCity, t1, t2)
    ensures Connects(flights[r[|r| - 2]], flights[r[|r| - 1]], t2)
  {
    var p := r[..|r| - 1];
    forall k | 0 <= k < |p| - 1
      ensures Connects(flights[p[k]], flights[p[k + 1]], t2)
    {
      assert p[k] == r[k] && p[k + 1] == r[k + 1];
    }
  }

  /** The last leg of a route lands in the destination by the end of the
      window. */
  lemma LastLegWithin(flights: seq<Flight>, r: seq<nat>, startCity: int, endCity: int, t1: int, t2: int)
    ensures RouteTo(flights, r, startCity, endCity, t1, t2) ==>
              flights[r[|r| - 1]].arrivalTime <= t2 && flights[r[|r| - 1]].endCity == endCity
  {
    if RouteTo(flights, r, startCity, endCity, t1, t2) && |r| > 1 {
      assert Connects(flights[r[|r| - 2]], flights[r[|r| - 1]], t2);
    }
  }

  /** Appending a leg that connects to the last one extends a route. */
  lemma RouteSnoc(flights: seq<Flight>, r: seq<nat>, v: nat, startCity: int, t1: int, t2: int)
    requires IsRoute(flights, r, startCity, t1, t2) && v < |flights|
    requires Connects(flights[r[|r| - 1]], flights[v], t2)
    ensures IsRoute(flights, r + [v], startCity, t1, t2)
    ensures RouteFare(flights, r + [v]) == RouteFare(flights, r) + flights[v].fare
  {
    var r' := r + [v];
    assert r'[..|r'| - 1] == r;
    forall k | 0 <= k < |r'| - 1
      ensures Connects(flights[r'[k]], flights[r'[k + 1]], t2)
    {
      if k < |r| - 1 {
        assert r'[k] == r[k] && r'[k + 1] == r[k + 1];
      }
    }
  }

  /** A route's flights form an itinerary for the same query, and a route
      to `endCity` yields an itinerary ending there. */
  lemma RouteIsItinerary(flights: seq<Flight>, r: seq<nat>, startCity: int, endCity: int, t1: int, t2: int)
    requires RouteTo(flights, r, startCity, endCity, t1, t2)
    ensures IsItinerary(FlightsOf(flights, r), startCity, endCity, t1, t2)
  {
  }

  /** Every leg of an itinerary lands by `t2`. */
  lemma {:induction false} ItineraryWithinWindow(path: seq<Flight>, startCity: int, endCity: int, t1: int, t2: int, k: int)
    requires IsItinerary(path, startCity, endCity, t1, t2) && 0 <= k < |path|
    ensures path[k].arrivalTime <= t2
    ensures path[0].departureTime >= t1 && path[0].startCity == startCity
  {
    if k > 0 {
      assert Connects(path[k - 1], path[k], t2);
    }
  }

  /** Fares are non-negative, so a route costs at least its prefix. */
  lemma {:induction false} RouteFareNonNegative(flights: seq<Flight>, r: seq<nat>)
    requires AllWellFormed(flights) && Indices(flights, r)
    ensures RouteFare(flights, r) >= 0
  {
    if r != [] {
      RouteFareNonNegative(flights, r[..|r| - 1]);
    }
  }

  /** The indices `i < n` of the flights leaving city `c`, in increasing
      order. */
  function DepartingBefore(flights: seq<Flight>, c: int, n: nat): seq<nat>
    requires n <= |flights|
  {
    if n == 0 then []
    else DepartingBefore(flights, c, n - 1) + (if flights[n - 1].startCity == c then [n - 1] else [])
  }

  function Departing(flights: seq<Flight>, c: int): seq<nat> {
    DepartingBefore(flights, c, |flights|)
  }

  /** The index lists exactly the flights leaving `c`. */
  lemma {:induction false} DepartingMembers(flights: seq<Flight>, c: int, n: nat, x: int)
    requires n <= |flights|
    ensures x in DepartingBefore(flights, c, n) <==> 0 <= x < n && flights[x].startCity == c
  {
    if n > 0 {
      DepartingMembers(flights, c, n - 1, x);
    }
  }

  /** Every listed entry is a flight index. */
  lemma DepartingIndices(flights: seq<Flight>, c: int)
    ensures Indices(flights, Departing(flights, c))
  {
    var d := Departing(flights, c);
    forall k | 0 <= k < |d|
      ensures d[k] < |flights|
    {
      DepartingMembers(flights, c, |flights|, d[k]);
    }
  }

  /** The index lists them in increasing order, so without repetition. */
  lemma {:induction false} DepartingIncreasing(flights: seq<Flight>, c: int, n: nat, a: int, b: int)
    requires n <= |flights|
    requires 0 <= a < b < |DepartingBefore(flights, c, n)|
    ensures DepartingBefore(flights, c, n)[a] < DepartingBefore(flights, c, n)[b]
  {
    var d := DepartingBefore(flights, c, n - 1);
    if b < |d| {
      DepartingIncreasing(flights, c, n - 1, a, b);
    } else {
      DepartingMembers(flights, c, n - 1, d[a]);
    }
  }

  /** A prefix one element longer is the prefix extended by that element. */
  lemma PrefixSnoc(s: seq<nat>, k: int)
    requires 0 <= k < |s|
    ensures s[..k + 1] == s[..k] + [s[k]]
  {
  }

  /** Strict lexicographic order on (hop count, fare) labels. */
  predicate LexLess(a: (int, int), b: (int, int)) {
    a.0 < b.0 || (a.0 == b.0 && a.1 < b.1)
  }
}
