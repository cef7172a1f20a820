# Flight route planner — a verified Dafny model

This project models the route-search engine of a small flight planner (`flight.py`).
Given a timetable of scheduled flights, it finds an itinerary from one city to another.
The itinerary must fit a time window `[t1, t2]`, and every connection must allow a
layover of at least 20 time units. There are three objectives:

* **fewest legs**, ties broken by earlier arrival (breadth-first search over flights);
* **cheapest total fare** (Dijkstra's label-setting algorithm over flights);
* **fewest legs, then cheapest fare** (label setting on the pair (legs, fare)).

The search graph has one node per flight, not per city. A node's predecessor link
names the flight it was reached from. The answer is rebuilt by walking those links
back from the winning flight and reversing the list.

Modules, following the source's structure:

| module | file | what it holds |
|---|---|---|
| `Options` | flights.dfy | `Option`, used wherever the source uses `None` or `float('inf')` as "no value yet" |
| `Flights` | flights.dfy | the `Flight` record, the first-leg and connection rules, routes (index sequences) and itineraries, route fare, the adjacency lists `Departing` |
| `Fifo` | fifo.dfy | the `Queue` class: backing list `lst`, read cursor `start`, count `end` |
| `MinHeap` | heap.dfy | the `Heap` class over an injected comparison, with `Insert`, `Extract`, `HeapifyUp` and `HeapifyDown` |
| `Paths` | paths.dfy | the predecessor walk (`Walk`) and the two-pointer reversal |
| `SearchFacts` | search_facts.dfy | facts the three searches share: legal links are acyclic and a walk is a legal route |
| `BreadthFirst` | bfs.dfy | `least_flights_earliest_route`: its loops, their invariant, hop-count minimality |
| `CheapestFirst` | dijkstra.dfy | `cheapest_route`: its loops, their invariant, fare minimality |
| `HopsThenFare` | hops.dfy | `least_flights_cheapest_route` as written: legality, settle order, the optimality of the winner's label, and the counterexample showing that its links need not spell a route with that label |
| `HopsThenFareCorrected` | hops_fixed.dfy | the same search with the link recorded at settle time, proved optimal |
| `Planning` | planner.dfy | the `Planner` class: constructor (adjacency index), `GetAns` and the three searches |
| `PlannerExample` | example.dfy | worked queries on two three-flight timetables |

A route is a non-empty sequence of flight indices. Its first flight leaves `startCity`
at or after `t1` and lands by `t2`. Each later flight leaves where the previous one
lands, at least 20 units after that landing, and lands by `t2` (`Flights.IsRoute`).
`RouteTo` also requires the last flight to land in `endCity`. Each search returns the
flights of the route it found, plus a ghost copy of the route's indices, so that its
contract can state optimality over all routes.

Termination of the predecessor walk comes from the data itself. Between well-formed
flights, every link points to a flight that lands strictly earlier
(`Flights.ConnectsDelaysArrival`, `SearchFacts.LinksRanked`). So arrival times rank
the links, and `Walk` decreases on that rank.

## Model

| member | source | states |
|---|---|---|
| `Flights.ConnectsDelaysArrival` | flight.py:163-164 | a legal connection between well-formed flights lands at least 20 units after the previous leg lands, so predecessor links cannot form a cycle |
| `Flights.FirstLeg` | flight.py:146 | the first-leg rule, also at flight.py:187 and 231: a flight may open the itinerary when it leaves `startCity` at or after `t1` and lands by `t2`; `RouteIsItinerary` and `ItineraryWithinWindow` carry it to the answer |
| `Flights.Connects` | flight.py:163-164 | the connection rule, also at flight.py:205-206 and 251-252: the next flight leaves where the previous one lands, lands by `t2`, and leaves at least 20 units after the previous landing; `ConnectsDelaysArrival` and `RoutePrefix` state its consequences |
| `Flights.Departing` | flight.py:113-115 | the contents of `start_adj[c]`: the indices of the flights leaving `c`, in index order, as `DepartingMembers`, `DepartingIndices` and `DepartingIncreasing` prove |
| `Flights.RouteIsItinerary` | flight.py:146 | the flights of a route to `endCity` form an itinerary: first leg from `startCity` at or after `t1`, last leg landing in `endCity`, consecutive legs connected |
| `Flights.ItineraryWithinWindow` | flight.py:146 | every leg of an itinerary lands by `t2`, and the first leg leaves `startCity` at or after `t1` |
| `Flights.RoutePrefix` | flight.py:163-164 | dropping the last leg of a route of two or more legs leaves a route, and the dropped leg connects to the new last leg |
| `Flights.LastLegWithin` | flight.py:146-164 | the last leg of a route to `endCity` lands there by `t2`, whether it is a first leg or a connection |
| `Flights.RouteSnoc` | flight.py:163-167 | appending a connecting flight extends a route, and its fare adds to the route's fare |
| `Flights.RouteFareNonNegative` | flight.py:207 | with non-negative fares, every route's total fare is non-negative |
| `Flights.DepartingMembers` | flight.py:113-115 | an index is in the adjacency list of city `c` exactly when it is a flight index whose start city is `c` |
| `Flights.DepartingIndices` | flight.py:113-115 | every entry of an adjacency list is a valid flight index |
| `Flights.DepartingIncreasing` | flight.py:113-115 | each adjacency list is strictly increasing, in the index order of the flight list, with no repeats |
| `Flights.FlightsOfSnoc` | flight.py:123 | appending an index to a route appends that flight to its flight list |
| `Fifo.Queue.constructor` | flight.py:37-40 | a new queue is valid and has nothing pending |
| `Fifo.Queue.Enqueue` | flight.py:42-44 | `0 <= start <= end == len(lst)` is kept; the item joins the back of the pending items and the cursor is unchanged |
| `Fifo.Queue.Dequeue` | flight.py:46-51 | the invariant is kept; the result is None exactly when nothing is pending (state unchanged), and otherwise the oldest pending item, with the cursor advanced by one |
| `Fifo.Queue.IsEmpty` | flight.py:53-54 | true exactly when no item is pending |
| `Fifo.FifoOrder` | flight.py:42-51 | two items enqueued come out in the order they went in, then the queue reports empty |
| `MinHeap.RootIsMinimal` | flight.py:73 | in a heap-ordered sequence no element precedes the root, given a strict weak order |
| `MinHeap.ChildChoice` | flight.py:88-98 | the two child comparisons pick either no child (neither child precedes the node) or a child that precedes the node and that its sibling does not precede |
| `MinHeap.NonePrecedes` | flight.py:67-76 | what no element of the remaining heap precedes, no element of its multiset precedes |
| `MinHeap.Heap.constructor` | flight.py:57-61 | inserting `init_array` one element at a time gives a heap-ordered heap holding exactly those elements |
| `MinHeap.Heap.Insert` | flight.py:63-65 | heap order is kept, and the multiset of contents grows by exactly `value` |
| `MinHeap.Heap.Extract` | flight.py:67-76 | an empty heap is the error case (None, nothing changed); otherwise exactly one occurrence is removed, it is one that no remaining element precedes, and heap order is restored; the one-element case pops directly |
| `MinHeap.Heap.HeapifyUp` | flight.py:78-83 | starting from heap order broken only above `index`, swapping up terminates in heap order with the same multiset |
| `MinHeap.Heap.SwapUp` | flight.py:81-82 | one upward swap moves the possible violation to the parent's edge |
| `MinHeap.Heap.HeapifyDown` | flight.py:85-102 | starting from heap order broken only below `index`, swapping down terminates (the index strictly grows) in heap order with the same multiset |
| `MinHeap.Heap.SettledIsOrdered` | flight.py:98-99 | stopping when neither child precedes the node leaves the whole heap ordered |
| `MinHeap.Heap.SwapDown` | flight.py:101-102 | one downward swap with the preferred child moves the possible violation below that child |
| `Paths.Walk` | flight.py:121-124 | the predecessor chain of `v`, oldest first: it ends with `v`, starts at a flight with no predecessor, and each element is the recorded predecessor of the next |
| `Paths.WalkIndependentOfRank` | flight.py:122-124 | the chain depends only on the links, not on which ranking witnesses their acyclicity |
| `Paths.WalkStep` | flight.py:122-124 | one pass of the collecting loop: moving the current flight onto the collected list, kept reversed, preserves the whole chain |
| `Paths.ReversedAt` | flight.py:126-130 | position `k` of the reversal holds element `n - 1 - k` |
| `Paths.ReversedSnoc` | flight.py:126-130 | reversing `s + [x]` gives `[x]` followed by the reversal of `s` |
| `Paths.ReverseInPlace` | flight.py:126-130 | the two-pointer swap loop returns exactly the reversal of its input |
| `SearchFacts.CountTrueSet` | flight.py:148 | marking an unmarked flight visited raises the visited count by one |
| `SearchFacts.CountTrueNone` | flight.py:142 | a fresh visited array counts zero |
| `SearchFacts.LinksRanked` | flight.py:163-166 | links that obey the connection rule point to strictly earlier arrivals, so following them terminates |
| `SearchFacts.WalkIsRoute` | flight.py:117-131 | walking back from a reached flight gives a legal route ending at that flight and starting with a first leg |
| `Planning.ComputeMaxCity` | flight.py:107-110 | the result is at least 0, at least every start and end city, and equal to one of them unless it is 0 |
| `Planning.BuildStartAdj` | flight.py:111-115 | the index has `max_city + 1` entries, and entry `c` is exactly the list of flights leaving `c`, in index order |
| `Planning.FlightsOfReversed` | flight.py:126-130 | reversing the collected flights equals the flights of the reversed index list |
| `Planning.Planner.constructor` | flight.py:105-115 | the planner keeps the flights, and its index has `max_city + 1 >= 1` entries, each listing exactly the flights leaving that city |
| `Planning.Planner.GetAns` | flight.py:117-131 | `[]` when `last_idx` is None; otherwise the flights of the predecessor chain, oldest first, ending with `flights[last_idx]` |
| `Planning.Planner.Answer` | flight.py:169 | the reconstructed answer is empty or an itinerary for the query, since the winner's walk is a route to `endCity` |
| `Planning.Planner.LeastFlightsEarliestRoute` | flight.py:133-169 | same city gives `[]`; any result is a legal itinerary; whenever any legal route exists the result is non-empty, no legal route has fewer legs, and none with as many legs lands earlier |
| `Planning.Planner.CheapestRoute` | flight.py:171-213 | same city gives `[]`; any result is a legal itinerary; whenever any legal route exists the result is non-empty and its total fare is no more than any legal route's |
| `Planning.Planner.LeastFlightsCheapestRouteAsWritten` | flight.py:215-256 | same city gives `[]`; any result is a legal itinerary; flights are settled at most once, in non-decreasing (legs, fare) order; the winner carries the smallest label among settled flights landing in `endCity`; that label (numb, mincost) is the legs and fare of some route ending with the winner, and no legal route to `endCity` has a lexicographically smaller (legs, fare) |
| `Planning.Planner.LeastFlightsCheapestRoute` | flight.py:215-256 | the corrected search: same city gives `[]`; any result is a legal itinerary, and whenever a legal route exists the result has the fewest legs, and the lowest fare among those |
| `BreadthFirst.UnfinishedRoutesAreLong` | flight.py:150-167 | a route ending at a flight not yet expanded is at least as long as the smallest hop count still waiting |
| `BreadthFirst.NewDepthMinimal` | flight.py:160-167 | a flight first reached from `u` has no route shorter than `depth[u] + 1` legs |
| `BreadthFirst.DequeueStep` | flight.py:150-151 | the front item names a visited, not yet expanded flight whose recorded hop count is the item's; the invariant holds with the level raised to that count |
| `BreadthFirst.EnqueueStep` | flight.py:165-167 | enqueuing an unvisited connecting flight with one more hop keeps the search invariant |
| `BreadthFirst.EnqueueReach` | flight.py:165-167 | the newly reached flight's hop count is minimal among routes to it |
| `BreadthFirst.EnqueueQueue` | flight.py:165-167 | after enqueuing, each visited flight still sits in the queue exactly once, and waiting hop counts stay non-decreasing within `[level, level + 1]` |
| `BreadthFirst.EnqueueChain` | flight.py:165-166 | the new link is legal, leads back to a first leg, and adds exactly one hop |
| `BreadthFirst.ExhaustedReachesAll` | flight.py:150-167 | once the queue is exhausted, every flight ending some legal route has been expanded |
| `BreadthFirst.WalkLength` | flight.py:147-167 | a reached flight's recorded hop count equals the length of its predecessor chain |
| `BreadthFirst.SeedStep` | flight.py:146-148 | seeding a first leg with one hop keeps the search invariant |
| `BreadthFirst.WinnerStep` | flight.py:154-158 | the winner is replaced only by a flight landing in `endCity` with a strictly smaller (hop count, arrival); it stays minimal over dequeued flights |
| `BreadthFirst.SearchOutcome` | flight.py:150-169 | when the queue runs dry, the winner's walk is a route to `endCity`; no route to `endCity` has fewer legs, and none with as many legs lands earlier |
| `BreadthFirst.SeedSearch` | flight.py:144-148 | every first leg leaving `startCity` is enqueued once with one hop and marked visited, and nothing else is |
| `BreadthFirst.ExpandOne` | flight.py:161-167 | one pass of the expansion loop: an unvisited connecting flight is marked visited, linked to the dequeued flight and enqueued with one more hop; anything else is left alone; `EnqueueStep` proves the invariant kept |
| `BreadthFirst.ExpandFrom` | flight.py:160-167 | the expansion loop over the adjacency list from a given position, as repeated `ExpandOne`; `ExpandFromKeepsInv` proves the invariant kept and `ExpandFlight` runs it on the arrays |
| `BreadthFirst.ExpandFromKeepsInv` | flight.py:160-167 | the expansion loop keeps its invariant through the whole adjacency list |
| `BreadthFirst.ExpandStep` | flight.py:160-167 | expanding the dequeued flight restores the search invariant with the frontier past it, and the winner stands |
| `BreadthFirst.ExpandFlight` | flight.py:160-167 | the expansion loop's effect on the queue, visited marks and links is exactly `ExpandFrom` over the adjacency list |
| `BreadthFirst.DrainOnce` | flight.py:150-167 | one main-loop pass advances the cursor by one and keeps the search and winner invariants |
| `BreadthFirst.DrainQueue` | flight.py:150-169 | on exit the winner's walk is a legal route to `endCity`; no legal route has fewer legs, and none with as many legs lands earlier |
| `BreadthFirst.FindRoute` | flight.py:140-169 | the whole breadth-first search: fresh link array, acyclic links, winner's walk legal, hop-minimal, and earliest-landing among hop-minimal routes |
| `CheapestFirst.ByFare` | flight.py:175-176 | the heap comparison: an entry comes first when its cost is lower; `ByFareIsStrictWeakOrder` proves it a strict weak order |
| `CheapestFirst.ByFareIsStrictWeakOrder` | flight.py:175-176 | comparing the first component only is a strict weak order, as the heap requires |
| `CheapestFirst.FrontierWitness` | flight.py:191-211 | a route ending at an unsettled flight costs at least the best cost of some reached, unsettled flight |
| `CheapestFirst.StaleStep` | flight.py:193-194 | skipping an entry whose flight is already settled keeps the invariant |
| `CheapestFirst.SettleStep` | flight.py:192-197 | the first entry taken out for an unsettled flight carries its best cost, and settling it keeps the invariant |
| `CheapestFirst.SettleCost` | flight.py:192 | the extracted entry's cost equals the flight's best cost, and every remaining entry costs at least as much |
| `CheapestFirst.SettlePending` | flight.py:196 | every reached but unsettled flight still has its best-cost entry queued |
| `CheapestFirst.SettleOptimal` | flight.py:192-197 | no route ending with the flight being settled is cheaper than its best cost |
| `CheapestFirst.WalkFare` | flight.py:207-210 | the walk back from a reached flight costs exactly its best cost |
| `CheapestFirst.ChainRooted` | flight.py:189-210 | links from reached flights stay among reached flights and end at first legs |
| `CheapestFirst.SearchOutcome` | flight.py:191-213 | when the heap is empty, the winner's walk is a legal route to `endCity`; its fare equals the winning cost; no legal route is cheaper |
| `CheapestFirst.SeedHeap` | flight.py:185-189 | exactly the first legs leaving `startCity` are queued and given their own fare as best cost |
| `CheapestFirst.WinnerStep` | flight.py:199-201 | the winner is replaced only on a strictly lower cost, and stays the cheapest settled flight landing in `endCity` |
| `CheapestFirst.WinnerKeep` | flight.py:203-211 | relaxation changes no settled flight's cost, so the winner stands |
| `CheapestFirst.RelaxOne` | flight.py:204-211 | one pass of the relaxation loop: a connecting flight whose cost through the settled flight is lower than its best cost gets that cost, a link to the settled flight and a heap entry; `RelaxOneKeepsInv` proves the invariant kept |
| `CheapestFirst.RelaxFrom` | flight.py:203-211 | the relaxation loop over the adjacency list from a given position, as repeated `RelaxOne`; `RelaxFromKeepsInv` proves the invariant kept and `RelaxFlight` runs it on the arrays |
| `CheapestFirst.RelaxOneKeepsInv` | flight.py:204-211 | one relaxation step keeps the relaxation loop's invariant |
| `CheapestFirst.RelaxFromKeepsInv` | flight.py:203-211 | the relaxation loop keeps its invariant through the whole adjacency list |
| `CheapestFirst.RelaxFinish` | flight.py:203-211 | once every connection of the settled flight has been relaxed, the search invariant holds again with no flight left outstanding |
| `CheapestFirst.RelaxFlight` | flight.py:203-211 | the relaxation loop's effect on best costs, links and heap is exactly `RelaxFrom` over the adjacency list |
| `CheapestFirst.AfterEntry` | flight.py:193-211 | a stale entry leaves costs, links and entries as they were |
| `CheapestFirst.DrainStep` | flight.py:191-211 | one main-loop pass, stale or settling, keeps the search and winner invariants, and settling raises the settled count by one |
| `CheapestFirst.DrainOnce` | flight.py:191-211 | the main-loop pass on the real heap and arrays keeps the invariants and makes progress |
| `CheapestFirst.DrainHeap` | flight.py:191-213 | on exit the winner's walk is a legal route to `endCity`, its fare equals `cheapest`, and no legal route is cheaper |
| `CheapestFirst.FindRoute` | flight.py:171-213 | the whole cheapest-fare search: acyclic links; winner's walk legal, fare equal to the winning cost, and minimal |
| `HopsThenFare.ByHopsThenFare` | flight.py:219-220 | the heap comparison: fewer legs first, then the lower fare; `ByHopsThenFareIsStrictWeakOrder` proves it a strict weak order |
| `HopsThenFare.SeedFrom` | flight.py:229-232 | the entries the seeding loop adds: `(1, fare, i)` for each listed flight inside the window; `SeedFromRooted`, `SeedFromComplete` and `SeedEntries` characterise and run it |
| `HopsThenFare.RelaxOne` | flight.py:249-254 | one pass of the relaxation loop as written: an unsettled connecting flight gets the entry `(legs + 1, fare + its fare, j)`, and its link is overwritten with the settled flight with no comparison against earlier entries; `RelaxOneKeepsInv` and `RelaxOneQueues` state what it keeps, `PrevOverwriteCounterexample` what it breaks |
| `HopsThenFare.RelaxFrom` | flight.py:248-254 | the relaxation loop from a given position, as repeated `RelaxOne`; `RelaxFromKeepsInv` and `RelaxFromQueues` characterise it and `RelaxEach` runs it |
| `HopsThenFare.Wins` | flight.py:242-246 | the winner rule: a newly settled flight landing in `endCity` wins when no winner exists yet, or it has fewer legs, or as many and a lower fare; `SettleWinner` and `SettleLabelWinner` prove what it keeps |
| `HopsThenFare.Step` | flight.py:235-254 | one main-loop pass after extraction: skip a settled flight; otherwise settle it, apply the winner rule and relax it; `StepKeepsInv`, `StepLabels` and `SearchOnce` characterise and run it |
| `HopsThenFare.ByHopsThenFareIsStrictWeakOrder` | flight.py:219-220 | lexicographic comparison on (legs, fare) is a strict weak order |
| `HopsThenFare.SeedInv` | flight.py:226-232 | the seeded state satisfies the search invariant |
| `HopsThenFare.SeedFromRooted` | flight.py:229-232 | every seeded entry is a first leg with one leg and its own fare |
| `HopsThenFare.RelaxOneKeepsInv` | flight.py:248-254 | one insert-and-overwrite, made with no comparison against earlier entries, keeps links legal and entries rooted |
| `HopsThenFare.RelaxFromKeepsInv` | flight.py:248-254 | the whole relaxation loop keeps links legal and entries rooted |
| `HopsThenFare.StaleKeepsInv` | flight.py:236-237 | skipping an entry whose flight is settled keeps the invariant |
| `HopsThenFare.SettleKeepsInv` | flight.py:239 | settling an unsettled flight appends it to the settled list, in non-decreasing (legs, fare) order |
| `HopsThenFare.SettleWinner` | flight.py:242-246 | the winner is replaced only on a strictly smaller (legs, fare) label, and carries the smallest label among settled flights landing in `endCity` |
| `HopsThenFare.StepKeepsInv` | flight.py:234-254 | one main-loop pass keeps the search and winner invariants |
| `HopsThenFare.WinnerRoute` | flight.py:256 | the winner's walk is a legal route to `endCity` |
| `HopsThenFare.SeedEntries` | flight.py:229-232 | the seeding loop adds exactly `(1, fare, i)` for each first leg |
| `HopsThenFare.RelaxTo` | flight.py:249-254 | an unsettled connecting flight gets a fresh entry, and its link is overwritten unconditionally |
| `HopsThenFare.RelaxEach` | flight.py:248-254 | the relaxation loop's effect is exactly `RelaxFrom` over the adjacency list |
| `HopsThenFare.SearchOnce` | flight.py:235-254 | the extracted entry is one no remaining entry precedes, and the pass's effect is exactly `Step` |
| `HopsThenFare.AchievedFirstLeg` | flight.py:229-232 | a first leg alone is a route of one leg at its own fare |
| `HopsThenFare.AchievedSnoc` | flight.py:248-253 | extending a route ending with `u` by a connecting flight `v` gives a route with one more leg and `v`'s fare added |
| `HopsThenFare.SeedFromComplete` | flight.py:229-232 | every first leg in the listed seeds is queued with its one-leg label |
| `HopsThenFare.SeedLabels` | flight.py:226-232 | before the main loop the label invariant holds: every entry carries the label of a real route, and every first leg is queued |
| `HopsThenFare.FrontierEntry` | flight.py:234-253 | a route ending at an unsettled flight is matched by a queued entry whose label is no larger |
| `HopsThenFare.StaleLabels` | flight.py:236-237 | skipping a settled flight's entry keeps the label invariant at the new level |
| `HopsThenFare.SettleOptimal` | flight.py:239 | a flight is settled with a label that no route ending with it beats |
| `HopsThenFare.SettleEntries` | flight.py:235-239 | the remaining entries keep their routes and lie above the settled label, which belongs to a route ending with the settled flight |
| `HopsThenFare.SettleQueued` | flight.py:235-239 | first legs and relaxed connections still waiting stay queued after settling |
| `HopsThenFare.SettleLabels` | flight.py:235-239 | settling the first entry of an unsettled flight keeps the label invariant, with only that flight's relaxation outstanding |
| `HopsThenFare.SettleLabelWinner` | flight.py:242-246 | the winner rule keeps the winner's label minimal among settled flights landing in `endCity` |
| `HopsThenFare.RelaxOneQueues` | flight.py:249-253 | one relaxation step only adds entries queued from the settled flight, and queues each unsettled legal connection it visits |
| `HopsThenFare.RelaxFromQueues` | flight.py:248-253 | the whole relaxation loop only adds entries queued from the settled flight, and queues every unsettled legal connection of it |
| `HopsThenFare.RelaxedAchieved` | flight.py:248-253 | after relaxation every entry still carries the label of a real route ending with its flight |
| `HopsThenFare.RelaxedQueued` | flight.py:248-253 | after relaxation every waiting first leg and every unsettled connection of every settled flight is queued |
| `HopsThenFare.RelaxLabels` | flight.py:248-253 | after relaxation the label invariant holds with nothing outstanding |
| `HopsThenFare.StepLabels` | flight.py:234-253 | one main-loop pass keeps the label invariant and the winner's minimality, whatever it does to the links |
| `HopsThenFare.LabelOutcome` | flight.py:234-256 | when the heap is empty, the winner's label belongs to a route ending with the winner, and no legal route to `endCity` has a lexicographically smaller (legs, fare) |
| `HopsThenFare.PassKeepsInv` | flight.py:234-253 | one main-loop pass keeps the link, settle-order, label and winner invariants, and settles one more flight or shrinks the heap |
| `HopsThenFare.DrainOnce` | flight.py:234-253 | the main-loop pass on the real heap and arrays keeps all four invariants and makes progress |
| `HopsThenFare.DrainHeap` | flight.py:234-256 | on exit the links are acyclic, the winner's walk is a legal route, flights were settled at most once in non-decreasing label order, and the winner holds the smallest settled label landing in `endCity`; that label is achieved by a route ending with the winner, and no legal route to `endCity` has a lexicographically smaller (legs, fare) |
| `HopsThenFare.FindRoute` | flight.py:215-256 | the whole search as written, with the same guarantees as `DrainHeap`, the optimality of the winner's label included |
| `HopsThenFare.PrevOverwriteCounterexample` | flight.py:248-254 | on a three-flight timetable, the winner's label is (2 legs, fare 2), yet its links spell a route of fare 6 |
| `HopsThenFareCorrected.ByHopsThenFare` | flight.py:219-220 | the same (legs, fare) heap comparison, on entries that also carry a link; `ByHopsThenFareIsStrictWeakOrder` proves it a strict weak order |
| `HopsThenFareCorrected.SeedFrom` | flight.py:229-232 | the seeding loop's entries `(1, fare, i, None)`: a first leg has no link; `SeedFromExact`, `SeedFromComplete` and `SeedEntries` characterise and run it |
| `HopsThenFareCorrected.RelaxOne` | flight.py:249-253 | one corrected relaxation pass: an unsettled connecting flight gets an entry that records the settled flight, and no link is written; `RelaxOneKeepsInv` proves the invariant kept |
| `HopsThenFareCorrected.RelaxFrom` | flight.py:248-253 | the corrected relaxation loop as repeated `RelaxOne`; `RelaxFromKeepsInv` and `RelaxedExact` characterise it and `RelaxEach` runs it |
| `HopsThenFareCorrected.Wins` | flight.py:242-246 | the same winner rule as the source; `SettleWinner` proves what it keeps |
| `HopsThenFareCorrected.Step` | flight.py:235-253 | one corrected pass: skip a settled flight; otherwise settle it with the link its entry carries, apply the winner rule and relax it; `StepKeepsInv` and `SearchOnce` characterise and run it |
| `HopsThenFareCorrected.ByHopsThenFareIsStrictWeakOrder` | flight.py:219-220 | lexicographic comparison on (legs, fare) is a strict weak order |
| `HopsThenFareCorrected.SeedInv` | flight.py:226-232 | the seeded state satisfies the corrected search's invariant |
| `HopsThenFareCorrected.SeedFromExact` | flight.py:229-232 | every seeded entry carries the exact label of a one-leg route |
| `HopsThenFareCorrected.SeedFromComplete` | flight.py:229-232 | every first leg is seeded |
| `HopsThenFareCorrected.FrontierEntry` | flight.py:234-254 | a route ending at an unsettled flight is matched by a queued entry whose label is no larger |
| `HopsThenFareCorrected.StaleStep` | flight.py:236-237 | skipping a settled flight's entry keeps the invariant |
| `HopsThenFareCorrected.SettleOptimal` | flight.py:239 | a flight is settled with a label that no route ending at it beats |
| `HopsThenFareCorrected.SettleStep` | flight.py:235-246 | settling the extracted entry's flight, with the entry's label and link, keeps the invariant with only that flight's connections left to relax; the new link adds one leg and that leg's fare to the predecessor's label |
| `HopsThenFareCorrected.SettleWinner` | flight.py:242-246 | the winner holds the smallest label among settled flights landing in `endCity` |
| `HopsThenFareCorrected.RelaxFromKeepsInv` | flight.py:248-253 | the relaxation loop queues an exact-label entry for each unsettled connection |
| `HopsThenFareCorrected.StepKeepsInv` | flight.py:234-253 | one main-loop pass keeps the invariant |
| `HopsThenFareCorrected.WalkLabel` | flight.py:117-131 | a settled flight's walk has as many legs and as much fare as its settled label |
| `HopsThenFareCorrected.SearchOutcome` | flight.py:234-256 | when the heap is empty, the winner's walk is a legal route to `endCity` with label (numb, mincost), and no legal route has a lexicographically smaller (legs, fare) |
| `HopsThenFareCorrected.SearchOnce` | flight.py:235-253 | the pass's effect is exactly the corrected `Step`, with the link set at settle time |
| `HopsThenFareCorrected.SettleEntries` | flight.py:235-239 | the remaining entries stay exact and above the settled label |
| `HopsThenFareCorrected.SettleChain` | flight.py:235-239 | the settled flight takes the link its entry carries, and labels keep adding up along links |
| `HopsThenFareCorrected.SettleQueued` | flight.py:235-239 | first legs and relaxed connections still waiting stay queued after settling |
| `HopsThenFareCorrected.RelaxOneKeepsInv` | flight.py:249-253 | one relaxation step only adds entries queued from the settled flight, and queues each unsettled legal connection it visits |
| `HopsThenFareCorrected.RelaxedExact` | flight.py:248-253 | after relaxation every entry carries the exact label of its recorded link |
| `HopsThenFareCorrected.RelaxedQueued` | flight.py:248-253 | after relaxation every waiting first leg and every unsettled connection of every settled flight is queued |
| `HopsThenFareCorrected.RelaxFinish` | flight.py:248-253 | after relaxation the corrected invariant holds with nothing outstanding |
| `HopsThenFareCorrected.PassKeepsInv` | flight.py:234-253 | one main-loop pass keeps the invariant and the winner, and settles one more flight or shrinks the heap |
| `HopsThenFareCorrected.SeedEntries` | flight.py:229-232 | the seeding loop adds exactly `(1, fare, i, None)` for each first leg in the window, and the heap stays valid |
| `HopsThenFareCorrected.RelaxTo` | flight.py:249-253 | an unsettled connecting flight gets an entry recording the settled flight; links are untouched |
| `HopsThenFareCorrected.RelaxEach` | flight.py:248-253 | the relaxation loop's effect on the heap is exactly `RelaxFrom` over the adjacency list |
| `HopsThenFareCorrected.DrainOnce` | flight.py:234-253 | the main-loop pass on the real heap and arrays keeps the invariant and the winner, and makes progress |
| `HopsThenFareCorrected.DrainHeap` | flight.py:234-256 | on exit the winner's walk has the fewest legs, and the lowest fare among those |
| `HopsThenFareCorrected.FindRoute` | flight.py:215-256 | the whole corrected search, with the same guarantees as its `DrainHeap` |
| `PlannerExample.ThreeFlightsRoutes` | flight.py:144-167 | on the three-flight timetable, the routes from 0 to 2 in `[0, 100]` are exactly F0 then F1, and F2 alone |
| `PlannerExample.ThreeFlightsLateWindow` | flight.py:146-164 | with the window closing at 50, no route reaches city 2 |
| `PlannerExample.ThreeFlightsQueries` | flight.py:133-256 | `cheapest_route(0,2,0,100)` gives [F0, F1]; the breadth-first and the corrected fewest-legs-then-cheapest queries give [F2]; with `t2 = 50` the result is `[]` |
| `PlannerExample.ThreeFlightsAsWrittenQuery` | flight.py:215-256 | `least_flights_cheapest_route(0,2,0,100)` as written also gives [F2] |
| `PlannerExample.TwoWaysRoutes` | flight.py:144-167 | on the timetable of the finding below, the routes from 0 to 2 are F0 then F2, and F1 then F2 |
| `PlannerExample.TwoWaysQuery` | flight.py:215-256 | on that timetable the corrected query returns the fare-2 route [F0, F2]; the query as written returns one of the two routes, with winning label (2 legs, fare 2) |

## Left out

- `Flight.__repr__` (flight.py:21-23) is a debug string and is not modelled. The module import at flight.py:33-34 is not modelled either.
- The `float('inf')` sentinels are `Option.None`: an unset best cost, no winner yet, no predecessor. The model treats "better than infinity" as "no value yet". No floating point is involved.
- Malformed input is excluded by preconditions rather than modelled. The `Planner` constructor requires every flight to have non-negative cities, `0 <= departure <= arrival`, and a non-negative fare (`Flights.WellFormed`). The source never checks these. Negative fares would also break Dijkstra's optimality.
- Each search requires `startCity == endCity` or `0 <= startCity <= max_city`. Otherwise the source raises IndexError, or wraps around through Python's negative indexing at flight.py:144.
- `MinHeap.Heap.Extract`: on an empty heap it returns None and leaves the heap unchanged, where the source raises IndexError. Every call site checks emptiness first.
- `MinHeap.Heap`: the comparison is a function parameter, and the heap requires it to be a strict weak order. The two comparators the source uses are proved to be one (`CheapestFirst.ByFareIsStrictWeakOrder`, `HopsThenFare.ByHopsThenFareIsStrictWeakOrder`). An arbitrary comparator is not modelled.
- The heap's backing list and the queue's backing list are `seq` fields that the methods reassign. Python's `append` and `pop` become concatenation and slicing; aliasing of the list object is not modelled.
- `prev`, `visited` and `best_cost` are arrays, as the source's fixed-size lists are. The list that `get_ans` builds is a `seq`. Its two-pointer reversal (`Paths.ReverseInPlace`) swaps positions in that `seq` rather than in a shared list object.
- Each search also returns a ghost route (the winner's flight indices), so that its contract can quantify over all routes. The real answer is the flight list `path`.
- `Planning.Planner.LeastFlightsCheapestRouteAsWritten`: proves the winner's label optimal, but not the returned itinerary, whose links need not carry that label; see Findings.
- The flight identifier `flight_no` is carried in the record but is never used by the searches, so no property mentions it.

## Findings

| source | as written | input that shows it | evidently intended | confidence | as-written member | corrected member |
|---|---|---|---|---|---|---|
| flight.py:254 | `least_flights_cheapest_route` sets `prev[j] = idx` on every relaxation of an unsettled flight, even when the new entry is worse than one already queued. The link of the winning flight can then point away from the entry that made it win. | F0 (0→1, 0–10, fare 1), F1 (0→1, 0–10, fare 5), F2 (1→2, 40–60, fare 1); query (0, 2, 0, 100). F2 wins with label (2 legs, fare 2), but its links spell [F1, F2], which costs 6, while [F0, F2] costs 2. | The returned itinerary has the winner's label, which the model proves optimal for every input (`HopsThenFare.LabelOutcome`): the fewest legs, and the lowest fare among those. Only the links are wrong. | not executed | `HopsThenFare.PrevOverwriteCounterexample` | `HopsThenFareCorrected.FindRoute` |

The corrected search (`Planning.Planner.LeastFlightsCheapestRoute`) carries the predecessor in each heap entry. It sets a flight's link only when that flight is settled, taken from the entry that settles it. For this search the model proves that the result has the fewest legs, and the lowest fare among those (`HopsThenFareCorrected.SearchOutcome`). `PlannerExample.TwoWaysQuery` shows it returning [F0, F2] on the timetable above (`HopsThenFare.OverwriteFlights`), where the search as written wins with the same label (2 legs, fare 2).
