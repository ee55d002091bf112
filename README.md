# Transport catalogue, router, JSON builder, persistence and map layout

This project models the core of a transit-network query service in Dafny and
proves properties of the model.

The **transport catalogue** (`Catalogue`) holds four maps:

- the stops with their coordinates;
- the directed road-distance overrides;
- the buses with their routes;
- the reverse index from a stop to the buses that serve it.

It answers these queries:

- the distance between two stops;
- the statistics of one bus: stop count, distinct stops, road length and curvature;
- the buses that pass through one stop;
- the stops and buses that are in service, in name order.

The **transport router** (`TransportRouting`, with the ride lists of
`RouterSpec`) builds the routing graph:

- It gives the working stops dense ids in name order.
- It turns every ride a bus offers into a weighted graph edge. The forward
  pass covers every pair of positions. Shortcut rides start where a stop
  recurs later on the route. A linear bus also gets the mirrored reverse pass.
- It records, per edge id, which bus, span, riding time and stops the edge
  stands for.
- It turns a shortest-path result back into a routing answer.

The **JSON builder** (`JsonBuilder`) is a stack machine of containers and keys.
It throws on every call sequence that would not build a well-formed document,
and its context objects restrict which call may come next.

The **request handler** (`RequestHandling`) answers stop, bus, map and route
requests in request order. Each answer is assembled with chains of builder
calls.

The **persistence layer** has three parts:

- `Serialization` saves the catalogue as messages that refer to stops by
  number, and restores it in three passes.
- `RouterSerialization` saves the router's edge records, numbering buses and
  stops on first sight, and rebuilds the graph from them.
- `SettingsSerialization` copies the render settings and the colours.

The **map renderer** (`MapRendering`) lays out the SVG map:

- the route polylines, with the palette cycling and the out-and-back point
  order of linear buses;
- the bus labels at the first stop, and again at the last stop when it differs;
- the stop circles and the stop labels;
- the colours read from the render settings.

Projected points and SVG output are outside the model.

Classes stand for the source's objects whose fields are updated in place:
`TransportCatalogue`, `TransportRouter`, `Builder`, `RequestHandler` and
`MapRenderer`. Each of their methods is proved against a specification
function on values. The properties the system promises are lemmas about those
functions: round trips, soundness and completeness of the edge set, counts,
orderings and preserved invariants.

`geo::ComputeDistance` is a function parameter (`GeoDistance`). So are the
shortest-path search and the rendered map text. The iteration order of each
hash table is a parameter too, and every lemma holds for every order.

The distance rule follows the code (`transport_catalogue.cpp:144-161`). The
override from A to B is used, else the override from B to A, else the
geographic distance. So a single recorded override serves both directions
(`Catalogue.OneSidedOverrideServesBothWays`).

## Model

| member | source | states |
|---|---|---|
| `Domain.TruncateToInt` | domain.h:37 | Storing the real road length into the `int` field truncates toward zero: the result is within one of the input, on the side of zero. |
| `Names.Insert` | transport_catalogue.cpp:64-67 | Inserting into an ordered set keeps it strictly sorted and adds exactly the new name; a name already present changes nothing, a new one adds one element. |
| `Names.SortedUnique` | domain.h:44 | Two strictly sorted lists of the same names are equal, so an ordered set is determined by its elements. |
| `Names.SortedDistinct` | domain.h:44 | A strictly sorted list has no repeated name. |
| `Names.SortedOrder` | domain.h:44 | Positions in a strictly sorted list are ordered like the names they hold. |
| `Names.SortedExists` | transport_catalogue.cpp:74-85 | Every finite set of names has an ascending listing (the order a `std::map` is iterated in). |
| `Names.Ascending` | transport_catalogue.cpp:87-98 | The ascending listing of a set of names is strictly sorted and holds exactly that set. |
| `Graphs.NewGraph` | transport_router.cpp:25 | A new graph has the requested number of vertices and no edges. |
| `Graphs.AddEdge` | transport_router.cpp:42 | Adding an edge appends it and returns the number of edges before it as its id. |
| `Graphs.RecordLookup` | transport_router.cpp:42 | Storing records under consecutive edge ids puts each new record at its id and leaves every other id as it was. |
| `Graphs.RecordAppend` | serialization.cpp:268-281 | Storing the records of a + b is storing a's, then b's after them. |
| `Catalogue.OneSidedOverrideServesBothWays` | transport_catalogue.cpp:144-161 | With only the override A to B recorded, the distance is that override in both directions. |
| `Catalogue.DistanceSymmetricUnlessBothOverridden` | transport_catalogue.cpp:144-161 | With a symmetric geographic distance, the distance is symmetric unless both directions carry different overrides. |
| `Catalogue.DistanceCanBeAsymmetric` | transport_catalogue.cpp:144-161 | Two different overrides make the distance differ by direction (100 one way, 200 back). |
| `Catalogue.CurvatureOf` | transport_catalogue.cpp:141 | The curvature is road length over straight length; it is not finite exactly when the straight length is zero. |
| `Catalogue.ReturnTripIsReversedRoute` | transport_catalogue.cpp:131-139 | The way back of a linear bus measures the same as riding the reversed route forward. |
| `Catalogue.RouteLengthNonNegative` | transport_catalogue.cpp:51 | With non-negative overrides and geographic distance, the route length is non-negative, so the stored `int` is its floor. |
| `Catalogue.TwoStopLinearBus` | transport_catalogue.cpp:115-142 | A linear bus X-Y without overrides counts 3 stops, 2 unique, and twice the X-Y distance. |
| `Catalogue.AnswerNamedIffKnown` | transport_catalogue.cpp:40-72 | For a non-empty query, a bus or stop answer carries a name exactly when the name is known; the empty name encodes "not found". |
| `Catalogue.WithBusListsTheRoute` | transport_catalogue.cpp:34-37 | After adding a bus, the index keys are the old keys plus the route's stops. Each route stop's set gains the bus; every other set is unchanged. |
| `Catalogue.MergeRowStep` | transport_catalogue.cpp:17-20 | One more entry of an input row is one more (overwriting) entry in the override table. |
| `Catalogue.MergeRowKeepsWellFormed` | transport_catalogue.cpp:13-22 | Merging a row whose stops exist keeps the catalogue well formed. |
| `Catalogue.WithBusKeepsWellFormed` | transport_catalogue.cpp:24-38 | Adding a bus whose stops exist keeps the catalogue well formed: the index lists each bus at every stop of its route. |
| `Catalogue.ReAddedBusStaysListed` | transport_catalogue.cpp:33-37 | Re-adding a bus never removes it from the index entry of a stop it served before. |
| `Catalogue.RouteStopsAreWorking` | transport_catalogue.cpp:74-85 | In a well-formed catalogue every stop of a bus route is a working stop. |
| `Catalogue.TransportCatalogue.constructor` | transport_catalogue.h:39-42 | A new catalogue has four empty maps and is well formed. |
| `Catalogue.TransportCatalogue.AddStop` | transport_catalogue.cpp:8-11 | The stop gets its coordinates, overwriting earlier ones. Nothing else changes, and well-formedness is kept. |
| `Catalogue.TransportCatalogue.AddDistanceBetweenStop` | transport_catalogue.cpp:13-22 | The stop and its destinations must exist. The override table gains exactly the directed entries of the row, overwriting earlier values for the same pair; the other maps are unchanged. |
| `Catalogue.TransportCatalogue.AddBus` | transport_catalogue.cpp:24-38 | Every route stop must exist. The bus maps to its route and flag, the index is extended by the route, and stops and overrides are unchanged. |
| `Catalogue.TransportCatalogue.ListAtStops` | transport_catalogue.cpp:34-37 | The index loop adds the bus to the entry of every stop of the route and touches nothing else. |
| `Catalogue.TransportCatalogue.ForwardPass` | transport_catalogue.cpp:123-129 | The forward loop computes the distinct stops, the straight length and the road length of the route's hops. |
| `Catalogue.TransportCatalogue.ReturnTrip` | transport_catalogue.cpp:135-138 | The backward loop computes the road length from the last stop back to the first. |
| `Catalogue.TransportCatalogue.CalculateBusInformation` | transport_catalogue.cpp:115-142 | The stop count is n, or 2n-1 for a linear bus, and 0 for an empty route. Also computed: the number of distinct stops, the road length (forward, plus back for a linear bus) and the curvature. |
| `Catalogue.TransportCatalogue.CalculateDistance` | transport_catalogue.cpp:144-161 | The distance is the override from-to, else the override to-from, else the geographic distance. |
| `Catalogue.TransportCatalogue.FindBusInformation` | transport_catalogue.cpp:40-55 | An unknown bus gives the default record. A known one gives its name, its stop counts, its truncated road length and its curvature. |
| `Catalogue.TransportCatalogue.FindStopInformation` | transport_catalogue.cpp:57-72 | An unknown stop gives the default record. A known one gives its name and, strictly sorted, exactly the buses the index lists for it (none if absent). |
| `Catalogue.TransportCatalogue.FindAllWorkingStops` | transport_catalogue.cpp:74-85 | The result is strictly sorted and holds exactly the stops some bus serves. |
| `Catalogue.TransportCatalogue.FindAllWorkingBuses` | transport_catalogue.cpp:87-98 | The result is strictly sorted and holds exactly the buses with at least one stop. |
| `RouterSpec.FwdShortcutsSnoc` | transport_router.cpp:37-43 | The shortcut loop emits the rides to k in ascending order, one per k. |
| `RouterSpec.FwdBlocks` | transport_router.cpp:32-49 | The walk from position i has one block per later position j, ascending, each being the shortcuts (if stop i recurs at j) and then the ride i to j. |
| `RouterSpec.FwdRows` | transport_router.cpp:29-50 | The forward pass has one row per position but the last, in ascending order. |
| `RouterSpec.RevShortcutsSnoc` | transport_router.cpp:61-67 | The reverse shortcut loop emits the rides down to k in descending order. |
| `RouterSpec.RevBlocks` | transport_router.cpp:56-73 | The walk down from position i has one block per earlier position, descending. |
| `RouterSpec.RevRows` | transport_router.cpp:53-74 | The reverse pass has one row per position from the last down to the second. |
| `RouterSpec.SumStep` | transport_router.cpp:157-158 | The running weight grows by one hop's riding time per step. |
| `RouterSpec.SumFromBelow` | transport_router.cpp:162-163 | The way back accumulates the same hop times from the other end. |
| `RouterSpec.FwdRowSound` | transport_router.cpp:32-49 | Every ride of the walk from i starts at i and is a forward ride: boarded at i or where stop i recurs, and left later. |
| `RouterSpec.FwdPassSound` | transport_router.cpp:29-50 | Every ride the forward pass emits is a forward ride. |
| `RouterSpec.RevRowSound` | transport_router.cpp:56-73 | Every ride of the walk down from i starts at i and is a backward ride. |
| `RouterSpec.RevPassSound` | transport_router.cpp:51-75 | Every ride the reverse pass emits is a backward ride. |
| `RouterSpec.FwdRowComplete` | transport_router.cpp:32-49 | Every forward ride from i is emitted by the walk from i. |
| `RouterSpec.FwdPassComplete` | transport_router.cpp:29-50 | Every forward ride is emitted by the forward pass. |
| `RouterSpec.RevRowComplete` | transport_router.cpp:56-73 | Every backward ride from i is emitted by the walk down from i. |
| `RouterSpec.RevPassComplete` | transport_router.cpp:51-75 | Every backward ride is emitted by the reverse pass. |
| `RouterSpec.BusRidesExactly` | transport_router.cpp:29-75 | A ride is emitted exactly when it is a forward ride, or a backward ride of a linear bus; a circular bus gets no reverse rides. |
| `RouterSpec.OneStopNoRides` | transport_router.cpp:29-75 | A bus of one stop gets no rides. |
| `RouterSpec.WeightAtLeastWait` | transport_router.cpp:31-48 | With non-negative hop times, no edge weighs less than the waiting time. |
| `RouterSpec.FwdRowCount` | transport_router.cpp:32-49 | On a route of distinct stops, the walk from i emits n-1-i rides. |
| `RouterSpec.RevRowCount` | transport_router.cpp:56-73 | On a route of distinct stops, the walk down from i emits i rides. |
| `RouterSpec.FwdPassCount` | transport_router.cpp:29-50 | On n distinct stops, the forward pass emits n(n-1)/2 rides. |
| `RouterSpec.RevPassCount` | transport_router.cpp:51-75 | On n distinct stops, the reverse pass emits n(n-1)/2 rides. |
| `RouterSpec.DistinctStopsRideCount` | transport_router.cpp:29-75 | On n distinct stops, a circular bus gets n(n-1)/2 rides and a linear bus twice as many. |
| `TransportRouting.FwdHopsAt` | transport_router.cpp:157-158 | Entry t of the forward hop table is the riding time from stop t to stop t+1: distance over velocity/0.06. |
| `TransportRouting.BwdHopsAt` | transport_router.cpp:162-163 | Entry t of the backward hop table is the riding time from stop t+1 back to stop t. |
| `TransportRouting.RouteOf` | transport_router.cpp:26-27 | The router's view of a working bus has its name, route, flag and the two hop tables. |
| `TransportRouting.Emit` | transport_router.cpp:42 | Adding n rides adds exactly n edges and keeps the vertex count. |
| `TransportRouting.EmitAt` | transport_router.cpp:39-48 | After adding the rides, old edges are in front and ride t's edge has id old-count + t. The record of ride t is under that id, other ids keep their records, and no other id gains one. |
| `TransportRouting.EmitEdgeAt` | transport_router.cpp:39-48 | This is the edge half of `EmitAt`. |
| `TransportRouting.EmitInfoAt` | transport_router.cpp:40-48 | This is the record half of `EmitAt`: exactly one record per new edge id, and the old ones are kept. |
| `TransportRouting.EmitKeepsEndpoints` | transport_router.cpp:25-48 | When every id names a vertex, every added edge joins two vertices. |
| `TransportRouting.EmitThen` | transport_router.cpp:29-75 | Adding xs + ys is adding xs, then ys, so the passes can be reasoned about one after the other. |
| `TransportRouting.EmitBlock` | transport_router.cpp:32-49 | One step of the walk adds the block's shortcuts and then its ride, after the earlier blocks. |
| `TransportRouting.EmitNext` | transport_router.cpp:42 | Adding n+1 rides is adding n, then ride n. |
| `TransportRouting.CreateEdge` | transport_router.cpp:150-167 | The edge joins the ids of the two route stops. The by-reference weight grows by the riding time of the hop into `to` (from `to`-1 forward, from `to`+1 back) and is the edge's weight. |
| `TransportRouting.CountEdgeInfo` | transport_router.cpp:169-177 | The record names the bus and the two route stops, and its time is the weight minus the wait. |
| `TransportRouting.FwdRideStep` | transport_router.cpp:39-48 | One more hop forward gives the ride's edge and record, with the weight summed from boarding. |
| `TransportRouting.RevRideStep` | transport_router.cpp:63-72 | One more hop back gives the ride's edge and record, mirrored. |
| `TransportRouting.AddFwdRide` | transport_router.cpp:39-48 | The edge of a forward ride is created, added and recorded under its id, with span `to` - `boarded`, and the running weight moves one hop on. |
| `TransportRouting.AddRevRide` | transport_router.cpp:63-72 | The edge of a backward ride is added and recorded, with span `boarded` - `to`. |
| `TransportRouting.AddFwdShortcuts` | transport_router.cpp:34-44 | When stop i recurs at j, the rides i to k for every k > j are added in order. Each has span k-j and a weight restarted at the wait. |
| `TransportRouting.AddRevShortcuts` | transport_router.cpp:58-68 | The mirror rule adds the rides i to k for k < j, descending, with span j-k. |
| `TransportRouting.FwdRowStep` | transport_router.cpp:32-49 | One step of the walk from i is the earlier blocks, then this block's shortcuts, then the ride i to j. |
| `TransportRouting.RevRowStep` | transport_router.cpp:56-73 | One step of the walk down from i, mirrored. |
| `TransportRouting.AddFwdRow` | transport_router.cpp:31-49 | The walk from i adds exactly its row's rides, in order. |
| `TransportRouting.AddFwdPass` | transport_router.cpp:29-50 | The forward pass adds exactly its rides, in order. |
| `TransportRouting.AddRevRow` | transport_router.cpp:55-73 | The walk down from i adds exactly its row's rides, in order. |
| `TransportRouting.AddRevPass` | transport_router.cpp:51-75 | The reverse pass adds exactly its rides, in order. |
| `TransportRouting.AddBusEdges` | transport_router.cpp:29-75 | One bus adds its forward pass and, when linear, its reverse pass: exactly its rides, in order. |
| `TransportRouting.BusRidesFit` | transport_router.cpp:29-75 | Every ride a bus offers lies on its route in its direction. |
| `TransportRouting.RidesOf` | transport_router.cpp:27 | There is one ride list per bus, in bus order. |
| `TransportRouting.Routes` | transport_router.cpp:26-27 | There is one route view per working bus, in name order. |
| `TransportRouting.WorkingBusesCovered` | transport_router.cpp:25-27 | In a well-formed catalogue, every working bus can be routed and every stop of it has an id. |
| `TransportRouting.Network` | transport_router.cpp:23-78 | Building the network keeps the vertex count and never removes an edge. |
| `TransportRouting.AddBuses` | transport_router.cpp:26-76 | The bus loop adds the rides of every bus in name order. |
| `TransportRouting.RideExplained` | transport_router.cpp:169-177 | A ride's record explains its edge: the edge's weight is the record's time plus the wait, and it joins the ids of the record's stops. |
| `TransportRouting.BusExplained` | transport_router.cpp:29-75 | The rides of one bus extend the graph and the records: every new edge is explained and nothing old changes. |
| `TransportRouting.BusKeys` | transport_router.cpp:42 | After one bus, the records are the old ones plus one per new edge. |
| `TransportRouting.BusNewExplained` | transport_router.cpp:39-48 | Every edge one bus adds is explained by the record stored under its id. |
| `TransportRouting.BusOldKept` | transport_router.cpp:42 | One bus leaves the old edges and the old records as they were. |
| `TransportRouting.ExtendsTwice` | transport_router.cpp:26-76 | An extension of an extension is an extension. |
| `TransportRouting.NetworkExplained` | transport_router.cpp:23-78 | Soundness: every edge the graph builder adds is explained by its record, and nothing old changes. |
| `TransportRouting.NetworkExplainedAfter` | transport_router.cpp:26-76 | The graph after n buses is the graph after n-1 buses plus bus n's rides. |
| `TransportRouting.NetworkStepExplained` | transport_router.cpp:26-76 | Adding one bus's rides to an extension gives an extension. |
| `TransportRouting.EmitAllHas` | transport_router.cpp:39-48 | Ride t lands at edge id old-count + t. |
| `TransportRouting.EmitAllKeeps` | transport_router.cpp:42 | Adding rides keeps what every old edge id holds. |
| `TransportRouting.NetworkComplete` | transport_router.cpp:23-78 | Completeness: ride t of bus k is an edge, at the id after the edges of the buses before k, with its record. |
| `TransportRouting.NetworkCompleteAfter` | transport_router.cpp:26-76 | A later bus keeps an earlier bus's edge and record. |
| `TransportRouting.NetworkEndpoints` | transport_router.cpp:25-48 | With one vertex per id, every edge of the graph joins two vertices. |
| `TransportRouting.Records` | transport_router.cpp:102-105 | There is one record per route edge, in route order. |
| `TransportRouting.RecordsAt` | transport_router.cpp:102-105 | Entry k of the records is the record of the route's k-th edge. |
| `TransportRouting.ItemsTimeIsPathWeight` | transport_router.cpp:95-109 | When the route's edges are explained by their records, the listed waits and riding times add up to the route's weight. |
| `TransportRouting.NumberingKeys` | transport_router.cpp:141-148 | The numbered names are exactly the listed names. |
| `TransportRouting.NumberingStep` | transport_router.cpp:146 | Numbering one more distinct name gives it the next id. |
| `TransportRouting.NumberingSize` | transport_router.cpp:141-148 | Distinct names get as many ids as there are names. |
| `TransportRouting.NumberingAt` | transport_router.cpp:141-148 | The k-th of distinct names gets id k. |
| `TransportRouting.NumberingIsPositions` | transport_router.cpp:141-148 | The ids are 0..n-1, one per name, and each id leads back to its name. |
| `TransportRouting.TransportRouter.WithSettings` | transport_router.cpp:9-15 | The router takes the velocity and the wait from the settings, has no records, and numbers the working stops in name order. |
| `TransportRouting.TransportRouter.constructor` | transport_router.cpp:17-21 | Without settings, velocity and wait are 0, there are no records, and the working stops are numbered. |
| `TransportRouting.TransportRouter.SetStopsId` | transport_router.cpp:141-148 | The working stops get ids 0..m-1 in ascending name order, and every id names a vertex. |
| `TransportRouting.RideTimeNonNegative` | transport_router.cpp:157-163 | A non-negative distance ridden at a positive velocity takes a non-negative time. |
| `TransportRouting.RouteHopsNonNegative` | transport_router.cpp:150-167 | With non-negative road and geographic distances and a positive velocity, every hop time of a bus, both ways, is non-negative. |
| `TransportRouting.RideWeightAtLeastWait` | transport_router.cpp:31-48 | The edge of a ride on a bus with non-negative hop times weighs at least the waiting time. |
| `TransportRouting.EmitKeepsWeights` | transport_router.cpp:39-48 | Adding a bus's rides to a graph whose edges weigh at least the wait keeps every edge at least the wait. |
| `TransportRouting.NetworkWeights` | transport_router.cpp:27-76 | Adding the rides of buses with non-negative hop times keeps every edge at least the wait. |
| `TransportRouting.BuiltWeightsAtLeastWait` | transport_router.cpp:23-78 | With non-negative distances and a positive velocity, every edge of the graph built from the working buses weighs at least the waiting time. |
| `TransportRouting.GraphWeightsAtLeastWait` | transport_router.cpp:23-78 | The same, for any graph and records equal to the ones built from the working buses, as `CreateGraph` obtains them. |
| `TransportRouting.FirstRideListed` | transport_router.cpp:39-48 | A route of two stops or more lists, at the position returned, the ride from its first stop to its second. |
| `TransportRouting.RideEmitted` | transport_router.cpp:29-48 | Ride t of a bus lands at edge id old-count + t, with that ride's edge and record: the record names the ride's two stops and the edge goes into the vertex of the stop ridden to. |
| `TransportRouting.TransportRouter.CreateGraph` | transport_router.cpp:23-78 | The graph has one vertex per working stop, then the rides of every working bus in name order. Each ride's record is stored under its edge's id. With non-negative distances and a positive velocity, every edge weighs at least the waiting time. |
| `TransportRouting.TransportRouter.FindRouteInformation` | transport_router.cpp:95-109 | No route gives "not found". A route gives its weight, the router's wait, and the records of its edges in order. |
| `TransportRouting.TransportRouter.StopIsWorking` | transport_router.cpp:80-83 | The result is true exactly when the stop has an id, that is, when some bus serves it. |
| `TransportRouting.TransportRouter.GetStopId` | transport_router.cpp:85-88 | The id of a working stop is below the number of ids. |
| `TransportRouting.TransportRouter.GetEdgeInfo` | transport_router.cpp:90-93 | The result is the record stored under the edge id. |
| `TransportRouting.TransportRouter.GetEdgesInfo` | transport_router.cpp:111-114 | The result is the record table. |
| `TransportRouting.TransportRouter.GetBusWaitTime` | transport_router.cpp:116-119 | The result is the waiting time. |
| `TransportRouting.TransportRouter.AddEdgeInfo` | transport_router.cpp:121-124 | The record is stored under the id, replacing only that entry. |
| `TransportRouting.TransportRouter.SetBusWaitTime` | transport_router.cpp:126-129 | Only the waiting time changes. |
| `TransportRouting.TransportRouter.SetBusVelocity` | transport_router.cpp:131-134 | Only the velocity changes. |
| `JsonBuilder.BuildStep` | json_builder.cpp:101-108 | `Build` gives the root exactly when the object is complete. |
| `JsonBuilder.FreshInv` | json_builder.h:33-38 | A fresh builder (nothing open, not complete, allowed to insert) satisfies the invariant. |
| `JsonBuilder.StepKeepsInv` | json_builder.cpp:5-137 | Every call that does not throw keeps the invariant. |
| `JsonBuilder.ValueKeepsInv` | json_builder.cpp:18-49 | `Value` keeps the invariant. |
| `JsonBuilder.StartKeepsInv` | json_builder.cpp:51-77 | `StartDict` and `StartArray` keep the invariant. |
| `JsonBuilder.EndContainerKeepsInv` | json_builder.cpp:110-137 | Closing the top container keeps the invariant, so a key is always there when `keys.back()` is read. |
| `JsonBuilder.OfferedCallsSucceed` | json_builder.h:45-133 | Every call a context offers succeeds, and the context it returns describes the builder after it. |
| `JsonBuilder.DictNeedsKey` | json_builder.cpp:18-23 | Without a pending key, a dict refuses values and containers. That is why the dict contexts offer only `Key` and `EndDict`. |
| `JsonBuilder.NoKeyAfterKey` | json_builder.cpp:7-10 | Two keys in a row are refused. |
| `JsonBuilder.CompletedIsFinal` | json_builder.cpp:5-108 | A completed object refuses every further call, and only a completed object builds. |
| `JsonBuilder.RunKeepsInv` | json_builder.cpp:5-137 | A whole sequence of calls keeps the invariant. |
| `JsonBuilder.ValuesAppend` | json_builder.cpp:34-40 | Values given to an open array are appended in order. |
| `JsonBuilder.StartRootArray` | json_builder.cpp:65-77 | `StartArray` on a fresh builder opens the root array. |
| `JsonBuilder.EndRootArray` | json_builder.cpp:90-99 | Closing the root array completes the object, which builds to that array. |
| `JsonBuilder.ArrayFilled` | json_builder.cpp:34-40 | `StartArray` and one `Value` per node leave the root array holding the nodes. |
| `JsonBuilder.ArrayOfValues` | json_builder.cpp:65-99 | `StartArray`, the values and `EndArray` build exactly that array. |
| `JsonBuilder.StartRootDict` | json_builder.cpp:51-63 | `StartDict` on a fresh builder opens the root dict, which waits for a key. |
| `JsonBuilder.KeyInDict` | json_builder.cpp:5-16 | `Key` in an open dict pushes the key and grants permission to insert. |
| `JsonBuilder.ValueAtKey` | json_builder.cpp:26-33 | `Value` after `Key` stores the value under the key, overwriting any earlier entry, and pops the key. |
| `JsonBuilder.StartDictInArray` | json_builder.cpp:51-63 | `StartDict` inside an array opens a nested dict. |
| `JsonBuilder.EndDictInArray` | json_builder.cpp:114-121 | Closing a dict inside an array appends it to the array. |
| `JsonBuilder.StartArrayAtKey` | json_builder.cpp:65-77 | `StartArray` after a key opens an array that goes under that key. |
| `JsonBuilder.EndArrayInDict` | json_builder.cpp:122-130 | Closing an array opened under a key stores it under that key. |
| `JsonBuilder.EndRootDict` | json_builder.cpp:132-136 | Closing the root dict completes the object, which builds to that dict. |
| `JsonBuilder.Builder.constructor` | json_builder.h:33-38 | A default builder has nothing open, is not complete and is allowed to insert. |
| `JsonBuilder.Builder.Key` | json_builder.cpp:5-16 | The call throws exactly where the key step does (empty stack, non-dict top, key after key, complete). Otherwise the fields become the step's result. |
| `JsonBuilder.Builder.Value` | json_builder.cpp:18-49 | The call throws when complete or not allowed to insert. Otherwise it updates in place and returns a separate copy of the builder. |
| `JsonBuilder.Builder.Copy` | json_builder.cpp:48 | The copy has the same fields as the builder and is a fresh object. |
| `JsonBuilder.Builder.StartDict` | json_builder.cpp:51-63 | Pushes an empty dict, counts it and withdraws permission, or throws. |
| `JsonBuilder.Builder.StartArray` | json_builder.cpp:65-77 | Pushes an empty array, counts it and grants permission, or throws. |
| `JsonBuilder.Builder.EndDict` | json_builder.cpp:79-88 | Throws unless the top is a dict and the object is unfinished; otherwise closes it. |
| `JsonBuilder.Builder.EndArray` | json_builder.cpp:90-99 | Throws unless the top is an array and the object is unfinished; otherwise closes it. |
| `JsonBuilder.Builder.EndContainerInPlace` | json_builder.cpp:110-137 | The closed container goes into its parent: appended to an array, or stored under the popped key of a dict. The object completes when only the root is left. |
| `JsonBuilder.Builder.Build` | json_builder.cpp:101-108 | The result is the root when the object is complete; otherwise the call throws. |
| `RequestHandling.Strings` | request_handler.cpp:21-26 | The bus names become an array of strings, in order. |
| `RequestHandling.ItemsAlternate` | request_handler.cpp:53-62 | A route of k edges gives 2k items. Even items are waits at the stop each ride leaves from; odd items are the rides. |
| `RequestHandling.PutField` | request_handler.cpp:27 | `.Key(k).Value(v)` in an open dict stores v under k. |
| `RequestHandling.StartRoot` | request_handler.cpp:52 | `StartDict()` on a fresh builder opens the answer's dict. |
| `RequestHandling.FinishRoot` | request_handler.cpp:63 | `EndDict().Build()` of the root dict gives that dict. |
| `RequestHandling.CollectNotFound` | request_handler.cpp:31 | The "not found" chain builds the request id and the error message. |
| `RequestHandling.CollectMap` | request_handler.cpp:126 | The map chain builds the map text and the request id. |
| `RequestHandling.CollectStopInformation` | request_handler.cpp:17-33 | The answer is "not found" exactly when the stop's name is empty. Otherwise it holds the buses in set order and the id. |
| `RequestHandling.CollectBusFound` | request_handler.cpp:39 | The chain of a found bus builds its curvature, id, road length and stop counts. |
| `RequestHandling.CollectBusInformation` | request_handler.cpp:35-45 | The answer is "not found" exactly when the bus's name is empty. |
| `RequestHandling.OpenHead` | request_handler.cpp:52 | The start of the route chain builds a dictionary of the request id and the total time. |
| `RequestHandling.OpenItems` | request_handler.cpp:52 | The route chain opens the items array under the id and total time. |
| `RequestHandling.PutWait` | request_handler.cpp:55 | A wait item (stop, wait time) is appended to the open array. |
| `RequestHandling.PutBus` | request_handler.cpp:58 | A ride item (bus, span, time) is appended to the open array. |
| `RequestHandling.PutLeg` | request_handler.cpp:58-59 | One loop turn appends the ride of edge i, then the wait where it ends. |
| `RequestHandling.PutItems` | request_handler.cpp:53-62 | The items are the first wait, a ride and a wait per edge but the last, then the last ride. |
| `RequestHandling.CollectRouteInformation` | request_handler.cpp:47-69 | A found route gives its total time and alternating items; no edges gives no items; a route not found gives "not found". |
| `RequestHandling.CollectFound` | request_handler.cpp:49-63 | A found route is answered with its id, total time and items, and no builder call throws. |
| `RequestHandling.CloseItems` | request_handler.cpp:63 | Closing the items array and the dictionary gives the head fields with the items stored under "items". |
| `RequestHandling.AnswersNext` | request_handler.cpp:108-141 | Answering one more request adds its answer, if it has one. |
| `RequestHandling.OneAnswerPerKnownRequest` | request_handler.cpp:103-143 | There is one answer per stop, bus, map or route request, and none for any other type. |
| `RequestHandling.AnswersInOrder` | request_handler.cpp:103-143 | Answering a + b is answering a, then b. |
| `RequestHandling.SameStopRoute` | request_handler.cpp:131-134 | A route from a name to itself is found, takes no time and has no items, whether or not the stop exists. |
| `RequestHandling.NoRouteFromIdleStop` | request_handler.cpp:135-139 | Between two different names, one of them not a working stop, no search is made and the answer is "not found". |
| `RequestHandling.RequestHandler.constructor` | request_handler.cpp:11-15 | The handler keeps the catalogue and the router it is given. |
| `RequestHandling.RequestHandler.FindRoute` | request_handler.cpp:130-138 | The route is empty for equal names, the search's result between two working stops, and none otherwise. |
| `RequestHandling.RequestHandler.FindOne` | request_handler.cpp:110-140 | One request gets the answer of its type. |
| `RequestHandling.RequestHandler.FindInformation` | request_handler.cpp:103-143 | The result is the answers to all requests, in request order. |
| `MapRendering.ToUint32` | map_renderer.cpp:93 | A font size passed as `uint32_t` is below 2^32 and unchanged when it fits. |
| `MapRendering.NextColorNum` | map_renderer.cpp:68-75 | The palette counter stays below the palette size. |
| `MapRendering.NextColorNumCycles` | map_renderer.cpp:68-75 | After k uses the counter stands at k mod the palette size. |
| `MapRendering.RoutePoints` | map_renderer.cpp:52-62 | A line has the n stops in order and, for a linear bus, stops n-2 down to 0 after them: 2n-1 points. |
| `MapRendering.NameBusesNext` | map_renderer.cpp:86-124 | One more bus adds its labels, in the colour of the number of labelled buses before it. |
| `MapRendering.BusLabelsShape` | map_renderer.cpp:88-122 | A bus without stops gets no labels. Otherwise: underlayer then coloured text at the first stop, and the same pair at the last stop exactly when it differs. |
| `MapRendering.NameBusesCount` | map_renderer.cpp:86-124 | There are two labels per bus with stops, plus two per bus whose ends differ. |
| `MapRendering.AsByte` | map_renderer.cpp:182-184 | Only an integer node gives a channel (any other node throws); an integer below 256 is kept unchanged. |
| `MapRendering.AsDouble` | map_renderer.cpp:191 | Only an integer or a double node gives a number. |
| `MapRendering.ReadColorInvertsColorNode` | map_renderer.cpp:171-196 | Every colour written as a node is read back unchanged. |
| `MapRendering.ReadColorShape` | map_renderer.cpp:171-196 | A string gives a name, an array of 3 gives Rgb, and a longer array gives Rgba with element 3 as the opacity. |
| `MapRendering.MapRenderer.constructor` | map_renderer.cpp:25-28 | The renderer keeps the settings it is given. |
| `MapRendering.MapRenderer.TracePoints` | map_renderer.cpp:52-62 | The points of one bus line are its route points. |
| `MapRendering.MapRenderer.TraceThere` | map_renderer.cpp:52-55 | The first loop gives the stops in order. |
| `MapRendering.MapRenderer.TraceBack` | map_renderer.cpp:56-62 | The second loop gives stops n-2 down to 0. |
| `MapRendering.MapRenderer.DrawRoutes` | map_renderer.cpp:45-80 | There is one line per bus in name order, and line k is stroked with palette colour k mod the palette size. |
| `MapRendering.MapRenderer.LabelBus` | map_renderer.cpp:90-122 | A bus with stops gets its labels, coloured with the given palette entry. |
| `MapRendering.MapRenderer.LabelNext` | map_renderer.cpp:86-124 | One loop turn adds bus i's labels and advances the counter only when the bus has stops. |
| `MapRendering.MapRenderer.DrawNameBuses` | map_renderer.cpp:82-126 | The labels of all buses, in order, with the palette advancing only for labelled buses. |
| `MapRendering.MapRenderer.DrawStopSymbols` | map_renderer.cpp:128-140 | There is one white circle of the stop radius per stop, in name order. |
| `MapRendering.MapRenderer.DrawNameStop` | map_renderer.cpp:142-164 | There are two texts per stop, in name order: the underlayer, then the name filled black. |
| `Serialization.RowRecords` | serialization.cpp:31-37 | A saved distance row holds one entry (destination number, metres) per override, in iteration order. |
| `Serialization.BusRecord` | serialization.cpp:42-52 | A saved bus holds the numbers of its route stops, in order. |
| `Serialization.StopRecords` | serialization.cpp:20-40 | There is one stop message per stop, in iteration order. |
| `Serialization.BusRecords` | serialization.cpp:42-52 | There is one bus message per bus, in iteration order. |
| `Serialization.EnumerationNumbering` | serialization.cpp:13-17 | Numbering an iteration order numbers exactly its keys, each by its position. |
| `Serialization.OrderNumbersStops` | serialization.cpp:13-17 | The stops are numbered by their iteration position, and every name saving looks up has a number. |
| `Serialization.SavedStopsAreNumbered` | serialization.cpp:8-54 | The saved stops are numbered 0..n-1 once each, and every route entry names its stop by that number. |
| `Serialization.SavedStopsShape` | serialization.cpp:20-40 | Saved stop k is the k-th stop of the iteration, under number k, with its coordinates. |
| `Serialization.SavedRouteEntry` | serialization.cpp:47-50 | Entry j of a saved route is the number of the route's j-th stop. |
| `Serialization.RouteOf` | serialization.cpp:186-189 | A route is restored exactly when every number names a stop, and then each entry is named back. |
| `Serialization.IdNamesOfNumbered` | serialization.cpp:160-170 | Stops saved under numbers 0..n-1 are named back by their numbers. |
| `Serialization.WithStopsRestores` | serialization.cpp:160-170 | The first pass over saved stops restores the stop table. |
| `Serialization.RowOfRestores` | serialization.cpp:175-178 | Naming a saved row back gives the row. |
| `Serialization.WithDistancesRestores` | serialization.cpp:171-180 | The second pass restores the override table. |
| `Serialization.WithDistancesStep` | serialization.cpp:171-180 | One more stop message adds its row. |
| `Serialization.WithBusesRestores` | serialization.cpp:181-191 | The third pass restores the bus table and touches neither the stops nor the overrides. |
| `Serialization.WithBusesStep` | serialization.cpp:181-191 | One more bus message adds its bus. |
| `Serialization.StopRowRestores` | serialization.cpp:29-38 | The row a stop message carries names back the stop's override row. |
| `Serialization.SavedRowsRestore` | serialization.cpp:20-40 | The saved stops carry rows that name back the whole override table. |
| `Serialization.SavedRoutesRestore` | serialization.cpp:42-52 | The saved buses carry routes that name back the bus table. |
| `Serialization.SavedNamesInvert` | serialization.cpp:160-170 | The numbers of the saved stops lead back to the stop names. |
| `Serialization.SavedStopsRestore` | serialization.cpp:160-170 | The first pass over the saved stops gives back the stop table. |
| `Serialization.CatalogueRoundTrip` | serialization.cpp:156-193 | Restoring a saved catalogue never fails. It gives back the same stops, overrides and buses whatever the iteration orders. |
| `RouterSerialization.Named` | serialization.cpp:124-127 | Name k is saved as message (k, name). |
| `RouterSerialization.Intern` | serialization.cpp:122-129 | A name seen for the first time is listed. |
| `RouterSerialization.InternPrefix` | serialization.cpp:122-129 | Interning keeps the names listed before in place. |
| `RouterSerialization.InternDistinct` | serialization.cpp:122-129 | Interning keeps the list free of repeats. |
| `RouterSerialization.InternPosition` | serialization.cpp:128-130 | The number a name gets is its place in the list. |
| `RouterSerialization.InternMembers` | serialization.cpp:122-129 | Interning lists the name and the names before it, and nothing else. |
| `RouterSerialization.SaveEdgeDistinct` | serialization.cpp:121-151 | One loop turn keeps both name lists free of repeats. |
| `RouterSerialization.SaveEdgePrefix` | serialization.cpp:121-151 | One loop turn keeps earlier names and records in place. |
| `RouterSerialization.SaveEdgeRecord` | serialization.cpp:121-151 | The record a loop turn saves names back its bus and stops and carries its span and time. |
| `RouterSerialization.SavedDistinct` | serialization.cpp:119-152 | Saving keeps both name lists free of repeats. |
| `RouterSerialization.SavedSize` | serialization.cpp:119-152 | One record is saved per record. |
| `RouterSerialization.SavedAt` | serialization.cpp:119-152 | Saved record k names back record k. |
| `RouterSerialization.SavedNames` | serialization.cpp:119-152 | The lists hold exactly the buses and the stops the records name. |
| `RouterSerialization.SavedMessageAt` | serialization.cpp:130-151 | Saved record k refers, through the message's lists, to record k's bus and stops, and carries its span and time. |
| `RouterSerialization.NamedDense` | serialization.cpp:124-127 | Saved names are numbered 0, 1, ... once each, and read back in order. |
| `RouterSerialization.SavedLists` | serialization.cpp:111-154 | The message keeps the wait. Its buses and stops are numbered densely and are exactly the ones the records name. |
| `RouterSerialization.SavedShape` | serialization.cpp:111-154 | The message has one record per record, in order, each naming back its bus and stops. |
| `RouterSerialization.CreateProtoTransportRouter` | serialization.cpp:111-154 | The saving loop builds the message of the wait and the records in table-iteration order. |
| `RouterSerialization.NumberOnce` | serialization.cpp:122-129 | A new name gets the next number, both in the map and in the message list; a known name keeps its number. |
| `RouterSerialization.SaveStep` | serialization.cpp:119-152 | Saving one more record continues the saving state. |
| `RouterSerialization.InternNumbering` | serialization.cpp:122-129 | Seen through the loop's map and messages, a new name gets the next number and message, and a known name changes nothing. |
| `RouterSerialization.InternNumbers` | serialization.cpp:128 | A new name's number is the count of names before it. |
| `RouterSerialization.InternMessages` | serialization.cpp:124-127 | A new name adds one message, numbered after the ones before it. |
| `RouterSerialization.IdMapOfDense` | serialization.cpp:255-262 | A densely numbered list is named back entry by entry. |
| `RouterSerialization.IdMapOfNamed` | serialization.cpp:255-262 | The numbers of saved names lead back to the names. |
| `RouterSerialization.RestoreUpToSize` | serialization.cpp:268-281 | A successful restore gives one record and one edge per saved record. |
| `RouterSerialization.RestoreUpToAt` | serialization.cpp:268-281 | In a successful restore, saved record k restores to record k and edge k. |
| `RouterSerialization.RestoreUpToSucceeds` | serialization.cpp:268-281 | When every saved record restores, the whole restore succeeds. |
| `RouterSerialization.RestoreFails` | serialization.cpp:273-278 | A saved record that cannot be named back makes the restore fail. |
| `RouterSerialization.RestoreStep` | serialization.cpp:268-281 | Restoring one more record stores it under the next edge id. |
| `RouterSerialization.RestoredEdgeAt` | serialization.cpp:276-280 | Rebuilt edge k weighs record k's time plus the wait and joins the router ids of its stops, which are below the id count. |
| `RouterSerialization.RestoredEdgesConsistent` | serialization.cpp:263-281 | A graph is restored exactly when every record restores. Each edge then weighs time plus wait and joins its stops' router ids; with one vertex per id, every edge joins two vertices. |
| `RouterSerialization.ThreeStopIds` | transport_router.cpp:141-148 | Working stops A, B, C get ids 0, 1, 2. |
| `RouterSerialization.ExampleCatalogue` | transport_router.cpp:141-148 | The example catalogue (stops A, B, C; bus "0" at A only; linear bus "1" from B to C) is well formed. Its working stops get ids 0, 1, 2, and its working buses come in the order "0", "1". |
| `RouterSerialization.ExampleRoutes` | transport_router.cpp:26-29 | Both example buses can be routed: bus "0" stops at A only, and bus "1" is the linear route B, C. |
| `RouterSerialization.ExampleBusOne` | transport_router.cpp:23-78 | The example's graph is bus "1"'s rides added to an empty graph of three vertices; bus "0" adds nothing. |
| `RouterSerialization.ExampleCase` | transport_router.cpp:23-78 | The example's ids name catalogue stops; its records name only B and C and explain their edges; the record returned rides from B to C and its edge goes to vertex 2. |
| `RouterSerialization.TwoStopBus` | transport_router.cpp:39-72 | The rides of one bus with two distinct stops, added to a graph with no edges, give records that name only those stops and explain their edges, and a record riding from the first to the second into the second's vertex. |
| `RouterSerialization.TwoStopBusRecords` | transport_router.cpp:39-72 | Every record of such a bus is under an edge id, explains that edge, and names only the bus's two stops. |
| `RouterSerialization.TwoStopBusNames` | transport_router.cpp:39-48 | Every record of such a bus names one of its two stops at each end. |
| `RouterSerialization.TwoStopBusRide` | transport_router.cpp:39-48 | Such a bus has a record, the id returned, riding from its first stop to its second, whose edge goes into the second stop's vertex. |
| `RouterSerialization.SavedPosition` | serialization.cpp:111-154 | Saved in any iteration order, the record under a given id is saved at the position returned. |
| `RouterSerialization.SavedWithin` | serialization.cpp:111-154 | Saved in any order, records that name only stops of a set still do. |
| `RouterSerialization.TwoStopsSaved` | serialization.cpp:111-154 | Records that name only two stops, one riding from the first to the second, are saved with exactly two stop numbers. |
| `RouterSerialization.WrittenVertexCount` | serialization.cpp:254-267 | As written, a restored graph has one vertex per saved stop number. |
| `RouterSerialization.TwoStopRestore` | serialization.cpp:254-267 | As written, records naming only two stops, one riding from the first to the second, restore to a graph of 2 vertices. |
| `RouterSerialization.TwoStopRecordsSaved` | serialization.cpp:263-281 | Saved in any order and restored as written, a built graph whose records name only two stops comes back with 2 vertices, and the edge at the position returned is the edge of the record riding from the first stop to the second. |
| `RouterSerialization.EdgeLeavesRange` | serialization.cpp:263-281 | A graph with an edge into a vertex number at or above its vertex count does not keep its endpoints in range. |
| `RouterSerialization.RestoredGraphAsWrittenLeavesRange` | serialization.cpp:267 | As written, the graph the router builds for the example catalogue, saved in any record order, restores with 2 vertices, yet its edge at the position returned, from B to C, goes to vertex 2; with `EdgeLeavesRange` the restored graph does not keep its endpoints in range. |
| `RouterSerialization.DeserializeTransportRouter` | serialization.cpp:251-283 | The wait is restored, then each saved record is named back, its edge added and its record stored under the edge id. A failing lookup gives no graph. |
| `RouterSerialization.RestoreEdges` | serialization.cpp:268-281 | The restore loop builds the restored edges and stores the restored records under their ids, or fails. |
| `RouterSerialization.AddRestored` | serialization.cpp:276-280 | One record's edge joins its stops' router ids and weighs time plus wait; it is added and the record stored under its id. |
| `RouterSerialization.RestoredSaved` | serialization.cpp:270-275 | A saved record whose bus exists and whose stops have ids restores to the original record. |
| `RouterSerialization.RoundTripAt` | serialization.cpp:111-281 | Saved record k restores to record k. |
| `RouterSerialization.RestoredAll` | serialization.cpp:268-281 | Records that each restore in place restore all together. |
| `RouterSerialization.RouterRecordsRoundTrip` | serialization.cpp:111-281 | Saving then restoring records whose buses and stops exist never fails and gives back the same records in saved order. |
| `RouterSerialization.RestoredEdgeExplained` | serialization.cpp:276-280 | A restored record rebuilds the edge it explains. |
| `RouterSerialization.RestoredEdgesExplained` | serialization.cpp:268-281 | Restored edges equal the edges their records explain. |
| `RouterSerialization.RouterRoundTrip` | serialization.cpp:111-281 | Saving a built graph's records in any order and restoring them gives the records and the graph's edges back, renumbered by the save order. |
| `SettingsSerialization.GetProtoColor` | serialization.cpp:56-82 | The saved colour message is unset exactly when the colour is unset; any set colour is saved as a set message. |
| `SettingsSerialization.Channel` | serialization.cpp:205-207 | A channel below 256 is stored into `uint8_t` unchanged. |
| `SettingsSerialization.GetColor` | serialization.cpp:195-220 | "string" gives a name and "rgb" gives Rgb; any other tag gives Rgba, so the result is never unset. |
| `SettingsSerialization.ColorRoundTrip` | serialization.cpp:195-220 | Every set colour survives a save and restore; an unset one comes back as Rgba(0,0,0,0). |
| `SettingsSerialization.SettingsRoundTrip` | serialization.cpp:222-247 | The settings come back unchanged when no colour is unset. The offsets and palette keep their order, and only unset colours change. |
| `SettingsSerialization.CopyOffsets` | serialization.cpp:93-96 | An offset list is copied element by element. |
| `SettingsSerialization.CreateProtoRenderSettings` | serialization.cpp:84-109 | Every field is copied into the message. |
| `SettingsSerialization.DeserializeMapRenderer` | serialization.cpp:222-247 | Every field is read back from the message. |

## Left out

- Geographic distance (`geo::ComputeDistance`): geo.h is not part of this model, so the distance is a function parameter.
- Shortest-path search (`graph::Router::BuildRoute`): router.h is not part of this model. Its optional result is a parameter of `FindRouteInformation` and `FindInformation`.
- Graph internals: graph.h is not part of this model. `AddEdge` is taken to append the edge and return the previous edge count.
- Floating point: doubles are `real`. IEEE rounding is not modelled. A zero straight length gives the `NotFinite` curvature instead of an infinity or NaN.
- Integer widths: `size_t` ids and counters are unbounded. No realistic input reaches their limits.
- The Map request branch and `RenderMap` (request_handler.cpp:71-101): the rendered SVG text is a parameter. svg.h and svg.cpp are not part of this model.
- SphereProjector and `IsZero` (map_renderer.cpp:9-18): projection is a function parameter from coordinates to points.
- `SetRenderSettings` (map_renderer.cpp:198-221) and the getters `GetWidth`, `GetHeight`, `GetPadding` and `GetRenderSettings`: reading settings from JSON is not modelled beyond `ReadColor`.
- `GetValue` (json_builder.cpp:139-170): a value already is a `Node` in the model, so this conversion is the identity.
- json_reader.cpp and main1.cpp/main2.cpp: input parsing, file streams and protobuf wire encoding are not modelled. Messages are plain datatypes. The reader's order (stops, then distances, then buses) appears only as the preconditions of `AddDistanceBetweenStop` and `AddBus`.
- Catalogue.TransportCatalogue.AddBus: the first loop (transport_catalogue.cpp:29-32) copies each stop's name and the address of its coordinates. The model stores the route as names and looks coordinates up by name.
- Catalogue.TransportCatalogue.AddDistanceBetweenStop: a missing stop makes the source dereference a missing `find`, which is undefined. The model makes that a precondition, and likewise for `AddBus`.
- TransportRouting.TransportRouter.CreateGraph: requires velocity != 0. The settings-less constructor leaves velocity 0, and the riding time then divides by zero. That constructor is only used before restoring a saved graph, which never builds one.
- The serialisation functions `CreateProtoCatalogue` and `DeserializeCatalogue` are functions on values (`ProtoCatalogueOf`, `Restored`), with the hash-table iteration orders as parameters. The numbering loops are the function `Numbering` and the list `IdNames`.
- RouterSerialization.DeserializeTransportRouter: when a saved record cannot be restored, the source throws after storing the earlier records. The model's contract says nothing about the router's records in that case.
- RouterSerialization.DeserializeTransportRouter: builds one vertex per router id, not one per saved stop number. This corrects the count the source uses (see Findings).
- RouterSerialization.RestoreEdges: looks stop ids up in the router's id map directly; `GetStopId` would throw where the lookup fails.
- MapRendering.AsDouble: a non-finite double node carries no number in the model, since `real` has no infinity or NaN. It gives None where the source returns that double.
- JsonBuilder.Builder.EndDict: `EndDict` and `EndArray` on an empty stack read `back()` of an empty vector, which is undefined. The model throws.

## Findings

| source | as written | input that shows it | evidently intended | confidence | as-written member | corrected member |
|---|---|---|---|---|---|---|
| serialization.cpp:267 | `DeserializeTransportRouter` sizes the graph by the number of saved stop numbers, i.e. the stops some edge record names. But the edge endpoints are the router's ids over all working stops. | Stops A, B, C; bus "0" with the single stop A, which offers no ride; bus "1", linear, from B to C. The router numbers A, B, C as 0, 1, 2 and builds two records, B to C and C to B. Saved in either order, they give two stop numbers. The restored graph has 2 vertices, yet the edge from B to C goes to vertex 2. | One vertex per router id, as `CreateGraph` does (transport_router.cpp:25), so every edge joins two vertices. | medium, not executed | `RouterSerialization.RestoredGraphAsWrittenLeavesRange` | `RouterSerialization.RestoredEdgesConsistent` |
