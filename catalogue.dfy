/** The transport catalogue: stops with coordinates, directed road-distance
    overrides, buses with their routes, and the reverse index from a stop to
    the buses through it. The four maps live in a class whose mutators update
    them in place; the queries are read-only methods whose results are tied to
    the specification functions over a `State` value. */
module Catalogue {
  import opened Wrappers
  import opened Names
  import opened Domain

  /** `distance_between_stops_`: from-stop -> to-stop -> metres. */
  type DistanceTable = map<string, map<string, int>>

  /** The four maps of the catalogue, as a value. */
  datatype State = State(stops: map<string, Coordinates>,
                         distances: DistanceTable,
                         buses: map<string, Bus>,
                         busesPassingStops: map<string, set<string>>)

  /** What the mutators maintain: every referenced stop exists, the reverse
      index lists each bus at every stop of its route, index sets and override
      rows are never empty. */
  predicate WellFormed(st: State)
  {
    && (forall b | b in st.buses ::
          forall s | s in st.buses[b].stops ::
            s in st.stops && s in st.busesPassingStops && b in st.busesPassingStops[s])
    && (forall s | s in st.busesPassingStops ::
          s in st.stops && st.busesPassingStops[s] != {} && st.busesPassingStops[s] <= st.buses.Keys)
    && (forall a | a in st.distances ::
          a in st.stops && st.distances[a] != map[] && st.distances[a].Keys <= st.stops.Keys)
  }

  /** A stop served by at least one bus. */
  predicate IsWorkingStop(st: State, s: string)
  {
    s in st.stops && s in st.busesPassingStops && st.busesPassingStops[s] != {}
  }

  /** A bus with at least one stop. */
  predicate IsWorkingBus(st: State, b: string)
  {
    b in st.buses && |st.buses[b].stops| > 0
  }

  predicate RouteKnown(st: State, route: seq<string>)
  {
    forall s | s in route :: s in st.stops
  }

  // ---------------------------------------------------------------- distances

  /** The directed override from `from` to `to`, if one was recorded. */
  function Override(d: DistanceTable, from: string, to: string): Option<int>
  {
    if from in d && to in d[from] then Some(d[from][to]) else None
  }

  /** `CalculateDistance`: the override (from,to), else the override
      (to,from), else the geographic distance. */
  function Distance(st: State, geo: GeoDistance, from: string, to: string): real
    requires from in st.stops && to in st.stops
  {
    match Override(st.distances, from, to)
    case Some(m) => m as real
    case None =>
      match Override(st.distances, to, from)
      case Some(m) => m as real
      case None => geo(st.stops[from], st.stops[to])
  }

  /** One override serves both directions: when only (a,b) is recorded, the
      distance from b to a is that same override, not the geographic one. */
  lemma OneSidedOverrideServesBothWays(st: State, geo: GeoDistance, a: string, b: string)
    requires a in st.stops && b in st.stops
    requires Override(st.distances, a, b).Some? && Override(st.distances, b, a).None?
    ensures Distance(st, geo, a, b) == Distance(st, geo, b, a)
                                    == Override(st.distances, a, b).value as real
  {
  }

  /** The resolution is symmetric unless both directions carry different
      overrides (given a symmetric geographic distance). */
  lemma DistanceSymmetricUnlessBothOverridden(st: State, geo: GeoDistance, a: string, b: string)
    requires a in st.stops && b in st.stops
    requires geo(st.stops[a], st.stops[b]) == geo(st.stops[b], st.stops[a])
    requires !(Override(st.distances, a, b).Some? && Override(st.distances, b, a).Some?
               && Override(st.distances, a, b) != Override(st.distances, b, a))
    ensures Distance(st, geo, a, b) == Distance(st, geo, b, a)
  {
  }

  /** The resolution can differ by direction: two different overrides. */
  lemma DistanceCanBeAsymmetric(geo: GeoDistance)
    ensures var c := Coordinates(0.0, 0.0);
            var st := State(map["A" := c, "B" := c],
                            map["A" := map["B" := 100], "B" := map["A" := 200]], map[], map[]);
            Distance(st, geo, "A", "B") == 100.0 && Distance(st, geo, "B", "A") == 200.0
  {
  }

  // ------------------------------------------------------------ bus statistics

  /** Hop distances forward along the route: the sum over i < k of
      Distance(route[i], route[i+1]). */
  function ForwardLength(st: State, geo: GeoDistance, route: seq<string>, k: nat): real
    requires RouteKnown(st, route) && k < |route|
  {
    if k == 0 then 0.0
    else ForwardLength(st, geo, route, k - 1) + Distance(st, geo, route[k - 1], route[k])
  }

  /** The return trip of a linear bus, from its last stop back to position i:
      the sum over t > i of Distance(route[t], route[t-1]). */
  function BackwardLength(st: State, geo: GeoDistance, route: seq<string>, i: nat): real
    requires RouteKnown(st, route) && i < |route|
    decreases |route| - i
  {
    if i == |route| - 1 then 0.0
    else BackwardLength(st, geo, route, i + 1) + Distance(st, geo, route[i + 1], route[i])
  }

  /** Geographic length of the first k hops. */
  function StraightLength(st: State, geo: GeoDistance, route: seq<string>, k: nat): real
    requires RouteKnown(st, route) && k < |route|
  {
    if k == 0 then 0.0
    else StraightLength(st, geo, route, k - 1) + geo(st.stops[route[k - 1]], st.stops[route[k]])
  }

  /** The road length of a bus: forward, plus the way back for a linear bus. */
  function RouteLength(st: State, geo: GeoDistance, bus: Bus): real
    requires RouteKnown(st, bus.stops)
  {
    if |bus.stops| == 0 then 0.0
    else ForwardLength(st, geo, bus.stops, |bus.stops| - 1)
         + (if bus.isCircular then 0.0 else BackwardLength(st, geo, bus.stops, 0))
  }

  /** The straight-line length, doubled for a linear bus. */
  function StraightRouteLength(st: State, geo: GeoDistance, bus: Bus): real
    requires RouteKnown(st, bus.stops)
  {
    if |bus.stops| == 0 then 0.0
    else (if bus.isCircular then 1.0 else 2.0) * StraightLength(st, geo, bus.stops, |bus.stops| - 1)
  }

  /** Road length over straight-line length; a zero straight length (a bus
      without stops, or all stops at one point) has no finite ratio. */
  function CurvatureOf(length: real, straight: real): (c: Curvature)
    ensures c.NotFinite? <==> straight == 0.0
    ensures c.Ratio? ==> c.value * straight == length
  {
    if straight == 0.0 then NotFinite else Ratio(length / straight)
  }

  function Elements(route: seq<string>): set<string>
  {
    set s | s in route
  }

  lemma ElementsSnoc(s: seq<string>, x: string)
    ensures Elements(s + [x]) == Elements(s) + {x}
  {
    assert forall y :: y in s + [x] <==> y in s || y == x;
  }

  function Reverse(s: seq<string>): (r: seq<string>)
    ensures |r| == |s|
    ensures forall i | 0 <= i < |s| :: r[i] == s[|s| - 1 - i]
  {
    if s == [] then [] else Reverse(s[1..]) + [s[0]]
  }

  /** The return trip of a linear bus is measured exactly as riding the
      reversed route forward: from the last stop back to position i equals the
      first n-1-i hops of the reversed route. */
  lemma {:induction false} ReturnTripIsReversedRoute(st: State, geo: GeoDistance, route: seq<string>, i: nat)
    requires RouteKnown(st, route) && i < |route|
    ensures RouteKnown(st, Reverse(route))
    ensures BackwardLength(st, geo, route, i) == ForwardLength(st, geo, Reverse(route), |route| - 1 - i)
    decreases |route| - i
  {
    var r := Reverse(route);
    var n := |route|;
    assert RouteKnown(st, r) by {
      forall s | s in r ensures s in st.stops {
        var k :| 0 <= k < n && r[k] == s;
        assert route[n - 1 - k] == s;
      }
    }
    if i < n - 1 {
      ReturnTripIsReversedRoute(st, geo, route, i + 1);
      assert r[n - 2 - i] == route[i + 1] && r[n - 1 - i] == route[i];
    }
  }

  /** With non-negative overrides and a non-negative geographic distance,
      the route length is non-negative, so the stored `int` is its floor. */
  lemma {:induction false} RouteLengthNonNegative(st: State, geo: GeoDistance, bus: Bus)
    requires RouteKnown(st, bus.stops)
    requires forall a, b | a in st.distances && b in st.distances[a] :: st.distances[a][b] >= 0
    requires forall x, y :: geo(x, y) >= 0.0
    ensures RouteLength(st, geo, bus) >= 0.0
    ensures TruncateToInt(RouteLength(st, geo, bus)) == RouteLength(st, geo, bus).Floor
  {
    var n := |bus.stops|;
    if n > 0 {
      var k := 0;
      while k < n - 1
        invariant 0 <= k <= n - 1
        invariant ForwardLength(st, geo, bus.stops, k) >= 0.0
      {
        k := k + 1;
      }
      var i := n - 1;
      while i > 0
        invariant 0 <= i <= n - 1
        invariant BackwardLength(st, geo, bus.stops, i) >= 0.0
      {
        i := i - 1;
      }
    }
  }

  /** Two stops X and Y with no overrides, one linear bus X-Y: the bus
      counts 3 stops, 2 unique, and twice the X-Y distance. */
  lemma TwoStopLinearBus(geo: GeoDistance, x: Coordinates, y: Coordinates)
    requires geo(x, y) == geo(y, x)
    ensures var st := State(map["X" := x, "Y" := y], map[], map[], map[]);
            var bus := Bus(["X", "Y"], false);
            && RouteKnown(st, bus.stops)
            && StopsOnRoute(bus) == 3
            && |Elements(bus.stops)| == 2
            && RouteLength(st, geo, bus) == 2.0 * geo(x, y)
  {
    var st := State(map["X" := x, "Y" := y], map[], map[], map[]);
    var bus := Bus(["X", "Y"], false);
    assert Elements(bus.stops) == {"X", "Y"};
    assert Distance(st, geo, "X", "Y") == geo(x, y);
    assert Distance(st, geo, "Y", "X") == geo(y, x);
    assert ForwardLength(st, geo, bus.stops, 1) == geo(x, y);
    assert BackwardLength(st, geo, bus.stops, 0) == geo(y, x);
  }

  /** Stops on the route: N for a circular bus, 2N-1 for a linear one. */
  function StopsOnRoute(bus: Bus): int
  {
    if |bus.stops| == 0 then 0
    else if bus.isCircular then |bus.stops|
    else 2 * |bus.stops| - 1
  }

  // ---------------------------------------------------------------- the answers

  /** The answer to a bus query: the default record for an unknown name,
      otherwise the bus's stop count, distinct stops, truncated road length
      and curvature. */
  function BusInfoOf(st: State, geo: GeoDistance, query: string): BusInformation
    requires WellFormed(st)
  {
    if query !in st.buses then NoBusInformation
    else
      var bus := st.buses[query];
      BusInformation(query, StopsOnRoute(bus), |Elements(bus.stops)|,
                     TruncateToInt(RouteLength(st, geo, bus)),
                     CurvatureOf(RouteLength(st, geo, bus), StraightRouteLength(st, geo, bus)))
  }

  /** The answer to a stop query: the default record for an unknown name,
      otherwise the name and the buses through it in ascending order. */
  ghost function StopInfoOf(st: State, query: string): StopInformation
  {
    if query !in st.stops then NoStopInformation
    else StopInformation(query, Ascending(if query in st.busesPassingStops then st.busesPassingStops[query] else {}))
  }

  /** A query names something known exactly when its answer carries a
      name: the empty name of the default record is how "not found" is
      told apart, which holds as long as no stop or bus is named "". */
  lemma AnswerNamedIffKnown(st: State, geo: GeoDistance, query: string)
    requires WellFormed(st) && query != ""
    ensures BusInfoOf(st, geo, query).nameBus != "" <==> query in st.buses
    ensures StopInfoOf(st, query).nameStop != "" <==> query in st.stops
  {
  }

  // ----------------------------------------------------------- the reverse index

  /** The reverse index after listing a bus at the stops of a route, one
      stop after another. */
  function WithBus(index: map<string, set<string>>, route: seq<string>, name: string): map<string, set<string>>
  {
    if route == [] then index
    else
      var w := WithBus(index, route[..|route| - 1], name);
      var s := route[|route| - 1];
      w[s := (if s in w then w[s] else {}) + {name}]
  }

  /** Adding a bus lists it at exactly the stops of its route: the keys
      are the old keys plus the route, every stop of the route gains the
      name, and nothing else changes or is removed. */
  lemma {:induction false} WithBusListsTheRoute(index: map<string, set<string>>, route: seq<string>, name: string)
    ensures forall s :: s in WithBus(index, route, name) <==> s in index || s in route
    ensures forall s | s in WithBus(index, route, name) ::
              WithBus(index, route, name)[s]
              == (if s in index then index[s] else {}) + (if s in route then {name} else {})
  {
    if route != [] {
      var front := route[..|route| - 1];
      WithBusListsTheRoute(index, front, name);
      assert forall s :: s in route <==> s in front || s == route[|route| - 1] by {
        assert route == front + [route[|route| - 1]];
      }
    }
  }

  /** The override table after `AddDistanceBetweenStop`: the row of `from`
      gains (and overwrites) exactly the given entries; an empty input changes
      nothing. */
  function MergeRow(d: DistanceTable, from: string, row: map<string, int>): DistanceTable
  {
    if row == map[] then d
    else d[from := (if from in d then d[from] else map[]) + row]
  }

  /** One more entry in the merged row is one more entry in the table. */
  lemma MergeRowStep(d: DistanceTable, from: string, done: map<string, int>, other: string, m: int)
    ensures var t := MergeRow(d, from, done);
            MergeRow(d, from, done[other := m])
            == t[from := (if from in t then t[from] else map[])[other := m]]
  {
    var before := if from in d then d[from] else map[];
    var grown := done[other := m];
    assert other in grown;
    if done != map[] {
      assert (before + done)[other := m] == before + grown;
    } else {
      assert before[other := m] == before + grown;
    }
  }

  lemma MergeRowKeepsWellFormed(st: State, from: string, row: map<string, int>)
    requires WellFormed(st) && from in st.stops && row.Keys <= st.stops.Keys
    ensures WellFormed(st.(distances := MergeRow(st.distances, from, row)))
  {
  }

  lemma WithBusKeepsWellFormed(st: State, name: string, b: Bus)
    requires WellFormed(st) && RouteKnown(st, b.stops)
    ensures WellFormed(st.(buses := st.buses[name := b],
                           busesPassingStops := WithBus(st.busesPassingStops, b.stops, name)))
  {
    var w := WithBus(st.busesPassingStops, b.stops, name);
    var buses := st.buses[name := b];
    WithBusListsTheRoute(st.busesPassingStops, b.stops, name);
    forall x, s | x in buses && s in buses[x].stops
      ensures s in st.stops && s in w && x in w[s]
    {
      if x != name {
        assert s in st.busesPassingStops && x in st.busesPassingStops[s];
      }
    }
    forall s | s in w
      ensures s in st.stops && w[s] != {} && w[s] <= buses.Keys
    {
      if s in st.busesPassingStops {
        assert st.busesPassingStops[s] <= w[s];
      }
    }
  }

  /** Re-adding a bus keeps it listed at the stops of its old route. */
  lemma ReAddedBusStaysListed(index: map<string, set<string>>, route: seq<string>, name: string, s: string)
    requires s in index && name in index[s]
    ensures s in WithBus(index, route, name) && name in WithBus(index, route, name)[s]
  {
    WithBusListsTheRoute(index, route, name);
  }

  // ---------------------------------------------------------------- the class

  class TransportCatalogue {
    var stops: map<string, Coordinates>
    var distances: DistanceTable
    var buses: map<string, Bus>
    var busesPassingStops: map<string, set<string>>

    function Snapshot(): State
      reads this
    {
      State(stops, distances, buses, busesPassingStops)
    }

    predicate Valid()
      reads this
    {
      WellFormed(Snapshot())
    }

    constructor ()
      ensures Valid()
      ensures stops == map[] && distances == map[] && buses == map[] && busesPassingStops == map[]
    {
      stops, distances, buses, busesPassingStops := map[], map[], map[], map[];
    }

    /** Records a stop; an existing name gets the new coordinates. */
    method AddStop(info: StopInputInfo)
      requires Valid()
      modifies this
      ensures Valid()
      ensures stops == old(stops)[info.nameStop := info.coordinates]
      ensures distances == old(distances) && buses == old(buses)
      ensures busesPassingStops == old(busesPassingStops)
    {
      stops := stops[info.nameStop := info.coordinates];
    }

    /** Records the directed overrides name -> other of one stop. The stop
        and every other stop must already exist (the source dereferences
        their map entries). */
    method AddDistanceBetweenStop(info: StopInputInfo)
      requires Valid()
      requires info.nameStop in stops && info.distanceToOtherStops.Keys <= stops.Keys
      modifies this
      ensures Valid()
      ensures distances == MergeRow(old(distances), info.nameStop, info.distanceToOtherStops)
      ensures stops == old(stops) && buses == old(buses)
      ensures busesPassingStops == old(busesPassingStops)
    {
      var row := info.distanceToOtherStops;
      var name := info.nameStop;
      if row != map[] {
        var pending := row.Keys;
        ghost var done: map<string, int> := map[];
        while pending != {}
          invariant pending <= row.Keys
          invariant done.Keys == row.Keys - pending
          invariant forall o | o in done :: done[o] == row[o]
          invariant distances == MergeRow(old(distances), name, done)
          invariant stops == old(stops) && buses == old(buses)
          invariant busesPassingStops == old(busesPassingStops)
          decreases pending
        {
          var other :| other in pending;
          var inner := if name in distances then distances[name] else map[];
          MergeRowStep(old(distances), name, done, other, row[other]);
          distances := distances[name := inner[other := row[other]]];
          done := done[other := row[other]];
          pending := pending - {other};
        }
        assert done == row;
      }
      MergeRowKeepsWellFormed(old(Snapshot()), name, row);
    }

    /** Stores a bus and lists it at every stop of its route. Every listed
        stop must already exist. */
    method AddBus(info: BusInputInfo)
      requires Valid()
      requires RouteKnown(Snapshot(), info.stops)
      modifies this
      ensures Valid()
      ensures buses == old(buses)[info.nameBus := Bus(info.stops, info.isCircular)]
      ensures busesPassingStops == WithBus(old(busesPassingStops), info.stops, info.nameBus)
      ensures stops == old(stops) && distances == old(distances)
    {
      ghost var st := Snapshot();
      buses := buses[info.nameBus := Bus(info.stops, info.isCircular)];
      ListAtStops(info.stops, info.nameBus);
      WithBusKeepsWellFormed(st, info.nameBus, Bus(info.stops, info.isCircular));
    }

    /** The second loop of `AddBus`: the bus name joins the index entry of
        every stop of the route. */
    method ListAtStops(route: seq<string>, name: string)
      modifies this
      ensures busesPassingStops == WithBus(old(busesPassingStops), route, name)
      ensures stops == old(stops) && distances == old(distances) && buses == old(buses)
    {
      assert route[..0] == [];
      var i := 0;
      while i < |route|
        invariant 0 <= i <= |route|
        invariant busesPassingStops == WithBus(old(busesPassingStops), route[..i], name)
        invariant stops == old(stops) && distances == old(distances) && buses == old(buses)
      {
        var s := route[i];
        var listed := if s in busesPassingStops then busesPassingStops[s] else {};
        busesPassingStops := busesPassingStops[s := listed + {name}];
        assert route[..i + 1][..i] == route[..i];
        i := i + 1;
      }
      assert route[..i] == route;
    }

    /** The forward pass over the stops of a bus: the distinct stops, the
        straight-line length and the road length of its hops. */
    method ForwardPass(s: seq<string>, geo: GeoDistance)
      returns (unique: set<string>, straight: real, length: real)
      requires s != [] && RouteKnown(Snapshot(), s)
      ensures unique == Elements(s)
      ensures straight == StraightLength(Snapshot(), geo, s, |s| - 1)
      ensures length == ForwardLength(Snapshot(), geo, s, |s| - 1)
    {
      ghost var st := Snapshot();
      unique, straight, length := {}, 0.0, 0.0;
      assert s[..0] == [];
      var i := 0;
      while i < |s| - 1
        invariant 0 <= i <= |s| - 1
        invariant unique == Elements(s[..i])
        invariant straight == StraightLength(st, geo, s, i)
        invariant length == ForwardLength(st, geo, s, i)
      {
        ElementsSnoc(s[..i], s[i]);
        unique := unique + {s[i]};
        straight := straight + geo(stops[s[i]], stops[s[i + 1]]);
        var hop := CalculateDistance(s[i], s[i + 1], geo);
        length := length + hop;
        assert s[..i + 1] == s[..i] + [s[i]];
        i := i + 1;
      }
      ElementsSnoc(s[..i], s[i]);
      unique := unique + {s[i]};
      assert s[..i] + [s[i]] == s;
    }

    /** The way back of a linear bus, from its last stop to its first. */
    method ReturnTrip(s: seq<string>, geo: GeoDistance) returns (length: real)
      requires s != [] && RouteKnown(Snapshot(), s)
      ensures length == BackwardLength(Snapshot(), geo, s, 0)
    {
      length := 0.0;
      var i := |s| - 1;
      while i > 0
        invariant 0 <= i <= |s| - 1
        invariant length == BackwardLength(Snapshot(), geo, s, i)
      {
        var hop := CalculateDistance(s[i], s[i - 1], geo);
        length := length + hop;
        i := i - 1;
      }
    }

    /** `CalculateBusInformation`: the stop count, the distinct stops, the
        road length and the curvature of a bus. */
    method CalculateBusInformation(bus: Bus, geo: GeoDistance)
      returns (stopsOnRoute: int, uniqueStops: int, realRouteLength: real, curvature: Curvature)
      requires RouteKnown(Snapshot(), bus.stops)
      ensures stopsOnRoute == StopsOnRoute(bus)
      ensures uniqueStops == |Elements(bus.stops)|
      ensures realRouteLength == RouteLength(Snapshot(), geo, bus)
      ensures curvature == CurvatureOf(realRouteLength, StraightRouteLength(Snapshot(), geo, bus))
    {
      var unique: set<string> := {};
      stopsOnRoute := 0;
      var straight := 0.0;
      realRouteLength := 0.0;
      if bus.stops != [] {
        unique, straight, realRouteLength := ForwardPass(bus.stops, geo);
        stopsOnRoute := |bus.stops|;
        if !bus.isCircular {
          straight := straight * 2.0;
          stopsOnRoute := stopsOnRoute * 2 - 1;
          var back := ReturnTrip(bus.stops, geo);
          realRouteLength := realRouteLength + back;
        }
      } else {
        assert Elements(bus.stops) == {};
      }
      uniqueStops := |unique|;
      curvature := CurvatureOf(realRouteLength, straight);
    }

    /** `CalculateDistance`: the override from -> to, else the override
        to -> from, else the geographic distance. */
    function CalculateDistance(from: string, to: string, geo: GeoDistance): (r: real)
      reads this
      requires from in stops && to in stops
      ensures r == Distance(Snapshot(), geo, from, to)
    {
      if from in distances && to in distances[from] then distances[from][to] as real
      else if to in distances && from in distances[to] then distances[to][from] as real
      else geo(stops[from], stops[to])
    }

    /** `FindBusInformation`: an unknown name gives the default record
        (empty name, zero counts); a known bus gives its statistics, the
        length truncated to an integer. */
    method FindBusInformation(query: string, geo: GeoDistance) returns (r: BusInformation)
      requires Valid()
      ensures query !in buses ==> r == NoBusInformation
      ensures query in buses ==>
                var bus := buses[query];
                && r.nameBus == query
                && r.stopsOnRoute == StopsOnRoute(bus)
                && r.uniqueStops == |Elements(bus.stops)|
                && r.routeLength == TruncateToInt(RouteLength(Snapshot(), geo, bus))
                && r.curvature == CurvatureOf(RouteLength(Snapshot(), geo, bus), StraightRouteLength(Snapshot(), geo, bus))
      ensures r == BusInfoOf(Snapshot(), geo, query)
    {
      r := NoBusInformation;
      if query in buses {
        var bus := buses[query];
        var count, unique, length, curvature := CalculateBusInformation(bus, geo);
        r := BusInformation(query, count, unique, TruncateToInt(length), curvature);
      }
    }

    /** `FindStopInformation`: an unknown name gives the default record; a
        known stop gives its name and the buses through it in name order
        (none when it is not in the reverse index). */
    method FindStopInformation(query: string) returns (r: StopInformation)
      ensures query !in stops ==> r == NoStopInformation
      ensures query in stops ==>
                && r.nameStop == query
                && StrictlySorted(r.buses)
                && forall b :: b in r.buses <==> query in busesPassingStops && b in busesPassingStops[query]
      ensures r == StopInfoOf(Snapshot(), query)
    {
      var listed: seq<string> := [];
      if query in stops {
        if query in busesPassingStops {
          var all := busesPassingStops[query];
          var pending := all;
          while pending != {}
            invariant pending <= all
            invariant StrictlySorted(listed)
            invariant forall b :: b in listed <==> b in all - pending
            decreases pending
          {
            var b :| b in pending;
            listed := Insert(listed, b);
            pending := pending - {b};
          }
        }
        r := StopInformation(query, listed);
        SortedUnique(listed, StopInfoOf(Snapshot(), query).buses);
      } else {
        r := NoStopInformation;
      }
    }

    /** The stops served by at least one bus, in name order. */
    method FindAllWorkingStops() returns (r: seq<string>)
      ensures StrictlySorted(r)
      ensures forall s :: s in r <==> IsWorkingStop(Snapshot(), s)
    {
      r := [];
      var pending := stops.Keys;
      while pending != {}
        invariant pending <= stops.Keys
        invariant StrictlySorted(r)
        invariant forall s :: s in r <==> s in stops.Keys - pending && IsWorkingStop(Snapshot(), s)
        decreases pending
      {
        var s :| s in pending;
        var info := FindStopInformation(s);
        if info.buses != [] {
          assert info.buses[0] in info.buses;
          r := Insert(r, s);
        }
        pending := pending - {s};
      }
    }

    /** The buses with at least one stop, in name order. */
    method FindAllWorkingBuses() returns (r: seq<string>)
      ensures StrictlySorted(r)
      ensures forall b :: b in r <==> IsWorkingBus(Snapshot(), b)
    {
      r := [];
      var pending := buses.Keys;
      while pending != {}
        invariant pending <= buses.Keys
        invariant StrictlySorted(r)
        invariant forall b :: b in r <==> b in buses.Keys - pending && IsWorkingBus(Snapshot(), b)
        decreases pending
      {
        var b :| b in pending;
        if buses[b].stops != [] {
          r := Insert(r, b);
        }
        pending := pending - {b};
      }
    }
  }

  /** In a well-formed catalogue every stop of a working bus is a working
      stop (so it received a graph vertex). */
  lemma RouteStopsAreWorking(st: State, b: string, s: string)
    requires WellFormed(st) && b in st.buses && s in st.buses[b].stops
    ensures IsWorkingStop(st, s)
  {
  }
}
