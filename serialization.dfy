/** Saving and restoring the catalogue. The saved message numbers the stops
    0, 1, ... in the order the stop table is iterated, and refers to stops
    by number in the distance rows and the bus routes; restoring adds all
    stops, then all distances, then all buses, translating the numbers back
    to names. The iteration order of the source's hash tables is not fixed:
    it is a parameter (`Orders`), and the round trip holds for every order. */
module Serialization {
  import opened Wrappers
  import opened Domain
  import opened Json
  import opened Catalogue
  import opened TransportRouting
  import RouterSpec

  /** A distance row entry: the number of the destination stop, metres. */
  datatype ProtoDistance = ProtoDistance(stopToId: nat, distance: int)

  /** A stop message: name, number, coordinates and outgoing distances. */
  datatype ProtoStop = ProtoStop(name: string, id: nat, coordinates: Coordinates,
                                 distanceToStops: seq<ProtoDistance>)

  /** A bus message: name, circular flag and the numbers of its stops. */
  datatype ProtoBus = ProtoBus(name: string, isCircular: bool, stops: seq<nat>)

  datatype ProtoCatalogue = ProtoCatalogue(stops: seq<ProtoStop>, buses: seq<ProtoBus>)

  /** Exactly the elements of the set, as many entries as elements (so
      each one once): the order in which a hash table holding these keys is
      iterated. */
  ghost predicate Enumerates<K(!new)>(order: seq<K>, keys: set<K>)
  {
    |order| == |keys| && forall x :: x in order <==> x in keys
  }

  /** A sequence has at most as many distinct elements as entries. */
  lemma {:induction false} ElementsBound<K(!new)>(s: seq<K>)
    ensures |set x | x in s| <= |s|
    decreases |s|
  {
    if s != [] {
      var front := Front(s);
      assert s == front + [Last(s)];
      assert (set x | x in s) == (set x | x in front) + {Last(s)};
      ElementsBound(front);
    } else {
      assert (set x | x in s) == {};
    }
  }

  /** An enumeration repeats no key. */
  lemma {:induction false} EnumerationIsDistinct<K(!new)>(order: seq<K>, keys: set<K>)
    requires Enumerates(order, keys)
    ensures forall a, b | 0 <= a < b < |order| :: order[a] != order[b]
    decreases |order|
  {
    if order != [] {
      var front := Front(order);
      var x := Last(order);
      assert order == front + [x];
      var e := set y | y in front;
      assert keys == e + {x};
      ElementsBound(front);
      assert x !in e;
      assert Enumerates(front, e);
      EnumerationIsDistinct(front, e);
      forall a, b | 0 <= a < b < |order| ensures order[a] != order[b] {
        if b < |front| {
          assert order[a] == front[a] && order[b] == front[b];
        } else {
          assert order[a] == front[a] && front[a] in e;
        }
      }
    }
  }

  /** The iteration orders of the stop table, the bus table and every
      distance row. */
  datatype Orders = Orders(stops: seq<string>, buses: seq<string>, rows: map<string, seq<string>>)

  ghost predicate OrdersOf(st: State, o: Orders)
  {
    && Enumerates(o.stops, st.stops.Keys)
    && Enumerates(o.buses, st.buses.Keys)
    && (forall a | a in st.distances :: a in o.rows && Enumerates(o.rows[a], st.distances[a].Keys))
  }

  // ------------------------------------------------------------ saving

  /** The entries of one distance row, in the given order. */
  function RowRecords(ids: map<string, nat>, row: map<string, int>, order: seq<string>): (r: seq<ProtoDistance>)
    requires forall k | 0 <= k < |order| :: order[k] in ids && order[k] in row
    ensures |r| == |order|
    ensures forall k | 0 <= k < |order| :: r[k] == ProtoDistance(ids[order[k]], row[order[k]])
  {
    seq(|order|, k requires 0 <= k < |order| => ProtoDistance(ids[order[k]], row[order[k]]))
  }

  /** What saving needs of the numbering: every stop, every destination of
      a row and every stop of a route has a number. */
  predicate Numbered(st: State, o: Orders, ids: map<string, nat>)
  {
    && (forall s | s in st.stops :: s in ids)
    && (forall a | a in st.distances ::
          a in o.rows && forall k | 0 <= k < |o.rows[a]| :: o.rows[a][k] in ids && o.rows[a][k] in st.distances[a])
    && (forall b | b in st.buses :: forall s | s in st.buses[b].stops :: s in ids)
  }

  /** The message of one stop. */
  function StopRecord(st: State, o: Orders, ids: map<string, nat>, name: string): ProtoStop
    requires Numbered(st, o, ids) && name in st.stops
  {
    ProtoStop(name, ids[name], st.stops[name],
              if name in st.distances then RowRecords(ids, st.distances[name], o.rows[name]) else [])
  }

  /** The message of one bus. */
  function BusRecord(st: State, ids: map<string, nat>, name: string): (r: ProtoBus)
    requires name in st.buses && forall s | s in st.buses[name].stops :: s in ids
    ensures |r.stops| == |st.buses[name].stops|
    ensures forall j | 0 <= j < |r.stops| :: r.stops[j] == ids[st.buses[name].stops[j]]
  {
    var route := st.buses[name].stops;
    ProtoBus(name, st.buses[name].isCircular, seq(|route|, j requires 0 <= j < |route| => ids[route[j]]))
  }

  function StopRecords(st: State, o: Orders, ids: map<string, nat>, names: seq<string>): (r: seq<ProtoStop>)
    requires Numbered(st, o, ids) && forall k | 0 <= k < |names| :: names[k] in st.stops
    ensures |r| == |names| && forall k | 0 <= k < |names| :: r[k] == StopRecord(st, o, ids, names[k])
  {
    seq(|names|, k requires 0 <= k < |names| => StopRecord(st, o, ids, names[k]))
  }

  function BusRecords(st: State, o: Orders, ids: map<string, nat>, names: seq<string>): (r: seq<ProtoBus>)
    requires Numbered(st, o, ids) && forall k | 0 <= k < |names| :: names[k] in st.buses
    ensures |r| == |names| && forall k | 0 <= k < |names| :: r[k] == BusRecord(st, ids, names[k])
  {
    seq(|names|, k requires 0 <= k < |names| => BusRecord(st, ids, names[k]))
  }

  /** Numbering an enumeration numbers exactly its keys, each by its
      position, and no entry occurs before its position. */
  lemma EnumerationNumbering(order: seq<string>, keys: set<string>)
    requires Enumerates(order, keys)
    ensures forall x :: x in Numbering(order) <==> x in keys
    ensures forall k | 0 <= k < |order| :: Numbering(order)[order[k]] == k
    ensures forall k | 0 <= k < |order| :: order[k] !in order[..k]
  {
    EnumerationIsDistinct(order, keys);
    assert RouterSpec.Distinct(order);
    NumberingIsPositions(order);
    forall k | 0 <= k < |order| ensures order[k] !in order[..k] {
      forall j | 0 <= j < k ensures order[..k][j] != order[k] {
        assert order[..k][j] == order[j];
      }
    }
  }

  /** The numbering of the stops: their positions in the iteration order. */
  lemma OrderNumbersStops(st: State, o: Orders)
    requires WellFormed(st) && OrdersOf(st, o)
    ensures Numbered(st, o, Numbering(o.stops))
    ensures forall k | 0 <= k < |o.stops| :: Numbering(o.stops)[o.stops[k]] == k
  {
    EnumerationNumbering(o.stops, st.stops.Keys);
    var ids := Numbering(o.stops);
    forall a | a in st.distances
      ensures a in o.rows && forall k | 0 <= k < |o.rows[a]| :: o.rows[a][k] in ids && o.rows[a][k] in st.distances[a]
    {
      assert Enumerates(o.rows[a], st.distances[a].Keys);
      forall k | 0 <= k < |o.rows[a]| ensures o.rows[a][k] in ids && o.rows[a][k] in st.distances[a] {
        assert o.rows[a][k] in st.distances[a].Keys;
      }
    }
    forall b | b in st.buses ensures forall s | s in st.buses[b].stops :: s in ids {
      forall s | s in st.buses[b].stops ensures s in ids {
        assert s in st.stops;
      }
    }
  }

  /** The message `CreateProtoCatalogue` builds. */
  function ProtoCatalogueOf(st: State, o: Orders): (p: ProtoCatalogue)
    requires WellFormed(st) && OrdersOf(st, o)
  {
    OrderNumbersStops(st, o);
    var ids := Numbering(o.stops);
    ProtoCatalogue(StopRecords(st, o, ids, o.stops), BusRecords(st, o, ids, o.buses))
  }

  /** The stops are numbered 0, 1, ... in list order, once each, and every
      row and route refers to stops by these numbers. */
  lemma SavedStopsAreNumbered(st: State, o: Orders)
    requires WellFormed(st) && OrdersOf(st, o)
    ensures var p := ProtoCatalogueOf(st, o);
            && |p.stops| == |st.stops|
            && (forall k | 0 <= k < |p.stops| :: p.stops[k].id == k && p.stops[k].name in st.stops)
            && (forall a, b | 0 <= a < b < |p.stops| :: p.stops[a].name != p.stops[b].name)
            && (forall k, j | 0 <= k < |p.buses| && 0 <= j < |p.buses[k].stops| ::
                  p.buses[k].stops[j] < |p.stops|
                  && p.stops[p.buses[k].stops[j]].name == st.buses[p.buses[k].name].stops[j])
  {
    SavedStopsShape(st, o);
    EnumerationNumbering(o.stops, st.stops.Keys);
    var ids := Numbering(o.stops);
    var p := ProtoCatalogueOf(st, o);
    assert |st.stops| == |st.stops.Keys|;
    forall a, b | 0 <= a < b < |p.stops| ensures p.stops[a].name != p.stops[b].name {
      assert o.stops[..b][a] == o.stops[a];
    }
    forall k, j | 0 <= k < |p.buses| && 0 <= j < |p.buses[k].stops|
      ensures p.buses[k].stops[j] < |p.stops| && p.stops[p.buses[k].stops[j]].name == st.buses[p.buses[k].name].stops[j]
    {
      SavedRouteEntry(st, o, k, j);
    }
  }

  /** The saved stop messages, entry by entry: the k-th stop of the
      iteration order, under number k, with its coordinates. */
  lemma SavedStopsShape(st: State, o: Orders)
    requires WellFormed(st) && OrdersOf(st, o)
    ensures var recs := ProtoCatalogueOf(st, o).stops;
            && |recs| == |o.stops|
            && forall k | 0 <= k < |recs| ::
                 && recs[k].name == o.stops[k] && recs[k].id == k && o.stops[k] in st.stops
                 && recs[k].coordinates == st.stops[o.stops[k]]
  {
    OrderNumbersStops(st, o);
    var ids := Numbering(o.stops);
    var recs := ProtoCatalogueOf(st, o).stops;
    forall k | 0 <= k < |recs|
      ensures && recs[k].name == o.stops[k] && recs[k].id == k && o.stops[k] in st.stops
              && recs[k].coordinates == st.stops[o.stops[k]]
    {
      assert o.stops[k] in st.stops.Keys;
      assert recs[k] == StopRecord(st, o, ids, o.stops[k]);
    }
  }

  /** Entry j of the k-th saved route is the number of the route's j-th
      stop, and that number's message carries the stop's name. */
  lemma SavedRouteEntry(st: State, o: Orders, k: nat, j: nat)
    requires WellFormed(st) && OrdersOf(st, o)
    requires k < |ProtoCatalogueOf(st, o).buses| && j < |ProtoCatalogueOf(st, o).buses[k].stops|
    ensures var p := ProtoCatalogueOf(st, o);
            && p.buses[k].name in st.buses && j < |st.buses[p.buses[k].name].stops|
            && p.buses[k].stops[j] < |p.stops|
            && p.stops[p.buses[k].stops[j]].name == st.buses[p.buses[k].name].stops[j]
  {
    SavedStopsShape(st, o);
    EnumerationNumbering(o.stops, st.stops.Keys);
    var ids := Numbering(o.stops);
    var p := ProtoCatalogueOf(st, o);
    var name := o.buses[k];
    assert name in st.buses.Keys;
    assert p.buses[k] == BusRecord(st, ids, name);
    var x := st.buses[name].stops[j];
    assert x in st.buses[name].stops;
    assert x in st.stops.Keys;
    var m :| 0 <= m < |o.stops| && o.stops[m] == x;
    assert p.buses[k].stops[j] == m;
  }

  // ------------------------------------------------------------ restoring

  /** `id_stops`: number -> name; a number given twice keeps the later name. */
  function IdNames(stops: seq<ProtoStop>): map<nat, string>
    decreases |stops|
  {
    if stops == [] then map[] else IdNames(Front(stops))[Last(stops).id := Last(stops).name]
  }

  /** The first pass: every stop added with its coordinates. */
  function WithStops(st: State, stops: seq<ProtoStop>): State
    decreases |stops|
  {
    if stops == [] then st
    else
      var t := WithStops(st, Front(stops));
      t.(stops := t.stops[Last(stops).name := Last(stops).coordinates])
  }

  /** A distance row with destinations named; a number that names no stop
      throws (`at`). Entries with the same destination keep the later
      distance. */
  function RowOf(names: map<nat, string>, ds: seq<ProtoDistance>): Option<map<string, int>>
    decreases |ds|
  {
    if ds == [] then Some(map[])
    else
      match RowOf(names, Front(ds))
      case None => None
      case Some(row) =>
        if Last(ds).stopToId in names then Some(row[names[Last(ds).stopToId] := Last(ds).distance]) else None
  }

  /** The second pass: the distance row of every stop merged in. */
  function WithDistances(st: State, names: map<nat, string>, stops: seq<ProtoStop>): Option<State>
    decreases |stops|
  {
    if stops == [] then Some(st)
    else
      match WithDistances(st, names, Front(stops))
      case None => None
      case Some(t) =>
        match RowOf(names, Last(stops).distanceToStops)
        case None => None
        case Some(row) => Some(t.(distances := MergeRow(t.distances, Last(stops).name, row)))
  }

  /** A route with its stops named; a number that names no stop throws. */
  function RouteOf(names: map<nat, string>, ids: seq<nat>): (r: Option<seq<string>>)
    ensures r.Some? <==> forall j | 0 <= j < |ids| :: ids[j] in names
    ensures r.Some? ==> |r.value| == |ids| && forall j | 0 <= j < |ids| :: r.value[j] == names[ids[j]]
  {
    if forall j | 0 <= j < |ids| :: ids[j] in names
    then Some(seq(|ids|, j requires 0 <= j < |ids| => names[ids[j]]))
    else None
  }

  /** The third pass: every bus added, as `AddBus` adds it. */
  function WithBuses(st: State, names: map<nat, string>, buses: seq<ProtoBus>): Option<State>
    decreases |buses|
  {
    if buses == [] then Some(st)
    else
      match WithBuses(st, names, Front(buses))
      case None => None
      case Some(t) =>
        match RouteOf(names, Last(buses).stops)
        case None => None
        case Some(route) =>
          var name := Last(buses).name;
          Some(t.(buses := t.buses[name := Bus(route, Last(buses).isCircular)],
                  busesPassingStops := WithBus(t.busesPassingStops, route, name)))
  }

  const Empty := State(map[], map[], map[], map[])

  /** The catalogue `DeserializeCatalogue` restores, or None when a number
      names no stop. */
  function Restored(p: ProtoCatalogue): Option<State>
  {
    match WithDistances(WithStops(Empty, p.stops), IdNames(p.stops), p.stops)
    case None => None
    case Some(t) => WithBuses(t, IdNames(p.stops), p.buses)
  }

  // ------------------------------------------------------------ the round trip

  /** Numbered stops listed in number order are named back by their
      numbers. */
  lemma {:induction false} IdNamesOfNumbered(stops: seq<ProtoStop>)
    requires forall k | 0 <= k < |stops| :: stops[k].id == k
    ensures forall k: nat :: k in IdNames(stops) <==> k < |stops|
    ensures forall k | 0 <= k < |stops| :: IdNames(stops)[k] == stops[k].name
    decreases |stops|
  {
    if stops != [] {
      var front := Front(stops);
      forall k | 0 <= k < |front| ensures front[k].id == k {
        assert front[k] == stops[k];
      }
      IdNamesOfNumbered(front);
      assert IdNames(stops) == IdNames(front)[Last(stops).id := Last(stops).name];
      forall k | 0 <= k < |front| ensures IdNames(stops)[k] == stops[k].name {
        assert front[k] == stops[k];
      }
    }
  }

  /** Extending a listing by one key extends the map it selects by that
      key. */
  lemma SelectSnoc<V>(m: map<string, V>, front: seq<string>, x: string)
    ensures x in m ==> (map a | a in front && a in m :: m[a])[x := m[x]] == map a | a in front + [x] && a in m :: m[a]
    ensures x !in m ==> (map a | a in front && a in m :: m[a]) == map a | a in front + [x] && a in m :: m[a]
  {
  }

  /** Selecting every listed key of a map whose keys are all listed gives
      the map. */
  lemma SelectAll<V>(m: map<string, V>, order: seq<string>)
    requires forall x | x in m :: x in order
    ensures (map a | a in order && a in m :: m[a]) == m
  {
  }

  /** A map rebuilt over an enumeration of its keys is the map. */
  lemma EnumeratedMap<V>(m: map<string, V>, order: seq<string>)
    requires Enumerates(order, m.Keys)
    ensures (map s | s in order :: m[s]) == m
  {
    var r := map s | s in order :: m[s];
    assert r.Keys == m.Keys;
    forall s | s in m ensures r[s] == m[s] {
    }
  }

  /** The first pass over stop messages that carry the coordinates of a
      table restores that table on the listed names. */
  lemma {:induction false} WithStopsRestores(table: map<string, Coordinates>, recs: seq<ProtoStop>, order: seq<string>)
    requires |recs| == |order|
    requires forall k | 0 <= k < |order| ::
               order[k] in table && recs[k].name == order[k] && recs[k].coordinates == table[order[k]]
    ensures WithStops(Empty, recs) == Empty.(stops := map s | s in order :: table[s])
    decreases |order|
  {
    if order != [] {
      var front := Front(order);
      var x := Last(order);
      WithStopsRestores(table, Front(recs), front);
      assert order == front + [x];
      var prev := map s | s in front :: table[s];
      var cur := map s | s in order :: table[s];
      assert prev[x := table[x]] == cur;
    }
  }

  /** Translating a saved row back gives the row: each destination's
      number names it again. */
  lemma {:induction false} RowOfRestores(names: map<nat, string>, ids: map<string, nat>, row: map<string, int>,
                                         order: seq<string>)
    requires forall k | 0 <= k < |order| :: order[k] in ids && order[k] in row
    requires forall x | x in ids :: ids[x] in names && names[ids[x]] == x
    ensures RowOf(names, RowRecords(ids, row, order)) == Some(map x | x in order :: row[x])
    decreases |order|
  {
    var recs := RowRecords(ids, row, order);
    if order != [] {
      var front := Front(order);
      var x := Last(order);
      assert Front(recs) == RowRecords(ids, row, front);
      RowOfRestores(names, ids, row, front);
      assert order == front + [x];
      var prev := map y | y in front :: row[y];
      var cur := map y | y in order :: row[y];
      assert prev[x := row[x]] == cur;
    }
  }

  /** The rows a stop message carries name the rows of the table. */
  predicate RowsRestore(table: DistanceTable, names: map<nat, string>, recs: seq<ProtoStop>, order: seq<string>)
  {
    && |recs| == |order|
    && forall k | 0 <= k < |order| ::
         && recs[k].name == order[k] && order[k] !in order[..k]
         && RowOf(names, recs[k].distanceToStops) == Some(if order[k] in table then table[order[k]] else map[])
         && (order[k] in table ==> table[order[k]] != map[])
  }

  /** The second pass over such stop messages restores the table on the
      listed names. */
  lemma {:induction false} WithDistancesRestores(table: DistanceTable, names: map<nat, string>, base: State,
                                                 recs: seq<ProtoStop>, order: seq<string>)
    requires base.distances == map[] && RowsRestore(table, names, recs, order)
    ensures WithDistances(base, names, recs)
            == Some(base.(distances := map a | a in order && a in table :: table[a]))
    decreases |order|
  {
    if order != [] {
      var front := Front(order);
      var x := Last(order);
      var k := |order| - 1;
      assert recs[k] == Last(recs) && order[k] == x && order[..k] == front;
      assert x !in front;
      assert RowsRestore(table, names, Front(recs), front) by {
        forall j | 0 <= j < |front|
          ensures && Front(recs)[j].name == front[j] && front[j] !in front[..j]
                  && RowOf(names, Front(recs)[j].distanceToStops)
                     == Some(if front[j] in table then table[front[j]] else map[])
                  && (front[j] in table ==> table[front[j]] != map[])
        {
          assert Front(recs)[j] == recs[j] && front[j] == order[j] && front[..j] == order[..j];
        }
      }
      WithDistancesRestores(table, names, base, Front(recs), front);
      WithDistancesStep(table, names, base, recs, order);
    }
  }

  /** One more stop message extends the restored table by its row. */
  lemma WithDistancesStep(table: DistanceTable, names: map<nat, string>, base: State,
                          recs: seq<ProtoStop>, order: seq<string>)
    requires |recs| == |order| && order != [] && Last(recs).name == Last(order) && Last(order) !in Front(order)
    requires WithDistances(base, names, Front(recs))
             == Some(base.(distances := map a | a in Front(order) && a in table :: table[a]))
    requires RowOf(names, Last(recs).distanceToStops)
             == Some(if Last(order) in table then table[Last(order)] else map[])
    requires Last(order) in table ==> table[Last(order)] != map[]
    ensures WithDistances(base, names, recs)
            == Some(base.(distances := map a | a in order && a in table :: table[a]))
  {
    var front := Front(order);
    var x := Last(order);
    var prev := map a | a in front && a in table :: table[a];
    var row := if x in table then table[x] else map[];
    assert WithDistances(base, names, recs).value.distances == MergeRow(prev, x, row);
    assert order == front + [x];
    SelectSnoc(table, front, x);
    if x in table {
      assert x !in prev;
      EmptyUnion(table[x]);
    }
  }

  /** Merging a row into no row gives the row. */
  lemma EmptyUnion(row: map<string, int>)
    ensures map[] + row == row
  {
  }

  /** The bus messages carry the routes of a bus table. */
  predicate RoutesRestore(buses: map<string, Bus>, names: map<nat, string>, recs: seq<ProtoBus>, order: seq<string>)
  {
    && |recs| == |order|
    && forall k | 0 <= k < |order| ::
         && order[k] in buses && recs[k].name == order[k] && recs[k].isCircular == buses[order[k]].isCircular
         && RouteOf(names, recs[k].stops) == Some(buses[order[k]].stops)
  }

  /** The third pass over such bus messages restores the bus table on the
      listed names, and touches neither stops nor distances. */
  lemma {:induction false} WithBusesRestores(buses: map<string, Bus>, names: map<nat, string>, base: State,
                                             recs: seq<ProtoBus>, order: seq<string>)
    requires base.buses == map[] && RoutesRestore(buses, names, recs, order)
    ensures var r := WithBuses(base, names, recs);
            && r.Some?
            && r.value.stops == base.stops && r.value.distances == base.distances
            && r.value.buses == map b | b in order && b in buses :: buses[b]
    decreases |order|
  {
    if order != [] {
      var front := Front(order);
      var x := Last(order);
      var k := |order| - 1;
      assert recs[k] == Last(recs) && order[k] == x;
      assert RoutesRestore(buses, names, Front(recs), front) by {
        forall j | 0 <= j < |front|
          ensures && front[j] in buses && Front(recs)[j].name == front[j]
                  && Front(recs)[j].isCircular == buses[front[j]].isCircular
                  && RouteOf(names, Front(recs)[j].stops) == Some(buses[front[j]].stops)
        {
          assert Front(recs)[j] == recs[j] && front[j] == order[j];
        }
      }
      WithBusesRestores(buses, names, base, Front(recs), front);
      WithBusesStep(buses, names, base, recs, order);
    }
  }

  /** One more bus message extends the restored bus table by its bus. */
  lemma WithBusesStep(buses: map<string, Bus>, names: map<nat, string>, base: State,
                      recs: seq<ProtoBus>, order: seq<string>)
    requires |recs| == |order| && order != [] && Last(order) in buses && Last(recs).name == Last(order)
    requires Last(recs).isCircular == buses[Last(order)].isCircular
    requires RouteOf(names, Last(recs).stops) == Some(buses[Last(order)].stops)
    requires var r := WithBuses(base, names, Front(recs));
             && r.Some?
             && r.value.stops == base.stops && r.value.distances == base.distances
             && r.value.buses == map b | b in Front(order) && b in buses :: buses[b]
    ensures var r := WithBuses(base, names, recs);
            && r.Some?
            && r.value.stops == base.stops && r.value.distances == base.distances
            && r.value.buses == map b | b in order && b in buses :: buses[b]
  {
    var front := Front(order);
    var x := Last(order);
    var t := WithBuses(base, names, Front(recs)).value;
    assert WithBuses(base, names, recs).value.buses == t.buses[x := buses[x]];
    assert order == front + [x];
    SelectSnoc(buses, front, x);
  }

  /** The row a stop message carries names back the stop's distance row. */
  lemma StopRowRestores(st: State, o: Orders, ids: map<string, nat>, names: map<nat, string>, x: string)
    requires Numbered(st, o, ids) && x in st.stops
    requires x in st.distances ==> Enumerates(o.rows[x], st.distances[x].Keys)
    requires forall y | y in ids :: ids[y] in names && names[ids[y]] == y
    ensures RowOf(names, StopRecord(st, o, ids, x).distanceToStops)
            == Some(if x in st.distances then st.distances[x] else map[])
  {
    if x in st.distances {
      var row := st.distances[x];
      RowOfRestores(names, ids, row, o.rows[x]);
      assert (map y | y in o.rows[x] :: row[y]) == row;
    }
  }

  /** The saved stops carry rows that name back the distance table. */
  lemma SavedRowsRestore(st: State, o: Orders, names: map<nat, string>)
    requires WellFormed(st) && OrdersOf(st, o)
    requires forall x | x in Numbering(o.stops) :: Numbering(o.stops)[x] in names && names[Numbering(o.stops)[x]] == x
    ensures RowsRestore(st.distances, names, ProtoCatalogueOf(st, o).stops, o.stops)
  {
    OrderNumbersStops(st, o);
    EnumerationNumbering(o.stops, st.stops.Keys);
    var ids := Numbering(o.stops);
    var recs := ProtoCatalogueOf(st, o).stops;
    forall k | 0 <= k < |o.stops|
      ensures RowOf(names, recs[k].distanceToStops)
              == Some(if o.stops[k] in st.distances then st.distances[o.stops[k]] else map[])
    {
      StopRowRestores(st, o, ids, names, o.stops[k]);
    }
  }

  /** The saved buses carry routes that name back the bus table. */
  lemma SavedRoutesRestore(st: State, o: Orders, names: map<nat, string>)
    requires WellFormed(st) && OrdersOf(st, o)
    requires forall x | x in Numbering(o.stops) :: Numbering(o.stops)[x] in names && names[Numbering(o.stops)[x]] == x
    ensures RoutesRestore(st.buses, names, ProtoCatalogueOf(st, o).buses, o.buses)
  {
    OrderNumbersStops(st, o);
    var ids := Numbering(o.stops);
    var recs := ProtoCatalogueOf(st, o).buses;
    forall k | 0 <= k < |o.buses|
      ensures RouteOf(names, recs[k].stops) == Some(st.buses[o.buses[k]].stops)
    {
      var route := st.buses[o.buses[k]].stops;
      assert recs[k] == BusRecord(st, ids, o.buses[k]);
      forall j | 0 <= j < |route| ensures recs[k].stops[j] in names && names[recs[k].stops[j]] == route[j] {
        assert recs[k].stops[j] == ids[route[j]];
      }
      assert RouteOf(names, recs[k].stops).value == route;
    }
  }

  /** Numbering the saved stop messages by their numbers names every stop
      back. */
  lemma SavedNamesInvert(st: State, o: Orders)
    requires WellFormed(st) && OrdersOf(st, o)
    ensures var names := IdNames(ProtoCatalogueOf(st, o).stops);
            forall x | x in Numbering(o.stops) :: Numbering(o.stops)[x] in names && names[Numbering(o.stops)[x]] == x
  {
    SavedStopsShape(st, o);
    EnumerationNumbering(o.stops, st.stops.Keys);
    var ids := Numbering(o.stops);
    var recs := ProtoCatalogueOf(st, o).stops;
    IdNamesOfNumbered(recs);
    forall x | x in ids ensures ids[x] in IdNames(recs) && IdNames(recs)[ids[x]] == x {
      var m :| 0 <= m < |o.stops| && o.stops[m] == x;
      assert ids[x] == m;
    }
  }

  /** The first pass over the saved stop messages gives back the stops. */
  lemma SavedStopsRestore(st: State, o: Orders)
    requires WellFormed(st) && OrdersOf(st, o)
    ensures WithStops(Empty, ProtoCatalogueOf(st, o).stops) == Empty.(stops := st.stops)
  {
    SavedStopsShape(st, o);
    var recs := ProtoCatalogueOf(st, o).stops;
    WithStopsRestores(st.stops, recs, o.stops);
    EnumeratedMap(st.stops, o.stops);
  }

  /** Restoring a saved catalogue never fails, and gives back the same
      stops with their coordinates, the same distance overrides and the
      same buses with their routes and flags, whatever the iteration
      orders. */
  lemma CatalogueRoundTrip(st: State, o: Orders)
    requires WellFormed(st) && OrdersOf(st, o)
    ensures Restored(ProtoCatalogueOf(st, o)).Some?
    ensures var r := Restored(ProtoCatalogueOf(st, o)).value;
            r.stops == st.stops && r.distances == st.distances && r.buses == st.buses
  {
    var p := ProtoCatalogueOf(st, o);
    var names := IdNames(p.stops);
    SavedNamesInvert(st, o);
    SavedStopsRestore(st, o);
    var t := WithStops(Empty, p.stops);
    SavedRowsRestore(st, o, names);
    WithDistancesRestores(st.distances, names, t, p.stops, o.stops);
    SelectAll(st.distances, o.stops);
    var u := WithDistances(t, names, p.stops).value;
    SavedRoutesRestore(st, o, names);
    WithBusesRestores(st.buses, names, u, p.buses, o.buses);
    SelectAll(st.buses, o.buses);
  }
}
