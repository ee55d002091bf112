/** The request handler: the answers to stop, bus and route requests as
    JSON nodes assembled with the builder, and the dispatch over a list of
    requests. */
module RequestHandling {
  import opened Wrappers
  import opened Domain
  import opened Json
  import opened JsonBuilder
  import opened Graphs
  import opened Catalogue
  import opened TransportRouting

  // ------------------------------------------------------------ the answers as nodes

  /** The error answer shared by the three kinds of query. */
  function NotFound(id: int): Node
  {
    Obj(map["request_id" := Int(id), "error_message" := Str("not found")])
  }

  /** A list of names as an array of strings. */
  function Strings(names: seq<string>): (r: seq<Node>)
    ensures |r| == |names|
    ensures forall i | 0 <= i < |names| :: r[i] == Str(names[i])
  {
    seq(|names|, i requires 0 <= i < |names| => Str(names[i]))
  }

  /** A found stop: its buses, in the order of the record, and the id. */
  function StopFound(stop: StopInformation, id: int): Node
  {
    Obj(map["buses" := Arr(Strings(stop.buses)), "request_id" := Int(id)])
  }

  /** The curvature as a double: a ratio, or an infinity or NaN. */
  function CurvatureNode(c: Curvature): Node
  {
    match c
    case Ratio(v) => Num(v)
    case NotFinite => NonFinite
  }

  /** A found bus: its five statistics and the id. */
  function BusFound(bus: BusInformation, id: int): Node
  {
    Obj(map["curvature" := CurvatureNode(bus.curvature), "request_id" := Int(id),
            "route_length" := Int(bus.routeLength), "stop_count" := Int(bus.stopsOnRoute),
            "unique_stop_count" := Int(bus.uniqueStops)])
  }

  /** One item of a route answer: a wait at a stop, or a ride on a bus. */
  datatype Item = WaitAt(stop: string, time: real) | RideOn(edge: EdgeInfo)

  /** An item as a dict. */
  function ItemNode(it: Item): Node
  {
    match it
    case WaitAt(stop, t) => Obj(map["type" := Str("Wait"), "stop_name" := Str(stop), "time" := Num(t)])
    case RideOn(e) =>
      Obj(map["type" := Str("Bus"), "bus" := Str(e.nameBus), "span_count" := Int(e.spanCount),
              "time" := Num(e.time)])
  }

  function ItemNodes(items: seq<Item>): (r: seq<Node>)
    ensures |r| == |items|
    ensures forall i | 0 <= i < |items| :: r[i] == ItemNode(items[i])
  {
    seq(|items|, i requires 0 <= i < |items| => ItemNode(items[i]))
  }

  lemma ItemNodesAppend(a: seq<Item>, b: seq<Item>)
    ensures ItemNodes(a + b) == ItemNodes(a) + ItemNodes(b)
  {
    assert forall i | 0 <= i < |a + b| :: ItemNodes(a + b)[i] == (ItemNodes(a) + ItemNodes(b))[i];
  }

  /** The items after the first wait and i rides, each ride followed by
      the wait at the stop it reaches. */
  function Legs(edges: seq<EdgeInfo>, wait: real, i: nat): seq<Item>
    requires 0 < |edges| && i < |edges|
  {
    if i == 0 then [WaitAt(edges[0].stopFrom, wait)]
    else Legs(edges, wait, i - 1) + [RideOn(edges[i - 1]), WaitAt(edges[i - 1].stopTo, wait)]
  }

  /** The items of a route: a wait before every ride, none after the last. */
  function Items(edges: seq<EdgeInfo>, wait: real): seq<Item>
  {
    if edges == [] then [] else Legs(edges, wait, |edges| - 1) + [RideOn(Last(edges))]
  }

  /** The answer to a route request. */
  function RouteAnswer(route: RouteInformation, id: int): Node
  {
    if !route.routeFound then NotFound(id)
    else
      Obj(map["request_id" := Int(id), "total_time" := Num(route.totalTime),
              "items" := Arr(ItemNodes(Items(route.edgesInfo, route.busWaitTime)))])
  }

  lemma {:induction false} LegsAlternate(edges: seq<EdgeInfo>, wait: real, i: nat)
    requires 0 < |edges| && i < |edges|
    ensures |Legs(edges, wait, i)| == 2 * i + 1
    ensures Legs(edges, wait, i)[0] == WaitAt(edges[0].stopFrom, wait)
    ensures forall j | 0 <= j < i :: Legs(edges, wait, i)[2 * j + 1] == RideOn(edges[j])
    ensures forall j | 0 <= j < i :: Legs(edges, wait, i)[2 * j + 2] == WaitAt(edges[j].stopTo, wait)
  {
    if i > 0 {
      LegsAlternate(edges, wait, i - 1);
      var prev := Legs(edges, wait, i - 1);
      var cur := Legs(edges, wait, i);
      assert cur == prev + [RideOn(edges[i - 1]), WaitAt(edges[i - 1].stopTo, wait)];
      forall j | 0 <= j < i
        ensures cur[2 * j + 1] == RideOn(edges[j]) && cur[2 * j + 2] == WaitAt(edges[j].stopTo, wait)
      {
        if j < i - 1 {
          assert cur[2 * j + 1] == prev[2 * j + 1] && cur[2 * j + 2] == prev[2 * j + 2];
        }
      }
    }
  }

  /** The items strictly alternate: for k rides there are 2k items, the
      even ones waits and the odd ones rides, the i-th ride being the i-th
      edge; the first wait is at the start of the first ride and every
      later wait at the end of the ride before it. */
  lemma {:induction false} ItemsAlternate(edges: seq<EdgeInfo>, wait: real)
    ensures |Items(edges, wait)| == 2 * |edges|
    ensures edges != [] ==> Items(edges, wait)[0] == WaitAt(edges[0].stopFrom, wait)
    ensures forall j | 0 <= j < |edges| :: Items(edges, wait)[2 * j + 1] == RideOn(edges[j])
    ensures forall j | 0 < j < |edges| :: Items(edges, wait)[2 * j] == WaitAt(edges[j - 1].stopTo, wait)
  {
    if edges != [] {
      var k := |edges|;
      LegsAlternate(edges, wait, k - 1);
      var legs := Legs(edges, wait, k - 1);
      var items := Items(edges, wait);
      assert items == legs + [RideOn(edges[k - 1])];
      forall j | 0 <= j < k
        ensures items[2 * j + 1] == RideOn(edges[j])
      {
        if j < k - 1 {
          assert items[2 * j + 1] == legs[2 * j + 1];
        }
      }
      forall j | 0 < j < k
        ensures items[2 * j] == WaitAt(edges[j - 1].stopTo, wait)
      {
        assert items[2 * j] == legs[2 * (j - 1) + 2];
      }
    }
  }

  // ------------------------------------------------------------ assembling with the builder

  /** `.Key(k).Value(v)` in an open dict: v is stored under k. */
  method PutField(b: Builder, under: seq<Node>, keys: seq<string>, fields: map<string, Node>, last: Command,
                  k: string, v: Node)
    requires b.Valid() && last != KeyCmd && b.Snapshot() == InDict(under, keys, fields, last)
    modifies b
    ensures b.Valid() && b.Snapshot() == InDict(under, keys, fields[k := v], ValueCmd)
  {
    KeyInDict(under, keys, fields, last, k);
    var ok := b.Key(k);
    ValueAtKey(under, keys, fields, k, v);
    var copy;
    ok, copy := b.Value(v);
  }

  /** `EndDict().Build()` of the root dict: that dict. */
  method FinishRoot(b: Builder, fields: map<string, Node>, last: Command) returns (r: Option<Node>)
    requires b.Valid() && b.Snapshot() == InDict([], [], fields, last)
    modifies b
    ensures r == Some(Obj(fields))
  {
    EndRootDict(fields, last);
    var ok := b.EndDict();
    var root;
    ok, root := b.Build();
    r := if ok then Some(root) else None;
  }

  /** A fresh builder after `StartDict()`. */
  method StartRoot() returns (b: Builder)
    ensures fresh(b) && b.Valid() && b.Snapshot() == InDict([], [], map[], StartDictCmd)
  {
    b := new Builder();
    StartRootDict();
    var ok := b.StartDict();
  }

  /** The chain of calls `Builder{}.StartDict().Key("request_id")...` of
      the "not found" answer. */
  method CollectNotFound(id: int) returns (r: Option<Node>)
    ensures r == Some(NotFound(id))
  {
    var b := StartRoot();
    PutField(b, [], [], map[], StartDictCmd, "request_id", Int(id));
    PutField(b, [], [], map["request_id" := Int(id)], ValueCmd, "error_message", Str("not found"));
    r := FinishRoot(b, map["request_id" := Int(id), "error_message" := Str("not found")], ValueCmd);
  }

  /** The answer to a map request. */
  function MapAnswer(text: string, id: int): Node
  {
    Obj(map["map" := Str(text), "request_id" := Int(id)])
  }

  /** The chain of builder calls of a map answer, the rendered map given
      as text. */
  method CollectMap(text: string, id: int) returns (r: Option<Node>)
    ensures r == Some(MapAnswer(text, id))
  {
    var b := StartRoot();
    PutField(b, [], [], map[], StartDictCmd, "map", Str(text));
    PutField(b, [], [], map["map" := Str(text)], ValueCmd, "request_id", Int(id));
    r := FinishRoot(b, map["map" := Str(text), "request_id" := Int(id)], ValueCmd);
  }

  /** `CollectStopInformation`: the buses are copied into an array of
      strings, then one chain of builder calls makes the answer. It is the
      error answer exactly when the record's name is empty. */
  method CollectStopInformation(stop: StopInformation, id: int) returns (r: Option<Node>)
    ensures stop.nameStop != "" ==> r == Some(StopFound(stop, id))
    ensures stop.nameStop == "" <==> r == Some(NotFound(id))
  {
    if stop.nameStop != "" {
      var buses: seq<Node> := [];
      var i := 0;
      while i < |stop.buses|
        invariant 0 <= i <= |stop.buses|
        invariant buses == Strings(stop.buses[..i])
      {
        buses := buses + [Str(stop.buses[i])];
        i := i + 1;
      }
      assert stop.buses[..i] == stop.buses;
      var b := StartRoot();
      PutField(b, [], [], map[], StartDictCmd, "buses", Arr(buses));
      PutField(b, [], [], map["buses" := Arr(buses)], ValueCmd, "request_id", Int(id));
      r := FinishRoot(b, map["buses" := Arr(buses), "request_id" := Int(id)], ValueCmd);
      assert "error_message" !in StopFound(stop, id).fields;
    } else {
      r := CollectNotFound(id);
    }
  }

  /** The chain of builder calls of a found bus. */
  method CollectBusFound(bus: BusInformation, id: int) returns (r: Option<Node>)
    ensures r == Some(BusFound(bus, id))
  {
    var f1 := map["curvature" := CurvatureNode(bus.curvature)];
    var f2 := f1["request_id" := Int(id)];
    var f3 := f2["route_length" := Int(bus.routeLength)];
    var f4 := f3["stop_count" := Int(bus.stopsOnRoute)];
    var b := StartRoot();
    PutField(b, [], [], map[], StartDictCmd, "curvature", CurvatureNode(bus.curvature));
    PutField(b, [], [], f1, ValueCmd, "request_id", Int(id));
    PutField(b, [], [], f2, ValueCmd, "route_length", Int(bus.routeLength));
    PutField(b, [], [], f3, ValueCmd, "stop_count", Int(bus.stopsOnRoute));
    PutField(b, [], [], f4, ValueCmd, "unique_stop_count", Int(bus.uniqueStops));
    r := FinishRoot(b, f4["unique_stop_count" := Int(bus.uniqueStops)], ValueCmd);
  }

  /** `CollectBusInformation`: one chain of builder calls. It is the error
      answer exactly when the record's name is empty. */
  method CollectBusInformation(bus: BusInformation, id: int) returns (r: Option<Node>)
    ensures bus.nameBus != "" ==> r == Some(BusFound(bus, id))
    ensures bus.nameBus == "" <==> r == Some(NotFound(id))
  {
    if bus.nameBus != "" {
      r := CollectBusFound(bus, id);
      assert "error_message" !in BusFound(bus, id).fields;
    } else {
      r := CollectNotFound(id);
    }
  }

  /** `StartDict().Key("type").Value("Wait").Key("stop_name")...EndDict()`
      inside an open array: one wait item more. */
  method PutWait(b: Builder, under: seq<Node>, keys: seq<string>, vs: seq<Node>, last: Command,
                 stop: string, wait: real)
    requires b.Valid() && b.Snapshot() == InArray(under, keys, vs, last)
    modifies b
    ensures b.Valid() && b.Snapshot() == InArray(under, keys, vs + [ItemNode(WaitAt(stop, wait))], EndDictCmd)
  {
    var inner := under + [Arr(vs)];
    var f1 := map["type" := Str("Wait")];
    var f2 := f1["stop_name" := Str(stop)];
    StartDictInArray(under, keys, vs, last);
    var ok := b.StartDict();
    PutField(b, inner, keys, map[], StartDictCmd, "type", Str("Wait"));
    PutField(b, inner, keys, f1, ValueCmd, "stop_name", Str(stop));
    PutField(b, inner, keys, f2, ValueCmd, "time", Num(wait));
    EndDictInArray(under, keys, vs, f2["time" := Num(wait)], ValueCmd);
    ok := b.EndDict();
  }

  /** `StartDict().Key("type").Value("Bus").Key("bus")...EndDict()` inside
      an open array: one ride item more. */
  method PutBus(b: Builder, under: seq<Node>, keys: seq<string>, vs: seq<Node>, last: Command, e: EdgeInfo)
    requires b.Valid() && b.Snapshot() == InArray(under, keys, vs, last)
    modifies b
    ensures b.Valid() && b.Snapshot() == InArray(under, keys, vs + [ItemNode(RideOn(e))], EndDictCmd)
  {
    var inner := under + [Arr(vs)];
    var f1 := map["type" := Str("Bus")];
    var f2 := f1["bus" := Str(e.nameBus)];
    var f3 := f2["span_count" := Int(e.spanCount)];
    StartDictInArray(under, keys, vs, last);
    var ok := b.StartDict();
    PutField(b, inner, keys, map[], StartDictCmd, "type", Str("Bus"));
    PutField(b, inner, keys, f1, ValueCmd, "bus", Str(e.nameBus));
    PutField(b, inner, keys, f2, ValueCmd, "span_count", Int(e.spanCount));
    PutField(b, inner, keys, f3, ValueCmd, "time", Num(e.time));
    EndDictInArray(under, keys, vs, f3["time" := Num(e.time)], ValueCmd);
    ok := b.EndDict();
  }

  /** The fields of a found route answer before its items. */
  function RouteHead(id: int, total: real): map<string, Node>
  {
    map["request_id" := Int(id), "total_time" := Num(total)]
  }

  /** `StartDict().Key("request_id").Value(id).Key("total_time")
      .Value(total)` on a fresh builder. */
  method OpenHead(id: int, total: real) returns (b: Builder)
    ensures fresh(b) && b.Valid() && b.Snapshot() == InDict([], [], RouteHead(id, total), ValueCmd)
  {
    var f1 := map["request_id" := Int(id)];
    b := StartRoot();
    PutField(b, [], [], map[], StartDictCmd, "request_id", Int(id));
    PutField(b, [], [], f1, ValueCmd, "total_time", Num(total));
  }

  /** ... then `.Key("items").StartArray()`. */
  method OpenItems(id: int, total: real) returns (b: Builder)
    ensures fresh(b) && b.Valid() && b.Snapshot() == InArray([Obj(RouteHead(id, total))], ["items"], [], StartArrayCmd)
  {
    var head := RouteHead(id, total);
    b := OpenHead(id, total);
    KeyInDict([], [], head, ValueCmd, "items");
    var ok := b.Key("items");
    assert [] + ["items"] == ["items"];
    StartArrayAtKey([], ["items"], head);
    ok := b.StartArray();
    assert [] + [Obj(head)] == [Obj(head)];
  }

  /** The items of a route into the open array: the first wait, then a
      ride and a wait per edge but the last in an index loop, then the
      last ride. */
  method PutItems(b: Builder, under: seq<Node>, keys: seq<string>, edges: seq<EdgeInfo>, wait: real)
    requires edges != []
    requires b.Valid() && b.Snapshot() == InArray(under, keys, [], StartArrayCmd)
    modifies b
    ensures b.Valid() && b.Snapshot() == InArray(under, keys, ItemNodes(Items(edges, wait)), EndDictCmd)
  {
    PutWait(b, under, keys, [], StartArrayCmd, edges[0].stopFrom, wait);
    assert [] + [ItemNode(WaitAt(edges[0].stopFrom, wait))] == ItemNodes(Legs(edges, wait, 0));
    var i := 0;
    while i + 1 < |edges|
      invariant 0 <= i < |edges|
      invariant b.Valid() && b.Snapshot() == InArray(under, keys, ItemNodes(Legs(edges, wait, i)), EndDictCmd)
    {
      PutLeg(b, under, keys, edges, wait, i);
      i := i + 1;
    }
    var done := ItemNodes(Legs(edges, wait, i));
    PutBus(b, under, keys, done, EndDictCmd, Last(edges));
    assert Items(edges, wait) == Legs(edges, wait, i) + [RideOn(Last(edges))];
    ItemNodesAppend(Legs(edges, wait, i), [RideOn(Last(edges))]);
    assert ItemNodes([RideOn(Last(edges))]) == [ItemNode(RideOn(Last(edges)))];
  }

  /** The body of the loop over the edges: the ride of edge i, then the
      wait where it ends. */
  method PutLeg(b: Builder, under: seq<Node>, keys: seq<string>, edges: seq<EdgeInfo>, wait: real, i: nat)
    requires i + 1 < |edges|
    requires b.Valid() && b.Snapshot() == InArray(under, keys, ItemNodes(Legs(edges, wait, i)), EndDictCmd)
    modifies b
    ensures b.Valid() && b.Snapshot() == InArray(under, keys, ItemNodes(Legs(edges, wait, i + 1)), EndDictCmd)
  {
    var done := ItemNodes(Legs(edges, wait, i));
    PutBus(b, under, keys, done, EndDictCmd, edges[i]);
    PutWait(b, under, keys, done + [ItemNode(RideOn(edges[i]))], EndDictCmd, edges[i].stopTo, wait);
    ItemNodesAppend(Legs(edges, wait, i), [RideOn(edges[i]), WaitAt(edges[i].stopTo, wait)]);
    assert done + [ItemNode(RideOn(edges[i]))] + [ItemNode(WaitAt(edges[i].stopTo, wait))]
        == ItemNodes(Legs(edges, wait, i + 1));
  }

  /** `CollectRouteInformation`: a found route is assembled on one builder,
      a wait and a ride per edge. The answer is exactly `RouteAnswer`, so
      no builder call throws. */
  method CollectRouteInformation(route: RouteInformation, id: int) returns (r: Option<Node>)
    ensures r == Some(RouteAnswer(route, id))
  {
    if !route.routeFound {
      r := CollectNotFound(id);
    } else {
      r := CollectFound(route, id);
    }
  }

  /** The found branch: the head, the items, then `EndArray().EndDict()
      .Build()`. */
  method CollectFound(route: RouteInformation, id: int) returns (r: Option<Node>)
    requires route.routeFound
    ensures r == Some(RouteAnswer(route, id))
  {
    var head := RouteHead(id, route.totalTime);
    var b := OpenItems(id, route.totalTime);
    var last := StartArrayCmd;
    if route.edgesInfo != [] {
      PutItems(b, [Obj(head)], ["items"], route.edgesInfo, route.busWaitTime);
      last := EndDictCmd;
    }
    var items := ItemNodes(Items(route.edgesInfo, route.busWaitTime));
    r := CloseItems(b, head, items, last);
  }

  /** `EndArray().EndDict().Build()` on the open items array of a route
      answer. */
  method CloseItems(b: Builder, head: map<string, Node>, items: seq<Node>, last: Command) returns (r: Option<Node>)
    requires b.Valid() && b.Snapshot() == InArray([Obj(head)], ["items"], items, last)
    modifies b
    ensures r == Some(Obj(head["items" := Arr(items)]))
  {
    assert b.Snapshot() == InArray([] + [Obj(head)], [] + ["items"], items, last);
    EndArrayInDict([], [], "items", head, items, last);
    var ok := b.EndArray();
    r := FinishRoot(b, head["items" := Arr(items)], EndArrayCmd);
  }

  // ------------------------------------------------------------ the dispatch

  /** One entry of the request list, with the fields its type reads. */
  datatype Request =
    | StopRequest(id: int, name: string)
    | BusRequest(id: int, name: string)
    | MapRequest(id: int)
    | RouteRequest(id: int, from: string, to: string)
    | OtherRequest(kind: string)

  /** What the answers depend on: the catalogue, the distance function, the
      router's stop ids, edge records and waiting time, the shortest-path
      search over the graph, and the rendered map. */
  datatype Sources = Sources(st: Catalogue.State, geo: GeoDistance, ids: map<string, nat>, info: map<nat, EdgeInfo>,
                             wait: real, search: (nat, nat) -> Option<RouteInfo>, mapText: string)

  /** The search only returns routes over edges the router has records
      for, and the catalogue is well formed. */
  ghost predicate Consistent(w: Sources)
  {
    && WellFormed(w.st)
    && forall a: nat, b: nat | w.search(a, b).Some? ::
         forall k | 0 <= k < |w.search(a, b).value.edges| :: w.search(a, b).value.edges[k] in w.info
  }

  /** The route a route request is answered with: nothing to travel when
      both ends are the same name, the search's result when both ends are
      working stops, no route otherwise. */
  function RouteFor(ids: map<string, nat>, search: (nat, nat) -> Option<RouteInfo>, from: string, to: string)
    : Option<RouteInfo>
  {
    if from == to then Some(RouteInfo(0.0, []))
    else if from in ids && to in ids then search(ids[from], ids[to])
    else None
  }

  /** The routing answer for a route, as `FindRouteInformation` gives it. */
  function RouteInformationFor(w: Sources, route: Option<RouteInfo>): RouteInformation
    requires route.Some? ==> forall k | 0 <= k < |route.value.edges| :: route.value.edges[k] in w.info
  {
    match route
    case None => NoRouteInformation
    case Some(ri) => RouteInformation(ri.weight, Records(w.info, ri.edges), w.wait, true)
  }

  /** The entry a request contributes, if any. */
  ghost function Answer(w: Sources, q: Request): Option<Node>
    requires Consistent(w)
  {
    match q
    case StopRequest(id, name) =>
      var stop := StopInfoOf(w.st, name);
      Some(if stop.nameStop != "" then StopFound(stop, id) else NotFound(id))
    case BusRequest(id, name) =>
      var bus := BusInfoOf(w.st, w.geo, name);
      Some(if bus.nameBus != "" then BusFound(bus, id) else NotFound(id))
    case MapRequest(id) =>
      Some(MapAnswer(w.mapText, id))
    case RouteRequest(id, from, to) =>
      Some(RouteAnswer(RouteInformationFor(w, RouteFor(w.ids, w.search, from, to)), id))
    case OtherRequest(_) => None
  }

  /** The answers to a list of requests, in order. */
  ghost function Answers(w: Sources, qs: seq<Request>): seq<Node>
    requires Consistent(w)
    decreases |qs|
  {
    if qs == [] then []
    else
      Answers(w, qs[..|qs| - 1])
        + (match Answer(w, qs[|qs| - 1]) case Some(n) => [n] case None => [])
  }

  /** Answering one request more adds its answer, if it has one. */
  lemma AnswersNext(w: Sources, qs: seq<Request>, i: nat)
    requires Consistent(w) && i < |qs|
    ensures Answers(w, qs[..i + 1])
            == Answers(w, qs[..i]) + (match Answer(w, qs[i]) case Some(n) => [n] case None => [])
  {
    assert qs[..i + 1][..i] == qs[..i];
  }

  /** The number of requests of the four known types. */
  function Served(qs: seq<Request>): nat
    decreases |qs|
  {
    if qs == [] then 0 else Served(qs[..|qs| - 1]) + (if qs[|qs| - 1].OtherRequest? then 0 else 1)
  }

  /** One answer per stop, bus, map or route request, none for any other
      type. */
  lemma {:induction false} OneAnswerPerKnownRequest(w: Sources, qs: seq<Request>)
    requires Consistent(w)
    ensures |Answers(w, qs)| == Served(qs)
    decreases |qs|
  {
    if qs != [] {
      OneAnswerPerKnownRequest(w, qs[..|qs| - 1]);
    }
  }

  /** The answers keep the order of the requests: answering a + b is
      answering a, then b. */
  lemma {:induction false} AnswersInOrder(w: Sources, a: seq<Request>, b: seq<Request>)
    requires Consistent(w)
    ensures Answers(w, a + b) == Answers(w, a) + Answers(w, b)
    decreases |b|
  {
    if b == [] {
      assert a + b == a;
    } else {
      var front := b[..|b| - 1];
      assert (a + b)[..|a + b| - 1] == a + front;
      assert (a + b)[|a + b| - 1] == b[|b| - 1];
      AnswersInOrder(w, a, front);
    }
  }

  /** A route from a stop to itself is found, takes no time and has no
      items, whether or not the stop exists. */
  lemma SameStopRoute(w: Sources, id: int, s: string)
    requires Consistent(w)
    ensures Answer(w, RouteRequest(id, s, s))
            == Some(Obj(map["request_id" := Int(id), "total_time" := Num(0.0), "items" := Arr([])]))
  {
    assert Records(w.info, []) == [];
  }

  /** Between two different names of which one is not a working stop, no
      route is searched for and the answer is "not found". */
  lemma NoRouteFromIdleStop(w: Sources, id: int, from: string, to: string)
    requires Consistent(w)
    requires from != to && (from !in w.ids || to !in w.ids)
    ensures Answer(w, RouteRequest(id, from, to)) == Some(NotFound(id))
  {
  }

  /** The request handler over a catalogue and a router. */
  class RequestHandler {
    const catalogue: TransportCatalogue
    const router: TransportRouter

    constructor (c: TransportCatalogue, r: TransportRouter)
      ensures catalogue == c && router == r
    {
      catalogue := c;
      router := r;
    }

    /** What the answers depend on, read from the catalogue and the
        router. */
    function SourcesOf(geo: GeoDistance, search: (nat, nat) -> Option<RouteInfo>, mapText: string): Sources
      reads catalogue, router
    {
      Sources(catalogue.Snapshot(), geo, router.stopsId, router.edgesInfo, router.wait, search, mapText)
    }

    /** The route between two named stops: the empty route between a name
        and itself, the search's result between two working stops. */
    method FindRoute(from: string, to: string, search: (nat, nat) -> Option<RouteInfo>)
      returns (route: Option<RouteInfo>)
      requires router.Valid()
      ensures route == RouteFor(router.stopsId, search, from, to)
    {
      route := None;
      if from == to {
        route := Some(RouteInfo(0.0, []));
      } else {
        var fromWorks := router.StopIsWorking(from);
        var toWorks := router.StopIsWorking(to);
        if fromWorks && toWorks {
          var a := router.GetStopId(from);
          var b := router.GetStopId(to);
          route := search(a, b);
        }
      }
    }

    /** The entry one request contributes to the answers. */
    method FindOne(q: Request, geo: GeoDistance, search: (nat, nat) -> Option<RouteInfo>, mapText: string)
      returns (a: Option<Node>)
      requires router.Valid() && Consistent(SourcesOf(geo, search, mapText))
      ensures a == Answer(SourcesOf(geo, search, mapText), q)
    {
      match q {
        case StopRequest(id, name) =>
          var stop := catalogue.FindStopInformation(name);
          a := CollectStopInformation(stop, id);
        case BusRequest(id, name) =>
          var bus := catalogue.FindBusInformation(name, geo);
          a := CollectBusInformation(bus, id);
        case MapRequest(id) =>
          a := CollectMap(mapText, id);
        case RouteRequest(id, from, to) =>
          var route := FindRoute(from, to, search);
          var info := router.FindRouteInformation(route);
          a := CollectRouteInformation(info, id);
        case OtherRequest(_) =>
          a := None;
      }
    }

    /** `FindInformation`: one answer per stop, bus, map or route request,
        in request order. The shortest-path search and the rendered map are
        parameters. */
    method FindInformation(requests: seq<Request>, geo: GeoDistance, search: (nat, nat) -> Option<RouteInfo>,
                           mapText: string) returns (r: seq<Node>)
      requires router.Valid() && Consistent(SourcesOf(geo, search, mapText))
      ensures r == Answers(SourcesOf(geo, search, mapText), requests)
    {
      ghost var w := SourcesOf(geo, search, mapText);
      r := [];
      var i := 0;
      while i < |requests|
        invariant 0 <= i <= |requests|
        invariant r == Answers(w, requests[..i])
      {
        AnswersNext(w, requests, i);
        var a := FindOne(requests[i], geo, search, mapText);
        if a.Some? {
          r := r + [a.value];
        }
        i := i + 1;
      }
      assert requests[..i] == requests;
    }
  }
}
