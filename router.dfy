/** The transport router: numbers the working stops, turns every ride a bus
    offers into a weighted edge of a graph (weight = waiting time plus
    riding time, in minutes) and remembers, per edge id, what the ride was.
    The class mirrors the source's object; the values it produces are tied
    to the ride lists of RouterSpec. */
module TransportRouting {
  import opened Wrappers
  import opened Names
  import opened Domain
  import opened Catalogue
  import opened Graphs
  import opened RouterSpec

  /** Minutes needed for a distance in metres at a velocity in km/h. */
  function RideTime(distance: real, velocity: real): real
    requires velocity != 0.0
  {
    distance * 1.0 / (velocity / 0.06)
  }

  /** A working bus as the router sees it: its name, its route, and the
      riding time of every hop of the route in both directions
      (fwd[t]: stop t to stop t+1; bwd[t]: stop t+1 back to stop t). */
  datatype BusRoute = BusRoute(name: string, stops: seq<string>, circular: bool,
                               fwd: seq<real>, bwd: seq<real>)

  predicate IsRoutable(st: State, name: string)
  {
    name in st.buses && |st.buses[name].stops| > 0 && RouteKnown(st, st.buses[name].stops)
  }

  /** The riding time of hop t of a route, forward: stop t to stop t+1. */
  function FwdHop(st: State, geo: GeoDistance, velocity: real, s: seq<string>, t: nat): real
    requires t + 1 < |s| && s[t] in st.stops && s[t + 1] in st.stops && velocity != 0.0
  {
    RideTime(Distance(st, geo, s[t], s[t + 1]), velocity)
  }

  /** The riding time of hop t of a route, backward: stop t+1 to stop t. */
  function BwdHop(st: State, geo: GeoDistance, velocity: real, s: seq<string>, t: nat): real
    requires t + 1 < |s| && s[t] in st.stops && s[t + 1] in st.stops && velocity != 0.0
  {
    RideTime(Distance(st, geo, s[t + 1], s[t]), velocity)
  }

  /** The riding times of the first n hops of a route, forward. */
  function FwdHops(st: State, geo: GeoDistance, velocity: real, s: seq<string>, n: nat): (h: seq<real>)
    requires RouteKnown(st, s) && velocity != 0.0 && n < |s|
    ensures |h| == n
    decreases n
  {
    if n == 0 then [] else FwdHops(st, geo, velocity, s, n - 1) + [FwdHop(st, geo, velocity, s, n - 1)]
  }

  /** The riding times of the first n hops of a route, backward. */
  function BwdHops(st: State, geo: GeoDistance, velocity: real, s: seq<string>, n: nat): (h: seq<real>)
    requires RouteKnown(st, s) && velocity != 0.0 && n < |s|
    ensures |h| == n
    decreases n
  {
    if n == 0 then [] else BwdHops(st, geo, velocity, s, n - 1) + [BwdHop(st, geo, velocity, s, n - 1)]
  }

  /** Entry t of the forward table is the riding time of hop t. */
  lemma {:induction false} FwdHopsAt(st: State, geo: GeoDistance, velocity: real, s: seq<string>, n: nat, t: nat)
    requires RouteKnown(st, s) && velocity != 0.0 && t < n < |s|
    ensures FwdHops(st, geo, velocity, s, n)[t] == FwdHop(st, geo, velocity, s, t)
    decreases n
  {
    if t < n - 1 {
      FwdHopsAt(st, geo, velocity, s, n - 1, t);
    }
  }

  /** Entry t of the backward table is the riding time of hop t, backward. */
  lemma {:induction false} BwdHopsAt(st: State, geo: GeoDistance, velocity: real, s: seq<string>, n: nat, t: nat)
    requires RouteKnown(st, s) && velocity != 0.0 && t < n < |s|
    ensures BwdHops(st, geo, velocity, s, n)[t] == BwdHop(st, geo, velocity, s, t)
    decreases n
  {
    if t < n - 1 {
      BwdHopsAt(st, geo, velocity, s, n - 1, t);
    }
  }

  /** A working bus as the router sees it, with its hop times at this
      velocity. */
  function RouteOf(st: State, geo: GeoDistance, velocity: real, name: string): (b: BusRoute)
    requires IsRoutable(st, name) && velocity != 0.0
    ensures b.name == name && b.stops == st.buses[name].stops && b.circular == st.buses[name].isCircular
    ensures b.fwd == FwdHops(st, geo, velocity, b.stops, |b.stops| - 1)
    ensures b.bwd == BwdHops(st, geo, velocity, b.stops, |b.stops| - 1)
  {
    var s := st.buses[name].stops;
    BusRoute(name, s, st.buses[name].isCircular,
             FwdHops(st, geo, velocity, s, |s| - 1), BwdHops(st, geo, velocity, s, |s| - 1))
  }

  /** The route is not empty and has a time for every hop. */
  predicate Shaped(b: BusRoute)
  {
    |b.stops| > 0 && |b.fwd| == |b.stops| - 1 && |b.bwd| == |b.stops| - 1
  }

  /** ... and every stop of it has a vertex. */
  predicate Covered(ids: map<string, nat>, b: BusRoute)
  {
    Shaped(b) && forall t | 0 <= t < |b.stops| :: b.stops[t] in ids
  }

  /** The positions of a ride lie on the route, in the order of its
      direction (forward when it ends after it starts). */
  predicate Fits(s: seq<string>, r: Ride)
  {
    && r.from < |s| && r.to < |s| && r.boarded < |s|
    && (r.from < r.to ==> r.boarded <= r.to)
    && (r.to <= r.from ==> r.to <= r.boarded)
  }

  /** Every ride of the list fits the route. */
  predicate AllFit(s: seq<string>, xs: seq<Ride>)
  {
    forall t | 0 <= t < |xs| :: Fits(s, xs[t])
  }

  /** The weight of the edge for a ride: the wait plus the hops ridden
      since boarding. */
  function Weight(b: BusRoute, wait: real, r: Ride): real
    requires Shaped(b) && Fits(b.stops, r)
  {
    if r.from < r.to then FwdWeight(b.fwd, wait, r) else RevWeight(b.bwd, wait, r)
  }

  /** The number of hops ridden since boarding. */
  function Span(r: Ride): int
  {
    if r.from < r.to then r.to - r.boarded else r.boarded - r.to
  }

  /** The graph edge for a ride: between the ids of its two stops. */
  function RideEdge(ids: map<string, nat>, b: BusRoute, wait: real, r: Ride): Edge
    requires Covered(ids, b) && Fits(b.stops, r)
  {
    Edge(ids[b.stops[r.from]], ids[b.stops[r.to]], Weight(b, wait, r))
  }

  /** The record kept for a ride: the riding time is the weight less the
      wait. */
  function RideInfo(b: BusRoute, wait: real, r: Ride): EdgeInfo
    requires Shaped(b) && Fits(b.stops, r)
  {
    EdgeInfo(b.name, Span(r), Weight(b, wait, r) - wait, b.stops[r.from], b.stops[r.to])
  }

  // ------------------------------------------------------------ emission

  /** The graph under construction and the edge records beside it. */
  datatype Built = Built(graph: Graph, info: map<nat, EdgeInfo>)

  /** The graph and the records after the first n rides of xs are added to
      g and info in order: each ride's edge is appended to the graph and
      its record is stored under the id the graph gives that edge. */
  function Emit(ids: map<string, nat>, b: BusRoute, wait: real, g: Graph, info: map<nat, EdgeInfo>,
                xs: seq<Ride>, n: nat): (r: Built)
    requires Covered(ids, b) && AllFit(b.stops, xs) && n <= |xs|
    ensures r.graph.vertexCount == g.vertexCount && |r.graph.edges| == |g.edges| + n
    decreases n
  {
    if n == 0 then Built(g, info) else Step(ids, b, wait, Emit(ids, b, wait, g, info, xs, n - 1), xs[n - 1])
  }

  /** Adding one ride: its edge is appended, its record stored under the
      edge's id. */
  function Step(ids: map<string, nat>, b: BusRoute, wait: real, p: Built, r: Ride): Built
    requires Covered(ids, b) && Fits(b.stops, r)
  {
    var added := AddEdge(p.graph, RideEdge(ids, b, wait, r));
    Built(added.0, p.info[added.1 := RideInfo(b, wait, r)])
  }

  /** All the rides of xs added. */
  function EmitAll(ids: map<string, nat>, b: BusRoute, wait: real, g: Graph, info: map<nat, EdgeInfo>,
                   xs: seq<Ride>): Built
    requires Covered(ids, b) && AllFit(b.stops, xs)
  {
    Emit(ids, b, wait, g, info, xs, |xs|)
  }

  /** What adding the rides leaves: the old edges in front, the edge of
      ride t under id |g.edges| + t; the record of ride t under that same
      id, the old records under every other id, and nothing else. */
  lemma EmitAt(ids: map<string, nat>, b: BusRoute, wait: real, g: Graph, info: map<nat, EdgeInfo>,
               xs: seq<Ride>, n: nat, id: nat)
    requires Covered(ids, b) && AllFit(b.stops, xs) && n <= |xs|
    ensures id < |g.edges| ==> Emit(ids, b, wait, g, info, xs, n).graph.edges[id] == g.edges[id]
    ensures |g.edges| <= id < |g.edges| + n ==>
              Emit(ids, b, wait, g, info, xs, n).graph.edges[id] == RideEdge(ids, b, wait, xs[id - |g.edges|])
    ensures id in Emit(ids, b, wait, g, info, xs, n).info <==> id in info || |g.edges| <= id < |g.edges| + n
    ensures |g.edges| <= id < |g.edges| + n ==>
              Emit(ids, b, wait, g, info, xs, n).info[id] == RideInfo(b, wait, xs[id - |g.edges|])
    ensures id in info && !(|g.edges| <= id < |g.edges| + n) ==> Emit(ids, b, wait, g, info, xs, n).info[id] == info[id]
  {
    EmitEdgeAt(ids, b, wait, g, info, xs, n, id);
    EmitInfoAt(ids, b, wait, g, info, xs, n, id);
  }

  /** The rides of a route of two stops or more include, at the position
      returned, the ride from its first stop to its second. */
  lemma FirstRideListed(s: seq<string>, circular: bool) returns (t: nat)
    requires |s| >= 2
    ensures t < |BusRides(s, circular)| && BusRides(s, circular)[t] == Ride(0, 1, 0)
  {
    BusRidesExactly(s, circular, Ride(0, 1, 0));
    var xs := BusRides(s, circular);
    t :| 0 <= t < |xs| && xs[t] == Ride(0, 1, 0);
  }

  /** Ride t of the list is added under edge id |g.edges| + t, with its own
      record and edge. */
  lemma RideEmitted(ids: map<string, nat>, b: BusRoute, wait: real, g: Graph, info: map<nat, EdgeInfo>,
                    xs: seq<Ride>, t: nat)
    requires Covered(ids, b) && AllFit(b.stops, xs) && t < |xs|
    ensures var r := EmitAll(ids, b, wait, g, info, xs);
            && |g.edges| + t < |r.graph.edges| && |g.edges| + t in r.info
            && r.info[|g.edges| + t] == RideInfo(b, wait, xs[t])
            && r.graph.edges[|g.edges| + t] == RideEdge(ids, b, wait, xs[t])
            && r.info[|g.edges| + t].stopFrom == b.stops[xs[t].from]
            && r.info[|g.edges| + t].stopTo == b.stops[xs[t].to]
            && r.graph.edges[|g.edges| + t].to == ids[b.stops[xs[t].to]]
  {
    EmitAt(ids, b, wait, g, info, xs, |xs|, |g.edges| + t);
  }

  /** The edges part of `EmitAt`. */
  lemma {:induction false} EmitEdgeAt(ids: map<string, nat>, b: BusRoute, wait: real, g: Graph, info: map<nat, EdgeInfo>,
                                      xs: seq<Ride>, n: nat, id: nat)
    requires Covered(ids, b) && AllFit(b.stops, xs) && n <= |xs|
    ensures id < |g.edges| ==> Emit(ids, b, wait, g, info, xs, n).graph.edges[id] == g.edges[id]
    ensures |g.edges| <= id < |g.edges| + n ==>
              Emit(ids, b, wait, g, info, xs, n).graph.edges[id] == RideEdge(ids, b, wait, xs[id - |g.edges|])
    decreases n
  {
    if n > 0 {
      EmitEdgeAt(ids, b, wait, g, info, xs, n - 1, id);
      var p := Emit(ids, b, wait, g, info, xs, n - 1);
      var e := RideEdge(ids, b, wait, xs[n - 1]);
      var q := AddEdge(p.graph, e).0;
      assert Emit(ids, b, wait, g, info, xs, n).graph == q;
      if id < |p.graph.edges| {
        assert q.edges[..|p.graph.edges|] == p.graph.edges;
        assert q.edges[id] == p.graph.edges[id];
      } else if id == |p.graph.edges| {
        assert q.edges[id] == e;
      }
    }
  }

  /** The records part of `EmitAt`. */
  lemma {:induction false} EmitInfoAt(ids: map<string, nat>, b: BusRoute, wait: real, g: Graph, info: map<nat, EdgeInfo>,
                                      xs: seq<Ride>, n: nat, id: nat)
    requires Covered(ids, b) && AllFit(b.stops, xs) && n <= |xs|
    ensures id in Emit(ids, b, wait, g, info, xs, n).info <==> id in info || |g.edges| <= id < |g.edges| + n
    ensures |g.edges| <= id < |g.edges| + n ==>
              Emit(ids, b, wait, g, info, xs, n).info[id] == RideInfo(b, wait, xs[id - |g.edges|])
    ensures id in info && !(|g.edges| <= id < |g.edges| + n) ==> Emit(ids, b, wait, g, info, xs, n).info[id] == info[id]
    decreases n
  {
    if n > 0 {
      EmitInfoAt(ids, b, wait, g, info, xs, n - 1, id);
      var p := Emit(ids, b, wait, g, info, xs, n - 1);
      var last := |p.graph.edges|;
      assert last == |g.edges| + n - 1;
      var m := p.info[last := RideInfo(b, wait, xs[n - 1])];
      assert Emit(ids, b, wait, g, info, xs, n).info == m;
      if id == last {
        assert m[id] == RideInfo(b, wait, xs[id - |g.edges|]);
      } else {
        assert id in m <==> id in p.info;
      }
    }
  }

  /** The edge of a ride joins vertices when every id names one; so adding
      rides keeps every edge between vertices. */
  lemma {:induction false} EmitKeepsEndpoints(ids: map<string, nat>, b: BusRoute, wait: real, g: Graph,
                                              info: map<nat, EdgeInfo>, xs: seq<Ride>, n: nat)
    requires Covered(ids, b) && IdsBelow(ids) && AllFit(b.stops, xs) && n <= |xs|
    requires g.vertexCount == |ids| && EndpointsInRange(g)
    ensures EndpointsInRange(Emit(ids, b, wait, g, info, xs, n).graph)
    decreases n
  {
    if n > 0 {
      EmitKeepsEndpoints(ids, b, wait, g, info, xs, n - 1);
      var p := Emit(ids, b, wait, g, info, xs, n - 1);
      var e := RideEdge(ids, b, wait, xs[n - 1]);
      var q := AddEdge(p.graph, e).0;
      forall k | 0 <= k < |q.edges| ensures q.edges[k].from < q.vertexCount && q.edges[k].to < q.vertexCount {
        if k < |p.graph.edges| {
          assert q.edges[..|p.graph.edges|] == p.graph.edges;
          assert q.edges[k] == p.graph.edges[k];
        }
      }
    }
  }

  /** Adding a prefix of xs + ys is adding that prefix of xs. */
  lemma {:induction false} EmitPrefix(ids: map<string, nat>, b: BusRoute, wait: real, g: Graph, info: map<nat, EdgeInfo>,
                                      xs: seq<Ride>, ys: seq<Ride>, n: nat)
    requires Covered(ids, b) && AllFit(b.stops, xs) && AllFit(b.stops, xs + ys) && n <= |xs|
    ensures Emit(ids, b, wait, g, info, xs + ys, n) == Emit(ids, b, wait, g, info, xs, n)
    decreases n
  {
    if n > 0 {
      EmitPrefix(ids, b, wait, g, info, xs, ys, n - 1);
      assert (xs + ys)[n - 1] == xs[n - 1];
    }
  }

  /** The rides of two lists that fit fit together. */
  lemma AllFitAppend(s: seq<string>, xs: seq<Ride>, ys: seq<Ride>)
    requires AllFit(s, xs) && AllFit(s, ys)
    ensures AllFit(s, xs + ys)
  {
    forall t | 0 <= t < |xs + ys| ensures Fits(s, (xs + ys)[t]) {
      if t < |xs| {
        assert (xs + ys)[t] == xs[t];
      } else {
        assert (xs + ys)[t] == ys[t - |xs|];
      }
    }
  }

  /** Adding the first m = |xs| + n rides of xs + ys is adding xs, then
      the first n of ys. */
  lemma {:induction false} EmitAppend(ids: map<string, nat>, b: BusRoute, wait: real, g: Graph, info: map<nat, EdgeInfo>,
                                      xs: seq<Ride>, ys: seq<Ride>, g1: Graph, info1: map<nat, EdgeInfo>, m: nat, n: nat)
    requires Covered(ids, b) && AllFit(b.stops, xs) && AllFit(b.stops, ys) && AllFit(b.stops, xs + ys)
    requires n <= |ys| && m == |xs| + n && Built(g1, info1) == EmitAll(ids, b, wait, g, info, xs)
    ensures Emit(ids, b, wait, g, info, xs + ys, m) == Emit(ids, b, wait, g1, info1, ys, n)
    decreases n, 1
  {
    if n == 0 {
      EmitPrefix(ids, b, wait, g, info, xs, ys, |xs|);
    } else {
      EmitAppendNext(ids, b, wait, g, info, xs, ys, g1, info1, m, n);
    }
  }

  /** The step of `EmitAppend`: both sides add the same ride last. */
  lemma EmitAppendNext(ids: map<string, nat>, b: BusRoute, wait: real, g: Graph, info: map<nat, EdgeInfo>,
                       xs: seq<Ride>, ys: seq<Ride>, g1: Graph, info1: map<nat, EdgeInfo>, m: nat, n: nat)
    requires Covered(ids, b) && AllFit(b.stops, xs) && AllFit(b.stops, ys) && AllFit(b.stops, xs + ys)
    requires 0 < n <= |ys| && m == |xs| + n && Built(g1, info1) == EmitAll(ids, b, wait, g, info, xs)
    ensures Emit(ids, b, wait, g, info, xs + ys, m) == Emit(ids, b, wait, g1, info1, ys, n)
    decreases n, 0
  {
    var zs := xs + ys;
    EmitAppend(ids, b, wait, g, info, xs, ys, g1, info1, m - 1, n - 1);
    AppendAt(xs, ys, m, n);
    EmitSameStep(ids, b, wait, g, info, zs, m, g1, info1, ys, n);
  }

  /** Position m - 1 of xs + ys is position n - 1 of ys when m = |xs| + n. */
  lemma AppendAt<X>(xs: seq<X>, ys: seq<X>, m: nat, n: nat)
    requires 0 < n <= |ys| && m == |xs| + n
    ensures (xs + ys)[m - 1] == ys[n - 1]
  {
  }

  /** Two emissions that agree stay in agreement when both add the same
      ride. */
  lemma EmitSameStep(ids: map<string, nat>, b: BusRoute, wait: real, g: Graph, info: map<nat, EdgeInfo>,
                     xs: seq<Ride>, m: nat, g1: Graph, info1: map<nat, EdgeInfo>, ys: seq<Ride>, n: nat)
    requires Covered(ids, b) && AllFit(b.stops, xs) && AllFit(b.stops, ys)
    requires 0 < m <= |xs| && 0 < n <= |ys| && xs[m - 1] == ys[n - 1]
    requires Emit(ids, b, wait, g, info, xs, m - 1) == Emit(ids, b, wait, g1, info1, ys, n - 1)
    ensures Emit(ids, b, wait, g, info, xs, m) == Emit(ids, b, wait, g1, info1, ys, n)
  {
  }

  /** Adding xs + ys is adding xs, then ys. */
  lemma EmitThen(ids: map<string, nat>, b: BusRoute, wait: real, g: Graph, info: map<nat, EdgeInfo>,
                 xs: seq<Ride>, ys: seq<Ride>)
    requires Covered(ids, b) && AllFit(b.stops, xs) && AllFit(b.stops, ys)
    ensures AllFit(b.stops, xs + ys)
    ensures EmitAll(ids, b, wait, g, info, xs + ys)
         == EmitAll(ids, b, wait, EmitAll(ids, b, wait, g, info, xs).graph, EmitAll(ids, b, wait, g, info, xs).info, ys)
  {
    AllFitAppend(b.stops, xs, ys);
    var p := EmitAll(ids, b, wait, g, info, xs);
    EmitAppend(ids, b, wait, g, info, xs, ys, p.graph, p.info, |xs| + |ys|, |ys|);
  }

  /** Adding a list of one ride is adding that ride. */
  lemma EmitOne(ids: map<string, nat>, b: BusRoute, wait: real, g: Graph, info: map<nat, EdgeInfo>, r: Ride)
    requires Covered(ids, b) && Fits(b.stops, r)
    ensures AllFit(b.stops, [r])
    ensures EmitAll(ids, b, wait, g, info, [r]) == Step(ids, b, wait, Built(g, info), r)
  {
    assert Emit(ids, b, wait, g, info, [r], 0) == Built(g, info);
  }

  /** One more block of a row: adding the row's first t blocks, then the
      block's shortcuts, then its last ride, is adding the first t + 1
      blocks. */
  lemma EmitBlock(ids: map<string, nat>, b: BusRoute, wait: real, g: Graph, info: map<nat, EdgeInfo>,
                  blocks: seq<seq<Ride>>, t: nat, shortcuts: seq<Ride>, r: Ride, g1: Graph, info1: map<nat, EdgeInfo>)
    requires Covered(ids, b) && t < |blocks| && blocks[t] == shortcuts + [r]
    requires AllFit(b.stops, Concat(blocks[..t])) && AllFit(b.stops, shortcuts) && Fits(b.stops, r)
    requires Built(g1, info1) == EmitAll(ids, b, wait, EmitAll(ids, b, wait, g, info, Concat(blocks[..t])).graph,
                                    EmitAll(ids, b, wait, g, info, Concat(blocks[..t])).info, shortcuts)
    ensures AllFit(b.stops, Concat(blocks[..t + 1]))
    ensures Step(ids, b, wait, Built(g1, info1), r) == EmitAll(ids, b, wait, g, info, Concat(blocks[..t + 1]))
  {
    var p := EmitAll(ids, b, wait, g, info, Concat(blocks[..t]));
    EmitOne(ids, b, wait, g1, info1, r);
    EmitThen(ids, b, wait, p.graph, p.info, shortcuts, [r]);
    EmitThen(ids, b, wait, g, info, Concat(blocks[..t]), blocks[t]);
    ConcatSnoc(blocks, t);
  }

  /** Adding the first n + 1 rides is adding the first n, then ride n. */
  lemma EmitNext(ids: map<string, nat>, b: BusRoute, wait: real, g: Graph, info: map<nat, EdgeInfo>,
                 xs: seq<Ride>, n: nat, p: Built)
    requires Covered(ids, b) && AllFit(b.stops, xs) && n < |xs| && p == Emit(ids, b, wait, g, info, xs, n)
    ensures Emit(ids, b, wait, g, info, xs, n + 1) == Step(ids, b, wait, p, xs[n])
  {
  }

  /** Adding no ride changes nothing. */
  lemma EmitNone(ids: map<string, nat>, b: BusRoute, wait: real, g: Graph, info: map<nat, EdgeInfo>)
    requires Covered(ids, b)
    ensures AllFit(b.stops, []) && EmitAll(ids, b, wait, g, info, []) == Built(g, info)
  {
  }

  // ------------------------------------------------------------ one bus

  /** `CreateEdge`: the edge from stop `from` to stop `to` of the bus; the
      running weight grows by the riding time of the hop into `to`: from
      the stop before it going forward, from the stop after it going
      back. */
  function CreateEdge(ids: map<string, nat>, b: BusRoute, weight: real, from: nat, to: nat, straight: bool)
    : (r: (Edge, real))
    requires Covered(ids, b) && from < |b.stops|
    requires if straight then 0 < to < |b.stops| else to + 1 < |b.stops|
    ensures r.1 == weight + (if straight then b.fwd[to - 1] else b.bwd[to])
    ensures r.0 == Edge(ids[b.stops[from]], ids[b.stops[to]], r.1)
  {
    var newWeight := weight + (if straight then b.fwd[to - 1] else b.bwd[to]);
    (Edge(ids[b.stops[from]], ids[b.stops[to]], newWeight), newWeight)
  }

  /** `CountEdgeInfo`: the record of a ride whose edge has this weight;
      the caller fills in the span. */
  function CountEdgeInfo(b: BusRoute, wait: real, weight: real, from: nat, to: nat): (info: EdgeInfo)
    requires from < |b.stops| && to < |b.stops|
    ensures info.time + wait == weight && info.spanCount == 0
    ensures info.nameBus == b.name && info.stopFrom == b.stops[from] && info.stopTo == b.stops[to]
  {
    NewEdgeInfo.(nameBus := b.name, time := weight - wait, stopFrom := b.stops[from], stopTo := b.stops[to])
  }

  /** One forward hop more: the edge and the record the loops build for
      the ride from `from` to `to` boarded at `boarded`, out of the weight
      so far, are the ride's. */
  lemma FwdRideStep(ids: map<string, nat>, b: BusRoute, wait: real, weight: real, from: nat, to: nat, boarded: nat)
    requires Covered(ids, b) && from <= boarded < to < |b.stops|
    requires weight == wait + Sum(b.fwd, boarded, to - 1)
    ensures Fits(b.stops, Ride(from, to, boarded))
    ensures CreateEdge(ids, b, weight, from, to, true).1 == wait + Sum(b.fwd, boarded, to)
    ensures CreateEdge(ids, b, weight, from, to, true).0 == RideEdge(ids, b, wait, Ride(from, to, boarded))
    ensures CountEdgeInfo(b, wait, CreateEdge(ids, b, weight, from, to, true).1, from, to).(spanCount := to - boarded)
         == RideInfo(b, wait, Ride(from, to, boarded))
  {
    SumStep(b.fwd, boarded, to - 1);
  }

  /** One backward hop more, the mirror image. */
  lemma RevRideStep(ids: map<string, nat>, b: BusRoute, wait: real, weight: real, from: nat, to: nat, boarded: nat)
    requires Covered(ids, b) && to < boarded <= from < |b.stops|
    requires weight == wait + Sum(b.bwd, to + 1, boarded)
    ensures Fits(b.stops, Ride(from, to, boarded))
    ensures CreateEdge(ids, b, weight, from, to, false).1 == wait + Sum(b.bwd, to, boarded)
    ensures CreateEdge(ids, b, weight, from, to, false).0 == RideEdge(ids, b, wait, Ride(from, to, boarded))
    ensures CountEdgeInfo(b, wait, CreateEdge(ids, b, weight, from, to, false).1, from, to).(spanCount := boarded - to)
         == RideInfo(b, wait, Ride(from, to, boarded))
  {
    SumFromBelow(b.bwd, to, boarded);
  }

  /** The body the four loops share, going forward: the edge of the ride
      from `from` to `to` boarded at `boarded` is created out of the weight
      so far and added to the graph, its record stored under the new id. */
  method AddFwdRide(ids: map<string, nat>, b: BusRoute, wait: real, weight: real, from: nat, to: nat, boarded: nat,
                    g: Graph, info: map<nat, EdgeInfo>)
    returns (weight': real, g': Graph, info': map<nat, EdgeInfo>)
    requires Covered(ids, b) && from <= boarded < to < |b.stops|
    requires weight == wait + Sum(b.fwd, boarded, to - 1)
    ensures Fits(b.stops, Ride(from, to, boarded))
    ensures weight' == wait + Sum(b.fwd, boarded, to)
    ensures Built(g', info') == Step(ids, b, wait, Built(g, info), Ride(from, to, boarded))
  {
    FwdRideStep(ids, b, wait, weight, from, to, boarded);
    var created := CreateEdge(ids, b, weight, from, to, true);
    weight' := created.1;
    var edgeInfo := CountEdgeInfo(b, wait, weight', from, to).(spanCount := to - boarded);
    var added := AddEdge(g, created.0);
    g' := added.0;
    info' := info[added.1 := edgeInfo];
  }

  /** The same, going back. */
  method AddRevRide(ids: map<string, nat>, b: BusRoute, wait: real, weight: real, from: nat, to: nat, boarded: nat,
                    g: Graph, info: map<nat, EdgeInfo>)
    returns (weight': real, g': Graph, info': map<nat, EdgeInfo>)
    requires Covered(ids, b) && to < boarded <= from < |b.stops|
    requires weight == wait + Sum(b.bwd, to + 1, boarded)
    ensures Fits(b.stops, Ride(from, to, boarded))
    ensures weight' == wait + Sum(b.bwd, to, boarded)
    ensures Built(g', info') == Step(ids, b, wait, Built(g, info), Ride(from, to, boarded))
  {
    RevRideStep(ids, b, wait, weight, from, to, boarded);
    var created := CreateEdge(ids, b, weight, from, to, false);
    weight' := created.1;
    var edgeInfo := CountEdgeInfo(b, wait, weight', from, to).(spanCount := boarded - to);
    var added := AddEdge(g, created.0);
    g' := added.0;
    info' := info[added.1 := edgeInfo];
  }

  /** The innermost forward loop: stop i recurs at position j; the rides
      from i to every later position k, boarded at j, the weight starting
      again from the wait. */
  method AddFwdShortcuts(ids: map<string, nat>, b: BusRoute, wait: real, g: Graph, info: map<nat, EdgeInfo>,
                         i: nat, j: nat)
    returns (g': Graph, info': map<nat, EdgeInfo>)
    requires Covered(ids, b) && i < j < |b.stops|
    ensures AllFit(b.stops, FwdShortcuts(b.stops, i, j))
    ensures Built(g', info') == EmitAll(ids, b, wait, g, info, FwdShortcuts(b.stops, i, j))
  {
    var s := b.stops;
    ghost var xs := FwdShortcuts(s, i, j);
    assert AllFit(s, xs);
    g', info' := g, info;
    var weight := wait;
    var k := j + 1;
    ghost var n := 0;
    while k < |s|
      invariant j + 1 <= k <= |s| && n + j + 1 == k
      invariant weight == wait + Sum(b.fwd, j, k - 1)
      invariant Built(g', info') == Emit(ids, b, wait, g, info, xs, n)
      decreases |s| - k
    {
      assert xs[n] == Ride(i, k, j);
      EmitNext(ids, b, wait, g, info, xs, n, Built(g', info'));
      weight, g', info' := AddFwdRide(ids, b, wait, weight, i, k, j, g', info');
      n := n + 1;
      k := k + 1;
    }
    assert n == |xs|;
  }

  /** One step of the walk from i: after the first t blocks and, when
      stop i recurs at j, the shortcuts from j, the edge and the record of
      the ride i -> j complete block t. */
  lemma FwdRowStep(ids: map<string, nat>, b: BusRoute, wait: real, g: Graph, info: map<nat, EdgeInfo>,
                   i: nat, j: nat, t: nat, g1: Graph, info1: map<nat, EdgeInfo>)
    requires Covered(ids, b) && i < j < |b.stops| && i + t + 1 == j
    requires AllFit(b.stops, Concat(FwdBlocks(b.stops, i)[..t]))
    requires var p := EmitAll(ids, b, wait, g, info, Concat(FwdBlocks(b.stops, i)[..t]));
             if b.stops[i] == b.stops[j]
             then AllFit(b.stops, FwdShortcuts(b.stops, i, j)) && Built(g1, info1) == EmitAll(ids, b, wait, p.graph, p.info, FwdShortcuts(b.stops, i, j))
             else Built(g1, info1) == p
    ensures AllFit(b.stops, Concat(FwdBlocks(b.stops, i)[..t + 1]))
    ensures Step(ids, b, wait, Built(g1, info1), Ride(i, j, i)) == EmitAll(ids, b, wait, g, info, Concat(FwdBlocks(b.stops, i)[..t + 1]))
  {
    var s := b.stops;
    var blocks := FwdBlocks(s, i);
    var shortcuts := if s[i] == s[j] then FwdShortcuts(s, i, j) else [];
    var p := EmitAll(ids, b, wait, g, info, Concat(blocks[..t]));
    EmitNone(ids, b, wait, p.graph, p.info);
    assert AllFit(s, shortcuts);
    assert blocks[t] == shortcuts + [Ride(i, j, i)];
    EmitBlock(ids, b, wait, g, info, blocks, t, shortcuts, Ride(i, j, i), g1, info1);
  }

  /** One step of the walk down from i, the mirror image. */
  lemma RevRowStep(ids: map<string, nat>, b: BusRoute, wait: real, g: Graph, info: map<nat, EdgeInfo>,
                   i: nat, j: nat, t: nat, g1: Graph, info1: map<nat, EdgeInfo>)
    requires Covered(ids, b) && j < i < |b.stops| && j + t + 1 == i
    requires AllFit(b.stops, Concat(RevBlocks(b.stops, i)[..t]))
    requires var p := EmitAll(ids, b, wait, g, info, Concat(RevBlocks(b.stops, i)[..t]));
             if b.stops[i] == b.stops[j]
             then AllFit(b.stops, RevShortcuts(i, j)) && Built(g1, info1) == EmitAll(ids, b, wait, p.graph, p.info, RevShortcuts(i, j))
             else Built(g1, info1) == p
    ensures AllFit(b.stops, Concat(RevBlocks(b.stops, i)[..t + 1]))
    ensures Step(ids, b, wait, Built(g1, info1), Ride(i, j, i)) == EmitAll(ids, b, wait, g, info, Concat(RevBlocks(b.stops, i)[..t + 1]))
  {
    var s := b.stops;
    var blocks := RevBlocks(s, i);
    var shortcuts := if s[i] == s[j] then RevShortcuts(i, j) else [];
    var p := EmitAll(ids, b, wait, g, info, Concat(blocks[..t]));
    EmitNone(ids, b, wait, p.graph, p.info);
    assert AllFit(s, shortcuts);
    assert blocks[t] == shortcuts + [Ride(i, j, i)];
    EmitBlock(ids, b, wait, g, info, blocks, t, shortcuts, Ride(i, j, i), g1, info1);
  }

  /** The walk from position i (the middle forward loop): for every later
      position j, the shortcuts when stop i recurs at j, then the ride
      i -> j, the weight growing hop by hop from the wait. */
  method AddFwdRow(ids: map<string, nat>, b: BusRoute, wait: real, g: Graph, info: map<nat, EdgeInfo>, i: nat)
    returns (g': Graph, info': map<nat, EdgeInfo>)
    requires Covered(ids, b) && i + 1 < |b.stops|
    ensures AllFit(b.stops, FwdRow(b.stops, i))
    ensures Built(g', info') == EmitAll(ids, b, wait, g, info, FwdRow(b.stops, i))
  {
    var s := b.stops;
    ghost var blocks := FwdBlocks(s, i);
    g', info' := g, info;
    var weight := wait;
    var j := i + 1;
    ghost var t := 0;
    assert Concat(blocks[..0]) == [];
    while j < |s|
      invariant i + 1 <= j <= |s| && i + t + 1 == j
      invariant weight == wait + Sum(b.fwd, i, j - 1)
      invariant AllFit(s, Concat(blocks[..t]))
      invariant Built(g', info') == EmitAll(ids, b, wait, g, info, Concat(blocks[..t]))
      decreases |s| - j
    {
      if s[i] == s[j] {
        g', info' := AddFwdShortcuts(ids, b, wait, g', info', i, j);
      }
      FwdRowStep(ids, b, wait, g, info, i, j, t, g', info');
      weight, g', info' := AddFwdRide(ids, b, wait, weight, i, j, i, g', info');
      t := t + 1;
      j := j + 1;
    }
    assert blocks[..t] == blocks;
  }

  /** The forward pass (the outer forward loop): the walk from every
      position but the last. */
  method AddFwdPass(ids: map<string, nat>, b: BusRoute, wait: real, g: Graph, info: map<nat, EdgeInfo>)
    returns (g': Graph, info': map<nat, EdgeInfo>)
    requires Covered(ids, b)
    ensures AllFit(b.stops, FwdPass(b.stops))
    ensures Built(g', info') == EmitAll(ids, b, wait, g, info, FwdPass(b.stops))
  {
    var s := b.stops;
    ghost var rows := FwdRows(s);
    g', info' := g, info;
    var i := 0;
    assert Concat(rows[..0]) == [];
    while i + 1 < |s|
      invariant i < |s| && i <= |rows|
      invariant AllFit(s, Concat(rows[..i]))
      invariant Built(g', info') == EmitAll(ids, b, wait, g, info, Concat(rows[..i]))
      decreases |s| - i
    {
      g', info' := AddFwdRow(ids, b, wait, g', info', i);
      EmitThen(ids, b, wait, g, info, Concat(rows[..i]), rows[i]);
      ConcatSnoc(rows, i);
      i := i + 1;
    }
    assert rows[..i] == rows;
  }

  /** The innermost reverse loop: stop i recurs at position j < i; the
      rides from i down to every earlier position k, boarded at j, the
      weight starting again from the wait. */
  method AddRevShortcuts(ids: map<string, nat>, b: BusRoute, wait: real, g: Graph, info: map<nat, EdgeInfo>,
                         i: nat, j: nat)
    returns (g': Graph, info': map<nat, EdgeInfo>)
    requires Covered(ids, b) && j < i < |b.stops|
    ensures AllFit(b.stops, RevShortcuts(i, j))
    ensures Built(g', info') == EmitAll(ids, b, wait, g, info, RevShortcuts(i, j))
  {
    var s := b.stops;
    ghost var xs := RevShortcuts(i, j);
    assert AllFit(s, xs);
    g', info' := g, info;
    var weight := wait;
    var k: int := j - 1;
    ghost var n := 0;
    while k + 1 > 0
      invariant -1 <= k < j && n + k + 1 == j
      invariant weight == wait + Sum(b.bwd, k + 1, j)
      invariant Built(g', info') == Emit(ids, b, wait, g, info, xs, n)
      decreases k
    {
      assert xs[n] == Ride(i, k, j);
      EmitNext(ids, b, wait, g, info, xs, n, Built(g', info'));
      weight, g', info' := AddRevRide(ids, b, wait, weight, i, k, j, g', info');
      n := n + 1;
      k := k - 1;
    }
    assert n == |xs|;
  }

  /** The walk down from position i (the middle reverse loop): for every
      earlier position j, the shortcuts when stop i recurs at j, then the
      ride i -> j. */
  method AddRevRow(ids: map<string, nat>, b: BusRoute, wait: real, g: Graph, info: map<nat, EdgeInfo>, i: nat)
    returns (g': Graph, info': map<nat, EdgeInfo>)
    requires Covered(ids, b) && 0 < i < |b.stops|
    ensures AllFit(b.stops, RevRow(b.stops, i))
    ensures Built(g', info') == EmitAll(ids, b, wait, g, info, RevRow(b.stops, i))
  {
    var s := b.stops;
    ghost var blocks := RevBlocks(s, i);
    g', info' := g, info;
    var weight := wait;
    var j: int := i - 1;
    ghost var t := 0;
    assert Concat(blocks[..0]) == [];
    while j + 1 > 0
      invariant -1 <= j < i && t + j + 1 == i
      invariant weight == wait + Sum(b.bwd, j + 1, i)
      invariant AllFit(s, Concat(blocks[..t]))
      invariant Built(g', info') == EmitAll(ids, b, wait, g, info, Concat(blocks[..t]))
      decreases j
    {
      if s[i] == s[j] {
        g', info' := AddRevShortcuts(ids, b, wait, g', info', i, j);
      }
      RevRowStep(ids, b, wait, g, info, i, j, t, g', info');
      weight, g', info' := AddRevRide(ids, b, wait, weight, i, j, i, g', info');
      t := t + 1;
      j := j - 1;
    }
    assert blocks[..t] == blocks;
  }

  /** The reverse pass (the outer reverse loop): the walk down from every
      position but the first, from the last one down. */
  method AddRevPass(ids: map<string, nat>, b: BusRoute, wait: real, g: Graph, info: map<nat, EdgeInfo>)
    returns (g': Graph, info': map<nat, EdgeInfo>)
    requires Covered(ids, b)
    ensures AllFit(b.stops, RevPass(b.stops))
    ensures Built(g', info') == EmitAll(ids, b, wait, g, info, RevPass(b.stops))
  {
    var s := b.stops;
    ghost var rows := RevRows(s);
    g', info' := g, info;
    var i := |s| - 1;
    ghost var t := 0;
    assert |rows| == |s| - 1;
    assert Concat(rows[..0]) == [];
    while i > 0
      invariant 0 <= i < |s| && t + i + 1 == |s|
      invariant AllFit(s, Concat(rows[..t]))
      invariant Built(g', info') == EmitAll(ids, b, wait, g, info, Concat(rows[..t]))
      decreases i
    {
      g', info' := AddRevRow(ids, b, wait, g', info', i);
      EmitThen(ids, b, wait, g, info, Concat(rows[..t]), rows[t]);
      ConcatSnoc(rows, t);
      t := t + 1;
      i := i - 1;
    }
    assert rows[..t] == rows;
  }

  /** Everything one bus contributes: the forward pass, then, for a
      linear bus, the reverse pass. */
  method AddBusEdges(ids: map<string, nat>, b: BusRoute, wait: real, g: Graph, info: map<nat, EdgeInfo>)
    returns (g': Graph, info': map<nat, EdgeInfo>)
    requires Covered(ids, b)
    ensures AllFit(b.stops, BusRides(b.stops, b.circular))
    ensures Built(g', info') == EmitAll(ids, b, wait, g, info, BusRides(b.stops, b.circular))
  {
    g', info' := AddFwdPass(ids, b, wait, g, info);
    if !b.circular {
      g', info' := AddRevPass(ids, b, wait, g', info');
      EmitThen(ids, b, wait, g, info, FwdPass(b.stops), RevPass(b.stops));
    } else {
      assert BusRides(b.stops, true) == FwdPass(b.stops);
    }
  }


  // ------------------------------------------------------------ all buses

  /** Every ride a bus offers fits its route. */
  lemma BusRidesFit(s: seq<string>, circular: bool)
    ensures AllFit(s, BusRides(s, circular))
  {
    var xs := BusRides(s, circular);
    forall t | 0 <= t < |xs| ensures Fits(s, xs[t]) {
      BusRidesExactly(s, circular, xs[t]);
    }
  }

  /** Every stop of every bus has an id, and each bus comes with a list of
      rides that fit its route. */
  predicate Emittable(ids: map<string, nat>, buses: seq<BusRoute>, rides: seq<seq<Ride>>)
  {
    && |rides| == |buses|
    && (forall k | 0 <= k < |buses| :: Covered(ids, buses[k]))
    && (forall k | 0 <= k < |buses| :: AllFit(buses[k].stops, rides[k]))
  }

  /** The rides each bus offers, bus by bus. */
  function RidesOf(buses: seq<BusRoute>): (r: seq<seq<Ride>>)
    ensures |r| == |buses|
    ensures forall k | 0 <= k < |buses| :: r[k] == BusRides(buses[k].stops, buses[k].circular)
  {
    seq(|buses|, k requires 0 <= k < |buses| => BusRides(buses[k].stops, buses[k].circular))
  }

  /** The routes of the buses named, in the order named. */
  function Routes(st: State, geo: GeoDistance, velocity: real, names: seq<string>): (r: seq<BusRoute>)
    requires forall k | 0 <= k < |names| :: IsRoutable(st, names[k])
    requires velocity != 0.0
    ensures |r| == |names|
    ensures forall k | 0 <= k < |names| :: r[k] == RouteOf(st, geo, velocity, names[k])
  {
    seq(|names|, k requires 0 <= k < |names| => RouteOf(st, geo, velocity, names[k]))
  }

  /** In a well-formed catalogue whose working stops all have ids, every
      working bus can be routed, every stop of it has an id, and its rides
      fit it. */
  lemma WorkingBusesCovered(st: State, ids: map<string, nat>, names: seq<string>, geo: GeoDistance, velocity: real)
    requires WellFormed(st) && (forall x :: IsWorkingStop(st, x) ==> x in ids)
    requires (forall k | 0 <= k < |names| :: IsWorkingBus(st, names[k])) && velocity != 0.0
    ensures forall k | 0 <= k < |names| :: IsRoutable(st, names[k])
    ensures Emittable(ids, Routes(st, geo, velocity, names), RidesOf(Routes(st, geo, velocity, names)))
  {
    forall k | 0 <= k < |names| ensures IsRoutable(st, names[k]) {
      forall s | s in st.buses[names[k]].stops ensures s in st.stops {
        RouteStopsAreWorking(st, names[k], s);
      }
    }
    var r := Routes(st, geo, velocity, names);
    forall k | 0 <= k < |names| ensures Covered(ids, r[k]) && AllFit(r[k].stops, RidesOf(r)[k]) {
      var s := r[k].stops;
      forall t | 0 <= t < |s| ensures s[t] in ids {
        RouteStopsAreWorking(st, names[k], s[t]);
      }
      BusRidesFit(s, r[k].circular);
    }
  }

  /** The graph and the records after the rides of the first n buses are
      added, bus after bus. */
  function Network(ids: map<string, nat>, buses: seq<BusRoute>, rides: seq<seq<Ride>>, wait: real,
                   g: Graph, info: map<nat, EdgeInfo>, n: nat): (r: Built)
    requires Emittable(ids, buses, rides) && n <= |buses|
    ensures r.graph.vertexCount == g.vertexCount && |g.edges| <= |r.graph.edges|
    decreases n
  {
    if n == 0 then Built(g, info)
    else
      var p := Network(ids, buses, rides, wait, g, info, n - 1);
      EmitAll(ids, buses[n - 1], wait, p.graph, p.info, rides[n - 1])
  }

  /** `CreateGraph`'s loop over the buses: the rides of each bus, in turn,
      added to g and info. */
  method AddBuses(ids: map<string, nat>, buses: seq<BusRoute>, wait: real, g: Graph, info: map<nat, EdgeInfo>)
    returns (g': Graph, info': map<nat, EdgeInfo>)
    requires Emittable(ids, buses, RidesOf(buses))
    ensures Built(g', info') == Network(ids, buses, RidesOf(buses), wait, g, info, |buses|)
  {
    g', info' := g, info;
    var n := 0;
    while n < |buses|
      invariant n <= |buses|
      invariant Built(g', info') == Network(ids, buses, RidesOf(buses), wait, g, info, n)
    {
      g', info' := AddBusEdges(ids, buses[n], wait, g', info');
      n := n + 1;
    }
  }

  /** What the record of an edge tells about it: the edge joins the
      vertices of the record's two stops, weighs the wait plus the riding
      time, spans at least one hop, and belongs to one of the buses. */
  predicate Explains(ids: map<string, nat>, wait: real, busNames: set<string>, e: Edge, rec: EdgeInfo)
  {
    && rec.stopFrom in ids && rec.stopTo in ids
    && e.from == ids[rec.stopFrom] && e.to == ids[rec.stopTo]
    && e.weight == wait + rec.time
    && rec.spanCount >= 1
    && rec.nameBus in busNames
  }

  /** The record of a ride explains the ride's edge. */
  lemma RideExplained(ids: map<string, nat>, b: BusRoute, wait: real, busNames: set<string>, r: Ride)
    requires Covered(ids, b) && b.name in busNames && (IsFwdRide(b.stops, r) || IsRevRide(b.stops, r))
    ensures Fits(b.stops, r)
    ensures Explains(ids, wait, busNames, RideEdge(ids, b, wait, r), RideInfo(b, wait, r))
  {
  }

  /** What adding rides does to the graph and the records: the records are
      the old ones plus one per new edge, every new edge is explained by
      its record, and nothing old changes. */
  ghost predicate Extends(ids: map<string, nat>, wait: real, busNames: set<string>,
                          g: Graph, info: map<nat, EdgeInfo>, r: Built)
  {
    && |g.edges| <= |r.graph.edges|
    && (forall id :: id in r.info <==> id in info || |g.edges| <= id < |r.graph.edges|)
    && (forall id | |g.edges| <= id < |r.graph.edges| ::
          id in r.info && Explains(ids, wait, busNames, r.graph.edges[id], r.info[id]))
    && (forall id | 0 <= id < |g.edges| :: r.graph.edges[id] == g.edges[id])
    && (forall id | id in info && !(|g.edges| <= id < |r.graph.edges|) :: r.info[id] == info[id])
  }

  /** Adding the rides of one bus extends the graph and the records. */
  lemma BusExplained(ids: map<string, nat>, b: BusRoute, wait: real, busNames: set<string>,
                     g: Graph, info: map<nat, EdgeInfo>, xs: seq<Ride>)
    requires Covered(ids, b) && b.name in busNames && xs == BusRides(b.stops, b.circular) && AllFit(b.stops, xs)
    ensures Extends(ids, wait, busNames, g, info, EmitAll(ids, b, wait, g, info, xs))
  {
    BusKeys(ids, b, wait, g, info, xs);
    BusNewExplained(ids, b, wait, busNames, g, info, xs);
    BusOldKept(ids, b, wait, g, info, xs);
  }

  /** The records after one bus are the old ones and one per new edge. */
  lemma BusKeys(ids: map<string, nat>, b: BusRoute, wait: real, g: Graph, info: map<nat, EdgeInfo>, xs: seq<Ride>)
    requires Covered(ids, b) && AllFit(b.stops, xs)
    ensures var r := EmitAll(ids, b, wait, g, info, xs);
            forall id: nat :: id in r.info <==> id in info || |g.edges| <= id < |r.graph.edges|
  {
    var r := EmitAll(ids, b, wait, g, info, xs);
    forall id: nat ensures id in r.info <==> id in info || |g.edges| <= id < |r.graph.edges| {
      EmitAt(ids, b, wait, g, info, xs, |xs|, id);
    }
  }

  /** Every edge one bus adds is explained by its record. */
  lemma BusNewExplained(ids: map<string, nat>, b: BusRoute, wait: real, busNames: set<string>,
                        g: Graph, info: map<nat, EdgeInfo>, xs: seq<Ride>)
    requires Covered(ids, b) && b.name in busNames && xs == BusRides(b.stops, b.circular) && AllFit(b.stops, xs)
    ensures var r := EmitAll(ids, b, wait, g, info, xs);
            forall id | |g.edges| <= id < |r.graph.edges| ::
              id in r.info && Explains(ids, wait, busNames, r.graph.edges[id], r.info[id])
  {
    var r := EmitAll(ids, b, wait, g, info, xs);
    forall id | |g.edges| <= id < |r.graph.edges|
      ensures id in r.info && Explains(ids, wait, busNames, r.graph.edges[id], r.info[id])
    {
      EmitAt(ids, b, wait, g, info, xs, |xs|, id);
      BusRidesExactly(b.stops, b.circular, xs[id - |g.edges|]);
      RideExplained(ids, b, wait, busNames, xs[id - |g.edges|]);
    }
  }

  /** One bus leaves the old edges and the old records as they were. */
  lemma BusOldKept(ids: map<string, nat>, b: BusRoute, wait: real, g: Graph, info: map<nat, EdgeInfo>, xs: seq<Ride>)
    requires Covered(ids, b) && AllFit(b.stops, xs)
    ensures var r := EmitAll(ids, b, wait, g, info, xs);
            && (forall id | 0 <= id < |g.edges| :: r.graph.edges[id] == g.edges[id])
            && (forall id | id in info && !(|g.edges| <= id < |r.graph.edges|) :: id in r.info && r.info[id] == info[id])
  {
    var r := EmitAll(ids, b, wait, g, info, xs);
    forall id | 0 <= id < |g.edges| ensures r.graph.edges[id] == g.edges[id] {
      EmitAt(ids, b, wait, g, info, xs, |xs|, id);
    }
    forall id | id in info && !(|g.edges| <= id < |r.graph.edges|) ensures id in r.info && r.info[id] == info[id] {
      EmitAt(ids, b, wait, g, info, xs, |xs|, id);
    }
  }

  /** Extending an extension is an extension. */
  lemma ExtendsTwice(ids: map<string, nat>, wait: real, busNames: set<string>,
                     g: Graph, info: map<nat, EdgeInfo>, p: Built, r: Built)
    requires Extends(ids, wait, busNames, g, info, p) && Extends(ids, wait, busNames, p.graph, p.info, r)
    ensures Extends(ids, wait, busNames, g, info, r)
  {
  }

  /** Soundness of the network: every edge it adds is explained by its
      record, and nothing old changes. */
  lemma {:induction false} NetworkExplained(ids: map<string, nat>, buses: seq<BusRoute>, wait: real,
                                            busNames: set<string>, g: Graph, info: map<nat, EdgeInfo>, n: nat)
    requires Emittable(ids, buses, RidesOf(buses)) && n <= |buses|
    requires forall k | 0 <= k < |buses| :: buses[k].name in busNames
    ensures Extends(ids, wait, busNames, g, info, Network(ids, buses, RidesOf(buses), wait, g, info, n))
    decreases n, 1
  {
    if n > 0 {
      NetworkExplainedAfter(ids, buses, wait, busNames, g, info, n);
    }
  }

  /** The network after n > 0 buses: the network after n - 1 buses, then
      the rides of bus n. */
  lemma NetworkExplainedAfter(ids: map<string, nat>, buses: seq<BusRoute>, wait: real,
                                                 busNames: set<string>, g: Graph, info: map<nat, EdgeInfo>, n: nat)
    requires Emittable(ids, buses, RidesOf(buses)) && 0 < n <= |buses|
    requires forall k | 0 <= k < |buses| :: buses[k].name in busNames
    ensures Extends(ids, wait, busNames, g, info, Network(ids, buses, RidesOf(buses), wait, g, info, n))
    decreases n, 0
  {
    NetworkExplained(ids, buses, wait, busNames, g, info, n - 1);
    NetworkStepExplained(ids, buses, wait, busNames, g, info, n);
  }

  /** Adding the rides of bus n to an extension is an extension. */
  lemma NetworkStepExplained(ids: map<string, nat>, buses: seq<BusRoute>, wait: real,
                             busNames: set<string>, g: Graph, info: map<nat, EdgeInfo>, n: nat)
    requires Emittable(ids, buses, RidesOf(buses)) && 0 < n <= |buses|
    requires buses[n - 1].name in busNames
    ensures Extends(ids, wait, busNames, g, info, Network(ids, buses, RidesOf(buses), wait, g, info, n - 1))
            ==> Extends(ids, wait, busNames, g, info, Network(ids, buses, RidesOf(buses), wait, g, info, n))
  {
    var p := Network(ids, buses, RidesOf(buses), wait, g, info, n - 1);
    var xs := RidesOf(buses)[n - 1];
    BusExplained(ids, buses[n - 1], wait, busNames, p.graph, p.info, xs);
    if Extends(ids, wait, busNames, g, info, p) {
      ExtendsTwice(ids, wait, busNames, g, info, p, EmitAll(ids, buses[n - 1], wait, p.graph, p.info, xs));
    }
  }

  /** The graph has edge e under this id, and rec is recorded beside it. */
  predicate HasEdge(p: Built, id: nat, e: Edge, rec: EdgeInfo)
  {
    id < |p.graph.edges| && id in p.info && p.graph.edges[id] == e && p.info[id] == rec
  }

  /** Ride t of xs lands at id |g.edges| + t. */
  lemma EmitAllHas(ids: map<string, nat>, b: BusRoute, wait: real, g: Graph, info: map<nat, EdgeInfo>,
                   xs: seq<Ride>, t: nat)
    requires Covered(ids, b) && AllFit(b.stops, xs) && t < |xs|
    ensures HasEdge(EmitAll(ids, b, wait, g, info, xs), |g.edges| + t,
                    RideEdge(ids, b, wait, xs[t]), RideInfo(b, wait, xs[t]))
  {
    EmitAt(ids, b, wait, g, info, xs, |xs|, |g.edges| + t);
  }

  /** Adding rides keeps what an old edge id holds. */
  lemma EmitAllKeeps(ids: map<string, nat>, b: BusRoute, wait: real, p: Built, xs: seq<Ride>,
                     id: nat, e: Edge, rec: EdgeInfo)
    requires Covered(ids, b) && AllFit(b.stops, xs) && HasEdge(p, id, e, rec)
    ensures HasEdge(EmitAll(ids, b, wait, p.graph, p.info, xs), id, e, rec)
  {
    EmitAt(ids, b, wait, p.graph, p.info, xs, |xs|, id);
  }

  /** Completeness of the network: ride t of bus k is an edge, at the id
      that follows the edges of the buses before it, with its record
      beside it. */
  lemma {:induction false} NetworkComplete(ids: map<string, nat>, buses: seq<BusRoute>, rides: seq<seq<Ride>>,
                                           wait: real, g: Graph, info: map<nat, EdgeInfo>, n: nat, k: nat, t: nat)
    requires Emittable(ids, buses, rides) && k < n <= |buses| && t < |rides[k]|
    ensures Fits(buses[k].stops, rides[k][t])
    ensures HasEdge(Network(ids, buses, rides, wait, g, info, n),
                    |Network(ids, buses, rides, wait, g, info, k).graph.edges| + t,
                    RideEdge(ids, buses[k], wait, rides[k][t]), RideInfo(buses[k], wait, rides[k][t]))
    decreases n, 1
  {
    assert Covered(ids, buses[k]) && AllFit(buses[k].stops, rides[k]);
    if n == k + 1 {
      var p := Network(ids, buses, rides, wait, g, info, k);
      assert Network(ids, buses, rides, wait, g, info, n) == EmitAll(ids, buses[k], wait, p.graph, p.info, rides[k]);
      EmitAllHas(ids, buses[k], wait, p.graph, p.info, rides[k], t);
    } else {
      NetworkCompleteAfter(ids, buses, rides, wait, g, info, n, k, t);
    }
  }

  /** The step of `NetworkComplete`: a later bus keeps the edge. */
  lemma NetworkCompleteAfter(ids: map<string, nat>, buses: seq<BusRoute>, rides: seq<seq<Ride>>,
                             wait: real, g: Graph, info: map<nat, EdgeInfo>, n: nat, k: nat, t: nat)
    requires Emittable(ids, buses, rides) && k + 1 < n <= |buses| && t < |rides[k]|
    ensures Fits(buses[k].stops, rides[k][t])
    ensures HasEdge(Network(ids, buses, rides, wait, g, info, n),
                    |Network(ids, buses, rides, wait, g, info, k).graph.edges| + t,
                    RideEdge(ids, buses[k], wait, rides[k][t]), RideInfo(buses[k], wait, rides[k][t]))
    decreases n, 0
  {
    NetworkComplete(ids, buses, rides, wait, g, info, n - 1, k, t);
    var p := Network(ids, buses, rides, wait, g, info, n - 1);
    assert Covered(ids, buses[n - 1]) && AllFit(buses[n - 1].stops, rides[n - 1]);
    assert Network(ids, buses, rides, wait, g, info, n) == EmitAll(ids, buses[n - 1], wait, p.graph, p.info, rides[n - 1]);
    var id := |Network(ids, buses, rides, wait, g, info, k).graph.edges| + t;
    EmitAllKeeps(ids, buses[n - 1], wait, p, rides[n - 1], id,
                 RideEdge(ids, buses[k], wait, rides[k][t]), RideInfo(buses[k], wait, rides[k][t]));
  }

  /** Every edge of the network joins two vertices, when the graph starts
      with one vertex per id and every id names a vertex. */
  lemma {:induction false} NetworkEndpoints(ids: map<string, nat>, buses: seq<BusRoute>, rides: seq<seq<Ride>>,
                                            wait: real, g: Graph, info: map<nat, EdgeInfo>, n: nat)
    requires Emittable(ids, buses, rides) && n <= |buses|
    requires IdsBelow(ids) && g.vertexCount == |ids| && EndpointsInRange(g)
    ensures EndpointsInRange(Network(ids, buses, rides, wait, g, info, n).graph)
    decreases n
  {
    if n > 0 {
      NetworkEndpoints(ids, buses, rides, wait, g, info, n - 1);
      var p := Network(ids, buses, rides, wait, g, info, n - 1);
      EmitKeepsEndpoints(ids, buses[n - 1], wait, p.graph, p.info, rides[n - 1], |rides[n - 1]|);
    }
  }

  // ------------------------------------------------------------ weights

  /** Every override and every geographic distance is non-negative. */
  ghost predicate DistancesNonNegative(st: State, geo: GeoDistance)
  {
    && (forall a, b | a in st.distances && b in st.distances[a] :: st.distances[a][b] >= 0)
    && (forall x, y :: geo(x, y) >= 0.0)
  }

  /** A non-negative distance at a positive velocity takes a non-negative
      time. */
  lemma RideTimeNonNegative(distance: real, velocity: real)
    requires distance >= 0.0 && velocity > 0.0
    ensures RideTime(distance, velocity) >= 0.0
  {
    assert velocity / 0.06 > 0.0;
  }

  /** Every hop of the route takes a non-negative time, both ways. */
  predicate HopsNonNegative(b: BusRoute)
  {
    && (forall t | 0 <= t < |b.fwd| :: b.fwd[t] >= 0.0)
    && (forall t | 0 <= t < |b.bwd| :: b.bwd[t] >= 0.0)
  }

  /** With non-negative distances and a positive velocity, every hop of a
      routable bus takes a non-negative time, both ways. */
  lemma RouteHopsNonNegative(st: State, geo: GeoDistance, velocity: real, name: string)
    requires IsRoutable(st, name) && velocity > 0.0 && DistancesNonNegative(st, geo)
    ensures HopsNonNegative(RouteOf(st, geo, velocity, name))
  {
    var b := RouteOf(st, geo, velocity, name);
    var s := b.stops;
    forall t | 0 <= t < |b.fwd| ensures b.fwd[t] >= 0.0 {
      FwdHopsAt(st, geo, velocity, s, |s| - 1, t);
      RideTimeNonNegative(Distance(st, geo, s[t], s[t + 1]), velocity);
    }
    forall t | 0 <= t < |b.bwd| ensures b.bwd[t] >= 0.0 {
      BwdHopsAt(st, geo, velocity, s, |s| - 1, t);
      RideTimeNonNegative(Distance(st, geo, s[t + 1], s[t]), velocity);
    }
  }

  /** No edge of the graph weighs less than the wait. */
  predicate WeighsAtLeast(g: Graph, wait: real)
  {
    forall id | 0 <= id < |g.edges| :: g.edges[id].weight >= wait
  }

  /** With non-negative hop times, the edge of a ride weighs at least the
      wait. */
  lemma RideWeightAtLeastWait(ids: map<string, nat>, b: BusRoute, wait: real, r: Ride)
    requires Covered(ids, b) && HopsNonNegative(b) && Fits(b.stops, r)
    ensures RideEdge(ids, b, wait, r).weight >= wait
  {
    WeightAtLeastWait(b.fwd, b.bwd, wait, r);
  }

  /** Adding the rides of a bus with non-negative hop times keeps every edge
      at least as heavy as the wait. */
  lemma {:induction false} EmitKeepsWeights(ids: map<string, nat>, b: BusRoute, wait: real, g: Graph,
                                            info: map<nat, EdgeInfo>, xs: seq<Ride>, n: nat)
    requires Covered(ids, b) && HopsNonNegative(b) && AllFit(b.stops, xs) && n <= |xs|
    requires WeighsAtLeast(g, wait)
    ensures WeighsAtLeast(Emit(ids, b, wait, g, info, xs, n).graph, wait)
    decreases n
  {
    if n > 0 {
      EmitKeepsWeights(ids, b, wait, g, info, xs, n - 1);
      var p := Emit(ids, b, wait, g, info, xs, n - 1);
      var e := RideEdge(ids, b, wait, xs[n - 1]);
      RideWeightAtLeastWait(ids, b, wait, xs[n - 1]);
      var q := AddEdge(p.graph, e).0;
      forall k | 0 <= k < |q.edges| ensures q.edges[k].weight >= wait {
        if k < |p.graph.edges| {
          assert q.edges[..|p.graph.edges|] == p.graph.edges;
          assert q.edges[k] == p.graph.edges[k];
        }
      }
    }
  }

  /** When every bus has non-negative hop times, no edge of the network
      weighs less than the wait. */
  lemma {:induction false} NetworkWeights(ids: map<string, nat>, buses: seq<BusRoute>, rides: seq<seq<Ride>>,
                                          wait: real, g: Graph, info: map<nat, EdgeInfo>, n: nat)
    requires Emittable(ids, buses, rides) && n <= |buses|
    requires (forall k | 0 <= k < |buses| :: HopsNonNegative(buses[k])) && WeighsAtLeast(g, wait)
    ensures WeighsAtLeast(Network(ids, buses, rides, wait, g, info, n).graph, wait)
    decreases n
  {
    if n > 0 {
      NetworkWeights(ids, buses, rides, wait, g, info, n - 1);
      var p := Network(ids, buses, rides, wait, g, info, n - 1);
      EmitKeepsWeights(ids, buses[n - 1], wait, p.graph, p.info, rides[n - 1], |rides[n - 1]|);
    }
  }


  /** With non-negative distances and a positive velocity, no edge of the
      graph the working buses build weighs less than the waiting time. */
  lemma BuiltWeightsAtLeastWait(st: State, geo: GeoDistance, velocity: real, wait: real,
                                ids: map<string, nat>, info: map<nat, EdgeInfo>, names: seq<string>)
    requires WellFormed(st) && (forall x :: IsWorkingStop(st, x) ==> x in ids)
    requires (forall k | 0 <= k < |names| :: IsWorkingBus(st, names[k]))
    requires velocity > 0.0 && DistancesNonNegative(st, geo)
    ensures forall k | 0 <= k < |names| :: IsRoutable(st, names[k])
    ensures var buses := Routes(st, geo, velocity, names);
            && Emittable(ids, buses, RidesOf(buses))
            && WeighsAtLeast(Network(ids, buses, RidesOf(buses), wait, NewGraph(|ids|), info, |buses|).graph, wait)
  {
    WorkingBusesCovered(st, ids, names, geo, velocity);
    var buses := Routes(st, geo, velocity, names);
    forall k | 0 <= k < |buses| ensures HopsNonNegative(buses[k]) {
      RouteHopsNonNegative(st, geo, velocity, names[k]);
    }
    NetworkWeights(ids, buses, RidesOf(buses), wait, NewGraph(|ids|), info, |buses|);
  }

  /** The same, for a graph and records known to be that network. */
  lemma GraphWeightsAtLeastWait(st: State, geo: GeoDistance, velocity: real, wait: real,
                                ids: map<string, nat>, info0: map<nat, EdgeInfo>, names: seq<string>,
                                graph: Graph, info: map<nat, EdgeInfo>)
    requires WellFormed(st) && (forall x :: IsWorkingStop(st, x) ==> x in ids)
    requires (forall k | 0 <= k < |names| :: IsWorkingBus(st, names[k]))
    requires velocity > 0.0 && DistancesNonNegative(st, geo)
    requires forall k | 0 <= k < |names| :: IsRoutable(st, names[k])
    requires var buses := Routes(st, geo, velocity, names);
             && Emittable(ids, buses, RidesOf(buses))
             && Built(graph, info) == Network(ids, buses, RidesOf(buses), wait, NewGraph(|ids|), info0, |names|)
    ensures WeighsAtLeast(graph, wait)
  {
    BuiltWeightsAtLeastWait(st, geo, velocity, wait, ids, info0, names);
  }

  // ------------------------------------------------------------ answers

  /** The records of a route's edges, in the route's order. */
  function Records(info: map<nat, EdgeInfo>, edges: seq<nat>): (r: seq<EdgeInfo>)
    requires forall k | 0 <= k < |edges| :: edges[k] in info
    ensures |r| == |edges|
    decreases |edges|
  {
    if edges == [] then [] else Records(info, edges[..|edges| - 1]) + [info[edges[|edges| - 1]]]
  }

  /** The total weight of the edges of a route. */
  function PathWeight(g: Graph, edges: seq<nat>): real
    requires forall k | 0 <= k < |edges| :: edges[k] < |g.edges|
    decreases |edges|
  {
    if edges == [] then 0.0 else PathWeight(g, edges[..|edges| - 1]) + g.edges[edges[|edges| - 1]].weight
  }

  /** The time an answer lists: a wait and a ride per item. */
  function ItemsTime(wait: real, items: seq<EdgeInfo>): real
    decreases |items|
  {
    if items == [] then 0.0 else ItemsTime(wait, items[..|items| - 1]) + (wait + items[|items| - 1].time)
  }

  /** Entry k of the records is the record of the k-th edge. */
  lemma {:induction false} RecordsAt(info: map<nat, EdgeInfo>, edges: seq<nat>, k: nat)
    requires forall k | 0 <= k < |edges| :: edges[k] in info
    requires k < |edges|
    ensures Records(info, edges)[k] == info[edges[k]]
    decreases |edges|
  {
    if k < |edges| - 1 {
      var front := edges[..|edges| - 1];
      assert front[k] == edges[k];
      RecordsAt(info, front, k);
    }
  }

  /** When every edge of a route is explained by its record, the waits and
      riding times the answer lists add up to the route's weight. */
  lemma {:induction false} ItemsTimeIsPathWeight(ids: map<string, nat>, wait: real, busNames: set<string>,
                                                 g: Graph, info: map<nat, EdgeInfo>, edges: seq<nat>)
    requires forall k | 0 <= k < |edges| :: edges[k] < |g.edges| && edges[k] in info
    requires forall k | 0 <= k < |edges| :: Explains(ids, wait, busNames, g.edges[edges[k]], info[edges[k]])
    ensures ItemsTime(wait, Records(info, edges)) == PathWeight(g, edges)
    decreases |edges|
  {
    if edges != [] {
      var n := |edges|;
      var front := edges[..n - 1];
      assert forall k | 0 <= k < |front| :: front[k] == edges[k];
      ItemsTimeIsPathWeight(ids, wait, busNames, g, info, front);
      var items := Records(info, edges);
      assert items[..n - 1] == Records(info, front);
      assert Explains(ids, wait, busNames, g.edges[edges[n - 1]], info[edges[n - 1]]);
    }
  }

  // ------------------------------------------------------------ stop ids

  /** Ids in listing order: the k-th name gets id k. */
  function Numbering(names: seq<string>): map<string, nat>
    decreases |names|
  {
    if names == [] then map[] else Numbering(names[..|names| - 1])[names[|names| - 1] := |names| - 1]
  }

  /** The names numbered are exactly the names listed. */
  lemma {:induction false} NumberingKeys(names: seq<string>)
    ensures forall x :: x in Numbering(names) <==> x in names
    decreases |names|
  {
    if names != [] {
      var n := |names|;
      NumberingKeys(names[..n - 1]);
      assert names == names[..n - 1] + [names[n - 1]];
    }
  }

  /** Numbering one more distinct name gives it the next id. */
  lemma NumberingStep(names: seq<string>, i: nat)
    requires Distinct(names) && i < |names| && |Numbering(names[..i])| == i
    ensures Numbering(names[..i + 1]) == Numbering(names[..i])[names[i] := i]
    ensures |Numbering(names[..i + 1])| == i + 1
  {
    assert names[..i + 1][..i] == names[..i];
    NumberingKeys(names[..i]);
    assert names[i] !in names[..i];
  }

  /** Distinct names get as many ids as there are names. */
  lemma {:induction false} NumberingSize(names: seq<string>, n: nat)
    requires Distinct(names) && n <= |names|
    ensures |Numbering(names[..n])| == n
    decreases n
  {
    if n > 0 {
      NumberingSize(names, n - 1);
      NumberingStep(names, n - 1);
    }
  }

  /** The k-th of distinct names gets id k. */
  lemma {:induction false} NumberingAt(names: seq<string>, k: nat)
    requires Distinct(names) && k < |names|
    ensures names[k] in Numbering(names) && Numbering(names)[names[k]] == k
    decreases |names|
  {
    var n := |names|;
    if k < n - 1 {
      var front := names[..n - 1];
      assert front[k] == names[k];
      NumberingAt(front, k);
      assert names[k] != names[n - 1];
    }
  }

  /** Numbering distinct names gives each its position: the ids are
      0 .. n-1, one per name, and an id leads back to its name. */
  lemma NumberingIsPositions(names: seq<string>)
    requires Distinct(names)
    ensures forall x :: x in Numbering(names) <==> x in names
    ensures forall k | 0 <= k < |names| :: Numbering(names)[names[k]] == k
    ensures forall x | x in Numbering(names) :: Numbering(names)[x] < |names| && names[Numbering(names)[x]] == x
    ensures |Numbering(names)| == |names|
  {
    NumberingKeys(names);
    forall k | 0 <= k < |names| ensures Numbering(names)[names[k]] == k {
      NumberingAt(names, k);
    }
    NumberingSize(names, |names|);
    assert names[..|names|] == names;
  }

  lemma SortedIsDistinct(names: seq<string>)
    requires StrictlySorted(names)
    ensures Distinct(names)
  {
    forall a, b | 0 <= a < b < |names| ensures names[a] != names[b] {
      if names[a] == names[b] {
        SortedDistinct(names, a, b);
      }
    }
  }

  /** Every id is below the number of ids, so it names a vertex. */
  predicate IdsBelow(ids: map<string, nat>)
  {
    forall x | x in ids :: ids[x] < |ids|
  }

  /** The stops served by some bus. */
  function WorkingStops(st: State): set<string>
  {
    set x | x in st.stops && IsWorkingStop(st, x)
  }

  /** The buses with at least one stop. */
  function WorkingBuses(st: State): set<string>
  {
    set b | b in st.buses && IsWorkingBus(st, b)
  }

  // ------------------------------------------------------------ the class

  class TransportRouter {
    const catalogue: TransportCatalogue
    var velocity: real
    var wait: real
    var stopsId: map<string, nat>
    var edgesInfo: map<nat, EdgeInfo>

    /** The catalogue is well formed, exactly its working stops have ids,
        and every id is below the number of ids (so it names a vertex). */
    ghost predicate Valid()
      reads this`stopsId, catalogue
    {
      && catalogue.Valid()
      && (forall x :: x in stopsId <==> IsWorkingStop(catalogue.Snapshot(), x))
      && IdsBelow(stopsId)
    }

    /** The router built from the routing settings (velocity in km/h,
        waiting time in minutes). */
    constructor WithSettings(c: TransportCatalogue, busVelocity: real, busWaitTime: real)
      requires c.Valid()
      ensures Valid()
      ensures catalogue == c && velocity == busVelocity && wait == busWaitTime && edgesInfo == map[]
      ensures stopsId == Numbering(Ascending(WorkingStops(c.Snapshot())))
    {
      catalogue := c;
      velocity := busVelocity;
      wait := busWaitTime;
      stopsId := map[];
      edgesInfo := map[];
      new;
      SetStopsId();
    }

    /** The router without settings: velocity and waiting time 0, used
        when the edges come from a saved router. */
    constructor (c: TransportCatalogue)
      requires c.Valid()
      ensures Valid()
      ensures catalogue == c && velocity == 0.0 && wait == 0.0 && edgesInfo == map[]
      ensures stopsId == Numbering(Ascending(WorkingStops(c.Snapshot())))
    {
      catalogue := c;
      velocity := 0.0;
      wait := 0.0;
      stopsId := map[];
      edgesInfo := map[];
      new;
      SetStopsId();
    }

    /** Gives the working stops the ids 0, 1, ... in name order. */
    method SetStopsId()
      requires catalogue.Valid() && stopsId == map[]
      modifies this
      ensures Valid()
      ensures stopsId == Numbering(Ascending(WorkingStops(catalogue.Snapshot())))
      ensures velocity == old(velocity) && wait == old(wait) && edgesInfo == old(edgesInfo)
    {
      var names := catalogue.FindAllWorkingStops();
      ghost var st := catalogue.Snapshot();
      SortedUnique(names, Ascending(WorkingStops(st)));
      SortedIsDistinct(names);
      var i := 0;
      while i < |names|
        invariant 0 <= i <= |names|
        invariant stopsId == Numbering(names[..i]) && |stopsId| == i
        invariant velocity == old(velocity) && wait == old(wait) && edgesInfo == old(edgesInfo)
      {
        NumberingStep(names, i);
        stopsId := stopsId[names[i] := |stopsId|];
        i := i + 1;
      }
      assert names[..i] == names;
      NumberingIsPositions(names);
    }

    /** `CreateGraph`: a graph with one vertex per working stop, then the
        rides of every working bus in name order, each ride's record kept
        under the id of its edge. */
    method CreateGraph(geo: GeoDistance) returns (graph: Graph)
      requires Valid() && velocity != 0.0
      modifies this
      ensures Valid()
      ensures stopsId == old(stopsId) && velocity == old(velocity) && wait == old(wait)
      ensures var names := Ascending(WorkingBuses(catalogue.Snapshot()));
              && (forall k | 0 <= k < |names| :: IsRoutable(catalogue.Snapshot(), names[k]))
              && var buses := Routes(catalogue.Snapshot(), geo, velocity, names);
                 && Emittable(stopsId, buses, RidesOf(buses))
                 && Built(graph, edgesInfo)
                    == Network(stopsId, buses, RidesOf(buses), wait, NewGraph(|stopsId|), old(edgesInfo), |names|)
      ensures velocity > 0.0 && DistancesNonNegative(catalogue.Snapshot(), geo) ==> WeighsAtLeast(graph, wait)
    {
      var names := catalogue.FindAllWorkingBuses();
      var st := catalogue.Snapshot();
      SortedUnique(names, Ascending(WorkingBuses(st)));
      WorkingBusesCovered(st, stopsId, names, geo, velocity);
      var buses := Routes(st, geo, velocity, names);
      var info;
      graph, info := AddBuses(stopsId, buses, wait, NewGraph(|stopsId|), edgesInfo);
      if velocity > 0.0 && DistancesNonNegative(st, geo) {
        GraphWeightsAtLeastWait(st, geo, velocity, wait, stopsId, edgesInfo, names, graph, info);
      }
      edgesInfo := info;
      assert catalogue.Snapshot() == st;
    }

    /** `FindRouteInformation`: for a route found, its weight, the waiting
        time and the records of its edges in order; otherwise the answer
        "not found". */
    method FindRouteInformation(route: Option<RouteInfo>) returns (r: RouteInformation)
      requires route.Some? ==> forall k | 0 <= k < |route.value.edges| :: route.value.edges[k] in edgesInfo
      ensures route.None? ==> r == NoRouteInformation
      ensures route.Some? ==> r == RouteInformation(route.value.weight, Records(edgesInfo, route.value.edges), wait, true)
    {
      r := NoRouteInformation;
      if route.Some? {
        var edges := route.value.edges;
        r := r.(totalTime := route.value.weight, busWaitTime := wait);
        var i := 0;
        while i < |edges|
          invariant i <= |edges|
          invariant r == RouteInformation(route.value.weight, Records(edgesInfo, edges[..i]), wait, false)
        {
          var rec := GetEdgeInfo(edges[i]);
          assert edges[..i + 1][..i] == edges[..i];
          r := r.(edgesInfo := r.edgesInfo + [rec]);
          i := i + 1;
        }
        assert edges[..i] == edges;
        r := r.(routeFound := true);
      }
    }

    /** `StopIsWorking`: the stop has an id, that is, some bus serves it. */
    method StopIsWorking(name: string) returns (r: bool)
      requires Valid()
      ensures r <==> name in stopsId
      ensures r <==> IsWorkingStop(catalogue.Snapshot(), name)
    {
      r := name in stopsId;
    }

    /** `GetStopId`: the vertex of a working stop. */
    method GetStopId(name: string) returns (id: nat)
      requires Valid() && name in stopsId
      ensures id == stopsId[name] && id < |stopsId|
    {
      id := stopsId[name];
    }

    /** `GetEdgeInfo`: what the edge with this id means. */
    method GetEdgeInfo(edge: nat) returns (r: EdgeInfo)
      requires edge in edgesInfo
      ensures r == edgesInfo[edge]
    {
      r := edgesInfo[edge];
    }

    method GetEdgesInfo() returns (r: map<nat, EdgeInfo>)
      ensures r == edgesInfo
    {
      r := edgesInfo;
    }

    method GetBusWaitTime() returns (r: real)
      ensures r == wait
    {
      r := wait;
    }

    /** `AddEdgeInfo`: records (or replaces) the meaning of an edge. */
    method AddEdgeInfo(id: nat, info: EdgeInfo)
      modifies this
      ensures edgesInfo == old(edgesInfo)[id := info]
      ensures stopsId == old(stopsId) && velocity == old(velocity) && wait == old(wait)
    {
      edgesInfo := edgesInfo[id := info];
    }

    method SetBusWaitTime(busWaitTime: real)
      modifies this
      ensures wait == busWaitTime
      ensures stopsId == old(stopsId) && velocity == old(velocity) && edgesInfo == old(edgesInfo)
    {
      wait := busWaitTime;
    }

    method SetBusVelocity(busVelocity: real)
      modifies this
      ensures velocity == busVelocity
      ensures stopsId == old(stopsId) && wait == old(wait) && edgesInfo == old(edgesInfo)
    {
      velocity := busVelocity;
    }
  }
}
