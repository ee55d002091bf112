/** Saving and restoring the router's edge records. Saving walks the edge
    records in the iteration order of their hash table (a parameter here),
    numbers every bus and every stop the first time a record names it, and
    stores each record with numbers instead of names. Restoring names the
    numbers back, checks the names against the restored catalogue, and
    rebuilds one graph edge per record: its weight is the record's riding
    time plus the restored waiting time, its endpoints the router's ids of
    the record's stops. */
module RouterSerialization {
  import opened Wrappers
  import opened Domain
  import opened Json
  import opened Catalogue
  import opened Graphs
  import opened TransportRouting
  import opened RouterSpec
  import Serialization

  /** A bus or stop message of the saved router: a number and a name. */
  datatype ProtoNamed = ProtoNamed(id: nat, name: string)

  /** A saved edge record, with the bus and the two stops by number. */
  datatype ProtoEdgeInfo = ProtoEdgeInfo(bus: nat, spanCount: int, time: real, stopFrom: nat, stopTo: nat)

  datatype ProtoRouter = ProtoRouter(busWaitTime: real, buses: seq<ProtoNamed>, stops: seq<ProtoNamed>,
                                     edgesInfo: seq<ProtoEdgeInfo>)

  // ------------------------------------------------------------ saving

  /** The messages of a list of names: entry k numbered k. */
  function Named(names: seq<string>): (r: seq<ProtoNamed>)
    ensures |r| == |names| && forall k | 0 <= k < |names| :: r[k] == ProtoNamed(k, names[k])
  {
    seq(|names|, k requires 0 <= k < |names| => ProtoNamed(k, names[k]))
  }

  /** Numbering a name the first time it is seen: it is listed last, and
      so gets the next number; a name seen before keeps its place. */
  function Intern(names: seq<string>, name: string): (r: seq<string>)
    ensures name in r
  {
    if name in names then names else names + [name]
  }

  /** The number a listed name got: its place in the list. */
  function IdOf(names: seq<string>, name: string): nat
    requires name in names
  {
    NumberingKeys(names);
    Numbering(names)[name]
  }

  /** The names numbered so far and the records saved so far. */
  datatype Saving = Saving(buses: seq<string>, stops: seq<string>, edges: seq<ProtoEdgeInfo>)

  /** One loop turn of `CreateProtoTransportRouter`: the bus, then the
      stop it leaves from, then the stop it arrives at are numbered if new,
      and the record is stored by their numbers. */
  function SaveEdge(s: Saving, e: EdgeInfo): Saving
  {
    var b := Intern(s.buses, e.nameBus);
    var f := Intern(s.stops, e.stopFrom);
    var t := Intern(f, e.stopTo);
    Saving(b, t, s.edges + [ProtoEdgeInfo(IdOf(b, e.nameBus), e.spanCount, e.time,
                                          IdOf(f, e.stopFrom), IdOf(t, e.stopTo))])
  }

  /** The saving state after the records, in order. */
  function Saved(infos: seq<EdgeInfo>): Saving
    decreases |infos|
  {
    if infos == [] then Saving([], [], []) else SaveEdge(Saved(Front(infos)), Last(infos))
  }

  /** The message `CreateProtoTransportRouter` builds from the records,
      taken in this order. */
  function ProtoRouterOf(wait: real, infos: seq<EdgeInfo>): ProtoRouter
  {
    var s := Saved(infos);
    ProtoRouter(wait, Named(s.buses), Named(s.stops), s.edges)
  }

  /** The numbers of a list are 0, 1, ... in list order, and no name is
      listed twice. */
  predicate Dense(list: seq<ProtoNamed>)
  {
    && (forall k | 0 <= k < |list| :: list[k].id == k)
    && (forall a, b | 0 <= a < b < |list| :: list[a].name != list[b].name)
  }

  /** The saved record k names, through the two name lists, exactly the bus
      and the stops of record e, and carries its span and riding time. */
  predicate SavedAs(s: Saving, k: nat, e: EdgeInfo)
    requires k < |s.edges|
  {
    var r := s.edges[k];
    && r.bus < |s.buses| && s.buses[r.bus] == e.nameBus
    && r.stopFrom < |s.stops| && s.stops[r.stopFrom] == e.stopFrom
    && r.stopTo < |s.stops| && s.stops[r.stopTo] == e.stopTo
    && r.spanCount == e.spanCount && r.time == e.time
  }

  /** The buses the records name. */
  function BusNames(infos: seq<EdgeInfo>): set<string>
    decreases |infos|
  {
    if infos == [] then {} else BusNames(Front(infos)) + {Last(infos).nameBus}
  }

  /** The stops the records name, as origin or as destination. */
  function StopNames(infos: seq<EdgeInfo>): set<string>
    decreases |infos|
  {
    if infos == [] then {} else StopNames(Front(infos)) + {Last(infos).stopFrom, Last(infos).stopTo}
  }

  /** Interning keeps the names listed before in place. */
  lemma InternPrefix(names: seq<string>, name: string)
    ensures |names| <= |Intern(names, name)| && Intern(names, name)[..|names|] == names
  {
  }

  /** Interning keeps the names distinct: a new name is not among them. */
  lemma InternDistinct(names: seq<string>, name: string)
    requires Distinct(names)
    ensures Distinct(Intern(names, name))
  {
    if name !in names {
      var r := names + [name];
      forall a, b | 0 <= a < b < |r| ensures r[a] != r[b] {
        if b == |names| {
          assert r[a] == names[a];
        } else {
          assert r[a] == names[a] && r[b] == names[b];
        }
      }
    }
  }

  /** The number interning gives is the name's place in the list. */
  lemma InternPosition(names: seq<string>, name: string)
    requires Distinct(names)
    ensures IdOf(Intern(names, name), name) < |Intern(names, name)|
    ensures Intern(names, name)[IdOf(Intern(names, name), name)] == name
  {
    InternDistinct(names, name);
    NumberingIsPositions(Intern(names, name));
  }

  /** Interning lists the name and the names before it, and no other. */
  lemma InternMembers(names: seq<string>, name: string)
    ensures forall x :: x in Intern(names, name) <==> x in names || x == name
  {
  }

  /** A record saved stays saved as the lists and records grow. */
  lemma SavedAsKept(a: Saving, b: Saving, k: nat, e: EdgeInfo)
    requires k < |a.edges| && SavedAs(a, k, e)
    requires |a.buses| <= |b.buses| && b.buses[..|a.buses|] == a.buses
    requires |a.stops| <= |b.stops| && b.stops[..|a.stops|] == a.stops
    requires |a.edges| <= |b.edges| && b.edges[..|a.edges|] == a.edges
    ensures k < |b.edges| && SavedAs(b, k, e)
  {
    var r := a.edges[k];
    assert b.edges[k] == b.edges[..|a.edges|][k];
    assert b.buses[r.bus] == b.buses[..|a.buses|][r.bus];
    assert b.stops[r.stopFrom] == b.stops[..|a.stops|][r.stopFrom];
    assert b.stops[r.stopTo] == b.stops[..|a.stops|][r.stopTo];
  }

  /** One loop turn keeps both lists distinct. */
  lemma SaveEdgeDistinct(s: Saving, e: EdgeInfo)
    requires Distinct(s.buses) && Distinct(s.stops)
    ensures Distinct(SaveEdge(s, e).buses) && Distinct(SaveEdge(s, e).stops)
  {
    InternDistinct(s.buses, e.nameBus);
    InternDistinct(s.stops, e.stopFrom);
    InternDistinct(Intern(s.stops, e.stopFrom), e.stopTo);
  }

  /** One loop turn keeps the names listed and the records saved before
      in place. */
  lemma SaveEdgePrefix(s: Saving, e: EdgeInfo)
    ensures var q := SaveEdge(s, e);
            && |s.buses| <= |q.buses| && q.buses[..|s.buses|] == s.buses
            && |s.stops| <= |q.stops| && q.stops[..|s.stops|] == s.stops
            && |s.edges| < |q.edges| && q.edges[..|s.edges|] == s.edges
  {
    var f := Intern(s.stops, e.stopFrom);
    var t := Intern(f, e.stopTo);
    InternPrefix(s.buses, e.nameBus);
    InternPrefix(s.stops, e.stopFrom);
    InternPrefix(f, e.stopTo);
    assert t[..|s.stops|] == t[..|f|][..|s.stops|];
  }

  /** The record a loop turn saves names back the record it saves. */
  lemma SaveEdgeRecord(s: Saving, e: EdgeInfo)
    requires Distinct(s.buses) && Distinct(s.stops)
    ensures |s.edges| < |SaveEdge(s, e).edges| && SavedAs(SaveEdge(s, e), |s.edges|, e)
  {
    var f := Intern(s.stops, e.stopFrom);
    var t := Intern(f, e.stopTo);
    InternPosition(s.buses, e.nameBus);
    InternPosition(s.stops, e.stopFrom);
    InternDistinct(s.stops, e.stopFrom);
    InternPosition(f, e.stopTo);
    InternPrefix(f, e.stopTo);
    assert t[IdOf(f, e.stopFrom)] == t[..|f|][IdOf(f, e.stopFrom)];
  }

  /** Saving keeps both name lists distinct. */
  lemma {:induction false} SavedDistinct(infos: seq<EdgeInfo>)
    ensures Distinct(Saved(infos).buses) && Distinct(Saved(infos).stops)
    decreases |infos|
  {
    if infos != [] {
      var front := Front(infos);
      SavedDistinct(front);
      SaveEdgeDistinct(Saved(front), Last(infos));
    }
  }

  /** Saving stores one record per record. */
  lemma {:induction false} SavedSize(infos: seq<EdgeInfo>)
    ensures |Saved(infos).edges| == |infos|
    decreases |infos|
  {
    if infos != [] {
      var front := Front(infos);
      SavedSize(front);
    }
  }

  /** The record saved last names back the last record. */
  lemma SavedLast(infos: seq<EdgeInfo>)
    requires infos != []
    ensures |Front(infos)| < |Saved(infos).edges| && SavedAs(Saved(infos), |Front(infos)|, Last(infos))
  {
    var front := Front(infos);
    SavedDistinct(front);
    SavedSize(front);
    SaveEdgeRecord(Saved(front), Last(infos));
  }

  /** A record saved before the last one still names back its record. */
  lemma SavedKept(infos: seq<EdgeInfo>, k: nat)
    requires infos != [] && k < |Front(infos)|
    requires k < |Saved(Front(infos)).edges| && SavedAs(Saved(Front(infos)), k, Front(infos)[k])
    ensures k < |Saved(infos).edges| && SavedAs(Saved(infos), k, infos[k])
  {
    var front := Front(infos);
    SaveEdgePrefix(Saved(front), Last(infos));
    SavedAsKept(Saved(front), Saved(infos), k, front[k]);
  }

  /** Saved record k names back record k. */
  lemma {:induction false} SavedAt(infos: seq<EdgeInfo>, k: nat)
    requires k < |infos|
    ensures k < |Saved(infos).edges| && SavedAs(Saved(infos), k, infos[k])
    decreases |infos|
  {
    if k < |infos| - 1 {
      SavedAt(Front(infos), k);
      SavedKept(infos, k);
    } else {
      SavedLast(infos);
    }
  }

  /** Saving lists exactly the buses and the stops the records name. */
  lemma {:induction false} SavedNames(infos: seq<EdgeInfo>)
    ensures forall x :: x in Saved(infos).buses <==> x in BusNames(infos)
    ensures forall x :: x in Saved(infos).stops <==> x in StopNames(infos)
    decreases |infos|
  {
    if infos != [] {
      var front := Front(infos);
      var e := Last(infos);
      SavedNames(front);
      var s := Saved(front);
      InternMembers(s.buses, e.nameBus);
      InternMembers(s.stops, e.stopFrom);
      InternMembers(Intern(s.stops, e.stopFrom), e.stopTo);
    }
  }

  /** The names of a list of messages, in order. */
  function NamesOf(list: seq<ProtoNamed>): (r: seq<string>)
    ensures |r| == |list| && forall k | 0 <= k < |list| :: r[k] == list[k].name
  {
    seq(|list|, k requires 0 <= k < |list| => list[k].name)
  }

  /** Saved record k of the message names back record k by the numbers
      of the message's lists, and carries its span and riding time. */
  lemma SavedMessageAt(wait: real, infos: seq<EdgeInfo>, k: nat)
    requires k < |infos|
    ensures var p := ProtoRouterOf(wait, infos);
            && k < |p.edgesInfo|
            && var r := p.edgesInfo[k];
            && r.bus < |p.buses| && p.buses[r.bus].name == infos[k].nameBus
            && r.stopFrom < |p.stops| && p.stops[r.stopFrom].name == infos[k].stopFrom
            && r.stopTo < |p.stops| && p.stops[r.stopTo].name == infos[k].stopTo
            && r.spanCount == infos[k].spanCount && r.time == infos[k].time
  {
    SavedAt(infos, k);
  }

  /** Distinct names saved as messages are numbered 0, 1, ... once each,
      and their names read back in order. */
  lemma NamedDense(names: seq<string>)
    requires Distinct(names)
    ensures Dense(Named(names)) && NamesOf(Named(names)) == names
  {
  }

  /** The saved message's lists: the waiting time; buses and stops
      numbered 0, 1, ... once each, exactly the ones the records name. */
  lemma SavedLists(wait: real, infos: seq<EdgeInfo>)
    ensures var p := ProtoRouterOf(wait, infos);
            && p.busWaitTime == wait
            && Dense(p.buses) && Dense(p.stops)
            && (forall x :: x in NamesOf(p.buses) <==> x in BusNames(infos))
            && (forall x :: x in NamesOf(p.stops) <==> x in StopNames(infos))
  {
    SavedDistinct(infos);
    SavedNames(infos);
    NamedDense(Saved(infos).buses);
    NamedDense(Saved(infos).stops);
  }

  /** The saved message's records: one per record, in order, naming back
      its bus and its stops by the numbers of the lists. */
  lemma SavedShape(wait: real, infos: seq<EdgeInfo>)
    ensures var p := ProtoRouterOf(wait, infos);
            && |p.edgesInfo| == |infos|
            && (forall k | 0 <= k < |infos| ::
                  var r := p.edgesInfo[k];
                  && r.bus < |p.buses| && p.buses[r.bus].name == infos[k].nameBus
                  && r.stopFrom < |p.stops| && p.stops[r.stopFrom].name == infos[k].stopFrom
                  && r.stopTo < |p.stops| && p.stops[r.stopTo].name == infos[k].stopTo
                  && r.spanCount == infos[k].spanCount && r.time == infos[k].time)
  {
    SavedSize(infos);
    forall k | 0 <= k < |infos|
      ensures var p := ProtoRouterOf(wait, infos);
              var r := p.edgesInfo[k];
              && r.bus < |p.buses| && p.buses[r.bus].name == infos[k].nameBus
              && r.stopFrom < |p.stops| && p.stops[r.stopFrom].name == infos[k].stopFrom
              && r.stopTo < |p.stops| && p.stops[r.stopTo].name == infos[k].stopTo
              && r.spanCount == infos[k].spanCount && r.time == infos[k].time
    {
      SavedMessageAt(wait, infos, k);
    }
  }

  /** `CreateProtoTransportRouter`: the waiting time, then every edge
      record in the iteration order `order` of the record table, its bus
      and stops numbered on first sight. */
  method CreateProtoTransportRouter(router: TransportRouter, order: seq<nat>) returns (p: ProtoRouter)
    requires Serialization.Enumerates(order, router.edgesInfo.Keys)
    ensures p == ProtoRouterOf(router.wait, Records(router.edgesInfo, order))
  {
    var edgesInfo := router.GetEdgesInfo();
    var wait := router.GetBusWaitTime();
    ghost var infos := Records(edgesInfo, order);
    var busesId: map<string, nat> := map[];
    var stopsId: map<string, nat> := map[];
    ghost var s := Saving([], [], []);
    p := ProtoRouter(wait, [], [], []);
    var i := 0;
    while i < |order|
      invariant i <= |order|
      invariant s == Saved(infos[..i])
      invariant Distinct(s.buses) && Distinct(s.stops)
      invariant busesId == Numbering(s.buses) && stopsId == Numbering(s.stops)
      invariant p == ProtoRouter(wait, Named(s.buses), Named(s.stops), s.edges)
    {
      var e := edgesInfo[order[i]];
      RecordsAt(edgesInfo, order, i);
      SaveStep(infos, i, s);
      var buses, bus;
      busesId, buses, bus := NumberOnce(s.buses, busesId, p.buses, e.nameBus);
      var stops, from, to;
      stopsId, stops, from := NumberOnce(s.stops, stopsId, p.stops, e.stopFrom);
      stopsId, stops, to := NumberOnce(Intern(s.stops, e.stopFrom), stopsId, stops, e.stopTo);
      p := ProtoRouter(wait, buses, stops, p.edgesInfo + [ProtoEdgeInfo(bus, e.spanCount, e.time, from, to)]);
      s := SaveEdge(s, e);
      i := i + 1;
    }
    assert infos[..i] == infos;
  }

  /** A name is numbered on first sight: a name without a number gets the
      next one, in the map and in the message's list, and its number is
      returned. */
  method NumberOnce(ghost names: seq<string>, ids: map<string, nat>, list: seq<ProtoNamed>, name: string)
    returns (ids': map<string, nat>, list': seq<ProtoNamed>, id: nat)
    requires Distinct(names) && ids == Numbering(names) && list == Named(names)
    ensures Distinct(Intern(names, name))
    ensures ids' == Numbering(Intern(names, name)) && list' == Named(Intern(names, name))
    ensures id == IdOf(Intern(names, name), name)
  {
    InternNumbering(names, name);
    ids', list' := ids, list;
    if name !in ids {
      list' := list + [ProtoNamed(|ids|, name)];
      ids' := ids[name := |ids|];
    }
    id := ids'[name];
  }

  /** Saving one record more continues the saving state of the records
      before it. */
  lemma SaveStep(infos: seq<EdgeInfo>, i: nat, s: Saving)
    requires i < |infos| && s == Saved(infos[..i])
    ensures Saved(infos[..i + 1]) == SaveEdge(s, infos[i])
  {
    assert Front(infos[..i + 1]) == infos[..i] && Last(infos[..i + 1]) == infos[i];
  }

  /** Interning a name into distinct names, seen through the map and the
      messages the loop keeps: a new name gets the next number and the
      next message, a known name changes nothing. */
  lemma InternNumbering(names: seq<string>, name: string)
    requires Distinct(names)
    ensures name in Numbering(names) <==> name in names
    ensures |Numbering(names)| == |names|
    ensures Distinct(Intern(names, name))
    ensures Numbering(Intern(names, name))
            == if name in names then Numbering(names) else Numbering(names)[name := |names|]
    ensures Named(Intern(names, name))
            == if name in names then Named(names) else Named(names) + [ProtoNamed(|names|, name)]
  {
    NumberingKeys(names);
    NumberingSize(names, |names|);
    assert names[..|names|] == names;
    InternNumbers(names, name);
    InternMessages(names, name);
    InternDistinct(names, name);
  }

  /** A new name is numbered after the names before it. */
  lemma InternNumbers(names: seq<string>, name: string)
    ensures Numbering(Intern(names, name))
            == if name in names then Numbering(names) else Numbering(names)[name := |names|]
  {
    if name !in names {
      assert (names + [name])[..|names|] == names;
    }
  }

  /** A new name adds one message, numbered after the ones before it. */
  lemma InternMessages(names: seq<string>, name: string)
    ensures Named(Intern(names, name))
            == if name in names then Named(names) else Named(names) + [ProtoNamed(|names|, name)]
  {
  }

  // ------------------------------------------------------------ restoring

  /** `stops_id` / `buses_id` of the restore: number -> name, a number
      listed twice keeping the later name. */
  function IdMap(list: seq<ProtoNamed>): map<nat, string>
    decreases |list|
  {
    if list == [] then map[] else IdMap(Front(list))[Last(list).id := Last(list).name]
  }

  /** A densely numbered list is named back entry by entry. */
  lemma {:induction false} IdMapOfDense(list: seq<ProtoNamed>)
    requires forall k | 0 <= k < |list| :: list[k].id == k
    ensures forall k: nat :: k in IdMap(list) <==> k < |list|
    ensures forall k | 0 <= k < |list| :: IdMap(list)[k] == list[k].name
    ensures |IdMap(list)| == |list|
    decreases |list|
  {
    if list != [] {
      var front := Front(list);
      forall k | 0 <= k < |front| ensures front[k].id == k {
        assert front[k] == list[k];
      }
      IdMapOfDense(front);
      assert Last(list).id == |front| && |front| !in IdMap(front);
      forall k | 0 <= k < |front| ensures IdMap(list)[k] == list[k].name {
        assert front[k] == list[k];
      }
    }
  }

  /** What restoring a record consults: the numbers of the saved buses
      and stops named back, the restored catalogue, the router's ids and
      the restored waiting time. */
  datatype Lookup = Lookup(buses: map<nat, string>, stops: map<nat, string>, st: State,
                           ids: map<string, nat>, wait: real)

  function LookupOf(p: ProtoRouter, st: State, ids: map<string, nat>): Lookup
  {
    Lookup(IdMap(p.buses), IdMap(p.stops), st, ids, p.busWaitTime)
  }

  /** The record a saved record stands for, its bus and stops named back
      and found in the catalogue; None where the source throws (a number
      that names nothing) or reads past the end of a table (a name the
      catalogue does not hold). */
  function RestoredInfo(l: Lookup, e: ProtoEdgeInfo): Option<EdgeInfo>
  {
    if && e.bus in l.buses && l.buses[e.bus] in l.st.buses
       && e.stopFrom in l.stops && l.stops[e.stopFrom] in l.st.stops
       && e.stopTo in l.stops && l.stops[e.stopTo] in l.st.stops
    then Some(EdgeInfo(l.buses[e.bus], e.spanCount, e.time, l.stops[e.stopFrom], l.stops[e.stopTo]))
    else None
  }

  /** The graph edge rebuilt for a record: between the router's ids of its
      stops (`GetStopId` throws for a stop without an id), weighing its
      riding time plus the waiting time. */
  function RestoredEdge(l: Lookup, info: EdgeInfo): Option<Edge>
  {
    if info.stopFrom in l.ids && info.stopTo in l.ids
    then Some(Edge(l.ids[info.stopFrom], l.ids[info.stopTo], info.time + l.wait))
    else None
  }

  /** The saved record can be restored. */
  predicate Restores(l: Lookup, e: ProtoEdgeInfo)
  {
    RestoredInfo(l, e).Some? && RestoredEdge(l, RestoredInfo(l, e).value).Some?
  }

  /** The records restored so far, and the edges rebuilt for them. */
  datatype Restored = Restored(infos: seq<EdgeInfo>, edges: seq<Edge>)

  /** Restoring the first n saved records in order: the restored records
      and the rebuilt edges, in saved order, or None from the first saved
      record that cannot be restored. */
  function RestoreUpTo(l: Lookup, es: seq<ProtoEdgeInfo>, n: nat): Option<Restored>
    requires n <= |es|
  {
    if n == 0 then Some(Restored([], []))
    else
      var r := RestoreUpTo(l, es, n - 1);
      if r.Some? && Restores(l, es[n - 1]) then
        var info := RestoredInfo(l, es[n - 1]).value;
        Some(Restored(r.value.infos + [info], r.value.edges + [RestoredEdge(l, info).value]))
      else None
  }

  /** Restoring all the saved records. */
  function RestoreAll(l: Lookup, es: seq<ProtoEdgeInfo>): Option<Restored>
  {
    RestoreUpTo(l, es, |es|)
  }

  /** The graph `DeserializeTransportRouter` builds as written: as many
      vertices as the saved message has stop numbers. */
  function RestoredGraphAsWritten(p: ProtoRouter, st: State, ids: map<string, nat>): Option<Graph>
  {
    var r := RestoreAll(LookupOf(p, st, ids), p.edgesInfo);
    if r.Some? then Some(Graph(|IdMap(p.stops)|, r.value.edges)) else None
  }

  /** The graph it evidently should build, as `CreateGraph` does: one
      vertex per router id. */
  function RestoredGraph(p: ProtoRouter, st: State, ids: map<string, nat>): Option<Graph>
  {
    var r := RestoreAll(LookupOf(p, st, ids), p.edgesInfo);
    if r.Some? then Some(Graph(|ids|, r.value.edges)) else None
  }

  /** A successful restore gives one record and one edge per saved record. */
  lemma {:induction false} RestoreUpToSize(l: Lookup, es: seq<ProtoEdgeInfo>, n: nat)
    requires n <= |es|
    ensures RestoreUpTo(l, es, n).Some? ==>
              |RestoreUpTo(l, es, n).value.infos| == n && |RestoreUpTo(l, es, n).value.edges| == n
  {
    if n != 0 {
      RestoreUpToSize(l, es, n - 1);
    }
  }

  /** When restoring succeeds, saved record k restores, to record k and
      edge k. */
  lemma {:induction false} RestoreUpToAt(l: Lookup, es: seq<ProtoEdgeInfo>, n: nat, k: nat)
    requires k < n <= |es|
    ensures RestoreUpTo(l, es, n).Some? ==>
              && Restores(l, es[k])
              && |RestoreUpTo(l, es, n).value.infos| == n && |RestoreUpTo(l, es, n).value.edges| == n
              && RestoreUpTo(l, es, n).value.infos[k] == RestoredInfo(l, es[k]).value
              && RestoreUpTo(l, es, n).value.edges[k] == RestoredEdge(l, RestoredInfo(l, es[k]).value).value
  {
    RestoreUpToSize(l, es, n - 1);
    RestoreUpToSize(l, es, n);
    if k < n - 1 {
      RestoreUpToAt(l, es, n - 1, k);
    }
  }

  /** When every saved record restores, restoring succeeds. */
  lemma {:induction false} RestoreUpToSucceeds(l: Lookup, es: seq<ProtoEdgeInfo>, n: nat)
    requires n <= |es|
    requires forall k | 0 <= k < n :: Restores(l, es[k])
    ensures RestoreUpTo(l, es, n).Some?
  {
    if n != 0 {
      RestoreUpToSucceeds(l, es, n - 1);
    }
  }

  /** Edge k of the graph rebuilt beside record k weighs its riding time
      plus the waiting time and joins the router ids of its stops. */
  lemma RestoredEdgeAt(p: ProtoRouter, st: State, ids: map<string, nat>, k: nat)
    requires IdsBelow(ids) && k < |p.edgesInfo| && RestoreAll(LookupOf(p, st, ids), p.edgesInfo).Some?
    ensures var r := RestoreAll(LookupOf(p, st, ids), p.edgesInfo).value;
            && |r.infos| == |p.edgesInfo| && |r.edges| == |p.edgesInfo|
            && r.edges[k].weight == r.infos[k].time + p.busWaitTime
            && r.infos[k].stopFrom in ids && r.edges[k].from == ids[r.infos[k].stopFrom]
            && r.infos[k].stopTo in ids && r.edges[k].to == ids[r.infos[k].stopTo]
            && r.edges[k].from < |ids| && r.edges[k].to < |ids|
  {
    RestoreUpToAt(LookupOf(p, st, ids), p.edgesInfo, |p.edgesInfo|, k);
  }

  /** Restoring gives a graph exactly when every saved record restores;
      then every rebuilt edge weighs its record's riding time plus the
      restored waiting time and joins the ids of its record's stops, and
      with one vertex per router id every edge joins two vertices. */
  lemma RestoredEdgesConsistent(p: ProtoRouter, st: State, ids: map<string, nat>)
    requires IdsBelow(ids)
    ensures RestoredGraph(p, st, ids).Some?
            <==> forall k | 0 <= k < |p.edgesInfo| :: Restores(LookupOf(p, st, ids), p.edgesInfo[k])
    ensures RestoredGraph(p, st, ids).Some? ==>
              var g := RestoredGraph(p, st, ids).value;
              var infos := RestoreAll(LookupOf(p, st, ids), p.edgesInfo).value.infos;
              && g.vertexCount == |ids|
              && EndpointsInRange(g)
              && |g.edges| == |infos| == |p.edgesInfo|
              && forall k | 0 <= k < |g.edges| ::
                   && g.edges[k].weight == infos[k].time + p.busWaitTime
                   && infos[k].stopFrom in ids && g.edges[k].from == ids[infos[k].stopFrom]
                   && infos[k].stopTo in ids && g.edges[k].to == ids[infos[k].stopTo]
  {
    var l := LookupOf(p, st, ids);
    if forall k | 0 <= k < |p.edgesInfo| :: Restores(l, p.edgesInfo[k]) {
      RestoreUpToSucceeds(l, p.edgesInfo, |p.edgesInfo|);
    }
    if RestoreAll(l, p.edgesInfo).Some? {
      forall k | 0 <= k < |p.edgesInfo| ensures Restores(l, p.edgesInfo[k]) {
        RestoreUpToAt(l, p.edgesInfo, |p.edgesInfo|, k);
      }
      RestoreUpToSize(l, p.edgesInfo, |p.edgesInfo|);
      var r := RestoreAll(l, p.edgesInfo).value;
      forall k | 0 <= k < |p.edgesInfo|
        ensures && r.edges[k].weight == r.infos[k].time + p.busWaitTime
                && r.infos[k].stopFrom in ids && r.edges[k].from == ids[r.infos[k].stopFrom]
                && r.infos[k].stopTo in ids && r.edges[k].to == ids[r.infos[k].stopTo]
                && r.edges[k].from < |ids| && r.edges[k].to < |ids|
      {
        RestoredEdgeAt(p, st, ids, k);
      }
    }
  }

  /** The three working stops A, B, C get the ids 0, 1, 2. */
  lemma ThreeStopIds(st: State)
    requires WorkingStops(st) == {"A", "B", "C"}
    ensures Numbering(Names.Ascending(WorkingStops(st))) == map["A" := 0, "B" := 1, "C" := 2]
  {
    var names := ["A", "B", "C"];
    assert Names.StrictlySorted(names) by {
      assert Names.Less("A", "B") && Names.Less("B", "C") && Names.Less("A", "C");
    }
    Names.SortedUnique(names, Names.Ascending(WorkingStops(st)));
    assert Numbering(names[..1]) == map["A" := 0] by {
      assert names[..1][..0] == [];
    }
    assert Numbering(names[..2]) == map["A" := 0, "B" := 1] by {
      assert names[..2][..1] == names[..1];
    }
    assert names[..3] == names && names[..3][..2] == names[..2];
  }

  /** The example catalogue: stops A, B, C; a one-stop bus "0" at A, which
      offers no ride; a linear bus "1" from B to C. */
  function ExampleState(): State
  {
    var c := Coordinates(0.0, 0.0);
    State(map["A" := c, "B" := c, "C" := c], map[],
          map["0" := Bus(["A"], false), "1" := Bus(["B", "C"], false)],
          map["A" := {"0"}, "B" := {"1"}, "C" := {"1"}])
  }

  /** The router's ids of the example's working stops. */
  function ExampleIds(): map<string, nat>
  {
    map["A" := 0, "B" := 1, "C" := 2]
  }

  /** The example catalogue is well formed; the router numbers its working
      stops A, B, C as 0, 1, 2 and builds its working buses in the order
      "0", "1". */
  lemma ExampleCatalogue()
    ensures WellFormed(ExampleState())
    ensures forall x :: IsWorkingStop(ExampleState(), x) ==> x in ExampleIds()
    ensures IsWorkingBus(ExampleState(), "0") && IsWorkingBus(ExampleState(), "1")
    ensures Numbering(Names.Ascending(WorkingStops(ExampleState()))) == ExampleIds()
    ensures Names.Ascending(WorkingBuses(ExampleState())) == ["0", "1"]
  {
    var st := ExampleState();
    assert WorkingStops(st) == {"A", "B", "C"} by {
      assert IsWorkingStop(st, "A") && IsWorkingStop(st, "B") && IsWorkingStop(st, "C");
    }
    ThreeStopIds(st);
    assert WorkingBuses(st) == {"0", "1"} by {
      assert IsWorkingBus(st, "0") && IsWorkingBus(st, "1");
    }
    assert Names.StrictlySorted(["0", "1"]) by {
      assert Names.Less("0", "1");
    }
    Names.SortedUnique(["0", "1"], Names.Ascending(WorkingBuses(st)));
  }

  /** The graph and the records `CreateGraph` builds for the example
      catalogue on a router with no records yet: by `ExampleCatalogue`, its
      ids are `ExampleIds()` and its working buses "0", "1", so this is the
      network its contract names. */
  function ExampleBuilt(geo: GeoDistance, velocity: real, wait: real): Built
    requires velocity != 0.0
  {
    ExampleCatalogue();
    WorkingBusesCovered(ExampleState(), ExampleIds(), ["0", "1"], geo, velocity);
    var buses := Routes(ExampleState(), geo, velocity, ["0", "1"]);
    Network(ExampleIds(), buses, RidesOf(buses), wait, NewGraph(|ExampleIds()|), map[], 2)
  }

  /** The example's routes, in the order the router builds them: bus "0"
      stops at A only, and bus "1" is the linear route B, C. */
  lemma ExampleRoutes(geo: GeoDistance, velocity: real)
    requires velocity != 0.0
    ensures IsRoutable(ExampleState(), "0") && IsRoutable(ExampleState(), "1")
    ensures var buses := Routes(ExampleState(), geo, velocity, ["0", "1"]);
            && Emittable(ExampleIds(), buses, RidesOf(buses))
            && buses[0].stops == ["A"] && !buses[0].circular
            && buses[1] == RouteOf(ExampleState(), geo, velocity, "1")
  {
    ExampleCatalogue();
    WorkingBusesCovered(ExampleState(), ExampleIds(), ["0", "1"], geo, velocity);
  }

  /** In the example only bus "1", linear from B to C, offers rides, so the
      example's network is that bus's rides added to an empty graph of three
      vertices. */
  lemma ExampleBusOne(geo: GeoDistance, velocity: real, wait: real)
    requires velocity != 0.0
    ensures IsRoutable(ExampleState(), "1")
    ensures var b1 := RouteOf(ExampleState(), geo, velocity, "1");
            && b1.name == "1" && b1.stops == ["B", "C"] && !b1.circular
            && Covered(ExampleIds(), b1) && AllFit(b1.stops, BusRides(b1.stops, false))
            && ExampleBuilt(geo, velocity, wait)
               == EmitAll(ExampleIds(), b1, wait, NewGraph(3), map[], BusRides(b1.stops, false))
  {
    ExampleRoutes(geo, velocity);
    var ids := ExampleIds();
    var buses := Routes(ExampleState(), geo, velocity, ["0", "1"]);
    var rides := RidesOf(buses);
    var g := NewGraph(3);
    OneStopNoRides(["A"], false);
    assert rides[0] == [];
    var p := Network(ids, buses, rides, wait, g, map[], 1);
    assert p == EmitAll(ids, buses[0], wait, g, map[], []);
    assert ExampleBuilt(geo, velocity, wait) == EmitAll(ids, buses[1], wait, p.graph, p.info, rides[1]);
  }

  /** What the example gives the general argument below: its ids name
      catalogue stops, its records name only B and C and explain their
      edges, and record id rides from B to C into vertex 2. */
  lemma ExampleCase(geo: GeoDistance, velocity: real, wait: real) returns (id: nat)
    requires velocity != 0.0
    ensures TwoStopRecords(wait, ExampleBuilt(geo, velocity, wait), ExampleState(), ExampleIds(),
                           {"B", "C"}, "B", "C", id)
    ensures ExampleBuilt(geo, velocity, wait).graph.edges[id].to == 2
  {
    ExampleBusOne(geo, velocity, wait);
    assert forall x | x in ExampleIds() :: x in ExampleState().stops;
    id := TwoStopBus(ExampleIds(), RouteOf(ExampleState(), geo, velocity, "1"), wait, ExampleState(),
                     NewGraph(3), "B", "C");
  }

  /** The rides of a single bus with two distinct stops s1, s2, added to a
      graph with no edges yet: every record names only s1 and s2 and
      explains its edge, and the record id returned rides from s1 to s2
      into the vertex of s2. */
  lemma TwoStopBus(ids: map<string, nat>, b1: BusRoute, wait: real, st: State, g: Graph,
                   s1: string, s2: string) returns (id: nat)
    requires Covered(ids, b1) && b1.stops == [s1, s2] && s1 != s2
    requires AllFit(b1.stops, BusRides(b1.stops, b1.circular))
    requires b1.name in st.buses && (forall x | x in ids :: x in st.stops)
    requires g.edges == [] && ids[s2] >= 2
    ensures var b := EmitAll(ids, b1, wait, g, map[], BusRides(b1.stops, b1.circular));
            && TwoStopRecords(wait, b, st, ids, {s1, s2}, s1, s2, id)
            && b.graph.edges[id].to == ids[s2]
  {
    TwoStopBusRecords(ids, b1, wait, st, g, s1, s2);
    id := TwoStopBusRide(ids, b1, wait, g, s1, s2);
  }

  /** The records of such a bus explain their edges and name only its two
      stops. */
  lemma TwoStopBusRecords(ids: map<string, nat>, b1: BusRoute, wait: real, st: State, g: Graph,
                          s1: string, s2: string)
    requires Covered(ids, b1) && b1.stops == [s1, s2]
    requires AllFit(b1.stops, BusRides(b1.stops, b1.circular))
    requires b1.name in st.buses && g.edges == []
    ensures var b := EmitAll(ids, b1, wait, g, map[], BusRides(b1.stops, b1.circular));
            && (forall i | i in b.info :: i < |b.graph.edges|)
            && (forall i | i in b.info ::
                  i < |b.graph.edges| && Explains(ids, wait, st.buses.Keys, b.graph.edges[i], b.info[i]))
            && (forall i | i in b.info :: b.info[i].stopFrom in {s1, s2} && b.info[i].stopTo in {s1, s2})
  {
    BusExplained(ids, b1, wait, st.buses.Keys, g, map[], BusRides(b1.stops, b1.circular));
    TwoStopBusNames(ids, b1, wait, g, s1, s2);
  }

  /** The records of such a bus name only its two stops. */
  lemma TwoStopBusNames(ids: map<string, nat>, b1: BusRoute, wait: real, g: Graph, s1: string, s2: string)
    requires Covered(ids, b1) && b1.stops == [s1, s2]
    requires AllFit(b1.stops, BusRides(b1.stops, b1.circular))
    ensures var b := EmitAll(ids, b1, wait, g, map[], BusRides(b1.stops, b1.circular));
            forall i | i in b.info ::
              && (b.info[i].stopFrom == s1 || b.info[i].stopFrom == s2)
              && (b.info[i].stopTo == s1 || b.info[i].stopTo == s2)
  {
    var xs := BusRides(b1.stops, b1.circular);
    var b := EmitAll(ids, b1, wait, g, map[], xs);
    forall i | i in b.info
      ensures && (b.info[i].stopFrom == s1 || b.info[i].stopFrom == s2)
              && (b.info[i].stopTo == s1 || b.info[i].stopTo == s2)
    {
      EmitAt(ids, b1, wait, g, map[], xs, |xs|, i);
    }
  }

  /** Such a bus has a record, the id returned, that rides from s1 to s2
      into the vertex of s2. */
  lemma TwoStopBusRide(ids: map<string, nat>, b1: BusRoute, wait: real, g: Graph,
                       s1: string, s2: string) returns (id: nat)
    requires Covered(ids, b1) && b1.stops == [s1, s2]
    requires AllFit(b1.stops, BusRides(b1.stops, b1.circular))
    ensures var b := EmitAll(ids, b1, wait, g, map[], BusRides(b1.stops, b1.circular));
            && id in b.info && id < |b.graph.edges|
            && b.info[id].stopFrom == s1 && b.info[id].stopTo == s2 && b.graph.edges[id].to == ids[s2]
  {
    var xs := BusRides(b1.stops, b1.circular);
    var t := FirstRideListed(b1.stops, b1.circular);
    id := |g.edges| + t;
    RideEmitted(ids, b1, wait, g, map[], xs, t);
  }

  /** Records naming only the given stops name no other. */
  lemma {:induction false} StopNamesWithin(infos: seq<EdgeInfo>, names: set<string>)
    requires forall k | 0 <= k < |infos| :: infos[k].stopFrom in names && infos[k].stopTo in names
    ensures StopNames(infos) <= names
    decreases |infos|
  {
    if infos != [] {
      var front := Front(infos);
      forall k | 0 <= k < |front| ensures front[k].stopFrom in names && front[k].stopTo in names {
        assert front[k] == infos[k];
      }
      StopNamesWithin(front, names);
    }
  }

  /** Records that name only two stops, one of them riding from the first
      to the second, are saved with a list of exactly those two stops. */
  lemma TwoStopsSaved(wait: real, infos: seq<EdgeInfo>, names: set<string>, s1: string, s2: string, k: nat)
    requires (forall x | x in names :: x == s1 || x == s2) && s1 != s2
    requires forall j | 0 <= j < |infos| :: infos[j].stopFrom in names && infos[j].stopTo in names
    requires k < |infos| && infos[k].stopFrom == s1 && infos[k].stopTo == s2
    ensures |ProtoRouterOf(wait, infos).stops| == 2
  {
    SavedStopsWithin(wait, infos, names);
    SavedRecordStops(wait, infos, k);
    TwoNamesListed(NamesOf(ProtoRouterOf(wait, infos).stops), names, s1, s2);
  }

  /** The stops of every saved record are in the saved list of stops. */
  lemma SavedRecordStops(wait: real, infos: seq<EdgeInfo>, k: nat)
    requires k < |infos|
    ensures var ns := NamesOf(ProtoRouterOf(wait, infos).stops);
            infos[k].stopFrom in ns && infos[k].stopTo in ns
  {
    SavedMessageAt(wait, infos, k);
    var p := ProtoRouterOf(wait, infos);
    var ns := NamesOf(p.stops);
    var e := p.edgesInfo[k];
    assert ns[e.stopFrom] == infos[k].stopFrom && ns[e.stopTo] == infos[k].stopTo;
  }

  /** A list of distinct names drawn from two, holding both, has two
      entries. */
  lemma TwoNamesListed(ns: seq<string>, names: set<string>, s1: string, s2: string)
    requires (forall x | x in names :: x == s1 || x == s2) && forall t | 0 <= t < |ns| :: ns[t] in names
    requires forall a, b | 0 <= a < b < |ns| :: ns[a] != ns[b]
    requires s1 != s2 && s1 in ns && s2 in ns
    ensures |ns| == 2
  {
    AtMostTwo(ns, names, s1, s2);
  }

  /** Records that name only stops of a set are saved with a list of
      distinct stops of that set. */
  lemma SavedStopsWithin(wait: real, infos: seq<EdgeInfo>, names: set<string>)
    requires forall j | 0 <= j < |infos| :: infos[j].stopFrom in names && infos[j].stopTo in names
    ensures var ns := NamesOf(ProtoRouterOf(wait, infos).stops);
            && (forall j | 0 <= j < |ns| :: ns[j] in names)
            && (forall a, b | 0 <= a < b < |ns| :: ns[a] != ns[b])
  {
    var p := ProtoRouterOf(wait, infos);
    SavedLists(wait, infos);
    StopNamesWithin(infos, names);
    var ns := NamesOf(p.stops);
    forall j | 0 <= j < |ns| ensures ns[j] in names {
      assert ns[j] in StopNames(infos);
    }
  }

  /** Of three names drawn from two, two are equal. */
  lemma AtMostTwo(ns: seq<string>, names: set<string>, s1: string, s2: string)
    requires forall x | x in names :: x == s1 || x == s2
    requires forall j | 0 <= j < |ns| :: ns[j] in names
    ensures |ns| > 2 ==> ns[0] == ns[1] || ns[0] == ns[2] || ns[1] == ns[2]
  {
  }

  /** A built graph whose ids name catalogue stops and whose records each
      explain an edge of it: what `RouterRoundTrip` needs. */
  predicate RecordsExplained(wait: real, b: Built, st: State, ids: map<string, nat>)
  {
    && (forall x | x in ids :: x in st.stops)
    && (forall i | i in b.info :: i < |b.graph.edges|)
    && (forall i | i in b.info ::
          i < |b.graph.edges| && Explains(ids, wait, st.buses.Keys, b.graph.edges[i], b.info[i]))
  }

  /** Records that name only the two stops s1 and s2, and a record id that
      rides from s1 to s2 into a vertex numbered 2 or more. */
  predicate TwoStopRide(b: Built, names: set<string>, s1: string, s2: string, id: nat)
  {
    && (forall i | i in b.info :: b.info[i].stopFrom in names && b.info[i].stopTo in names)
    && (forall x | x in names :: x == s1 || x == s2) && s1 != s2
    && id in b.info && b.info[id].stopFrom == s1 && b.info[id].stopTo == s2
    && id < |b.graph.edges| && b.graph.edges[id].to >= 2
  }

  /** Both. */
  predicate TwoStopRecords(wait: real, b: Built, st: State, ids: map<string, nat>,
                           names: set<string>, s1: string, s2: string, id: nat)
  {
    RecordsExplained(wait, b, st, ids) && TwoStopRide(b, names, s1, s2, id)
  }

  /** As written, the graph restored from the message that saves the
      records of a table in the given iteration order. */
  ghost function SavedThenRestored(wait: real, info: map<nat, EdgeInfo>, order: seq<nat>,
                                   st: State, ids: map<string, nat>): Option<Graph>
    requires Serialization.Enumerates(order, info.Keys)
  {
    assert forall j | 0 <= j < |order| :: order[j] in info;
    RestoredGraphAsWritten(ProtoRouterOf(wait, Records(info, order)), st, ids)
  }

  /** Saved in any order, the record with a given id sits at some
      position k of the saved records. */
  lemma SavedPosition(info: map<nat, EdgeInfo>, order: seq<nat>, id: nat) returns (k: nat)
    requires Serialization.Enumerates(order, info.Keys)
    requires id in info
    ensures forall j | 0 <= j < |order| :: order[j] in info
    ensures k < |order| && order[k] == id && Records(info, order)[k] == info[id]
  {
    assert id in order;
    k :| 0 <= k < |order| && order[k] == id;
    RecordsAt(info, order, k);
  }

  /** Saved in any order, records that name only some stops still do. */
  lemma SavedWithin(info: map<nat, EdgeInfo>, order: seq<nat>, names: set<string>)
    requires forall j | 0 <= j < |order| :: order[j] in info
    requires forall i | i in info :: info[i].stopFrom in names && info[i].stopTo in names
    ensures var infos := Records(info, order);
            forall j | 0 <= j < |infos| :: infos[j].stopFrom in names && infos[j].stopTo in names
  {
    var infos := Records(info, order);
    forall j | 0 <= j < |infos| ensures infos[j].stopFrom in names && infos[j].stopTo in names {
      RecordsAt(info, order, j);
    }
  }

  /** Saved in any order and restored as written, a built graph whose
      records name only two stops comes back with two vertices; record id,
      which rides from s1 to s2, is saved at the position k returned, and
      edge k of the restored graph is record id's edge. */
  lemma TwoStopRecordsSaved(wait: real, b: Built, order: seq<nat>, st: State, ids: map<string, nat>,
                            names: set<string>, s1: string, s2: string, id: nat) returns (k: nat)
    requires Serialization.Enumerates(order, b.info.Keys)
    requires TwoStopRecords(wait, b, st, ids, names, s1, s2, id)
    ensures var r := SavedThenRestored(wait, b.info, order, st, ids);
            && r.Some? && r.value.vertexCount == 2
            && k < |r.value.edges| && r.value.edges[k] == b.graph.edges[id]
  {
    k := SavedPosition(b.info, order, id);
    SavedWithin(b.info, order, names);
    RouterRoundTrip(wait, b.graph, b.info, order, st, ids);
    TwoStopRestore(wait, Records(b.info, order), st, ids, names, s1, s2, k);
  }

  /** Restored as written, records that name only two stops, one riding
      from the first to the second, give a graph of two vertices. */
  lemma TwoStopRestore(wait: real, infos: seq<EdgeInfo>, st: State, ids: map<string, nat>,
                       names: set<string>, s1: string, s2: string, k: nat)
    requires (forall x | x in names :: x == s1 || x == s2) && s1 != s2
    requires forall j | 0 <= j < |infos| :: infos[j].stopFrom in names && infos[j].stopTo in names
    requires k < |infos| && infos[k].stopFrom == s1 && infos[k].stopTo == s2
    ensures var r := RestoredGraphAsWritten(ProtoRouterOf(wait, infos), st, ids);
            r.Some? ==> r.value.vertexCount == 2
  {
    TwoStopsSaved(wait, infos, names, s1, s2, k);
    WrittenVertexCount(wait, infos, st, ids);
  }

  /** As written, a saved message restores with one vertex per saved stop
      number. */
  lemma WrittenVertexCount(wait: real, infos: seq<EdgeInfo>, st: State, ids: map<string, nat>)
    ensures var p := ProtoRouterOf(wait, infos);
            RestoredGraphAsWritten(p, st, ids).Some? ==> RestoredGraphAsWritten(p, st, ids).value.vertexCount == |p.stops|
  {
    SavedLists(wait, infos);
    IdMapOfDense(ProtoRouterOf(wait, infos).stops);
  }

  /** A graph with an edge into a vertex number not below its vertex count
      does not keep its endpoints in range. */
  lemma EdgeLeavesRange(g: Graph, k: nat)
    requires k < |g.edges| && g.edges[k].to >= g.vertexCount
    ensures !EndpointsInRange(g)
  {
  }

  /** The discrepancy of the restore as written, on the message the router
      really writes: the example's records, saved in any order its table
      may be iterated in, name the two stops B and C only, so the restored
      graph has 2 vertices; yet its edge k, from B to C, goes to C's router
      id, 2, which is not a vertex. */
  lemma RestoredGraphAsWrittenLeavesRange(geo: GeoDistance, velocity: real, wait: real, order: seq<nat>)
    returns (k: nat)
    requires velocity != 0.0
    requires Serialization.Enumerates(order, ExampleBuilt(geo, velocity, wait).info.Keys)
    ensures var r := SavedThenRestored(wait, ExampleBuilt(geo, velocity, wait).info, order,
                                       ExampleState(), ExampleIds());
            && r.Some? && r.value.vertexCount == 2
            && k < |r.value.edges| && r.value.edges[k].to == 2
  {
    var id := ExampleCase(geo, velocity, wait);
    k := TwoStopRecordsSaved(wait, ExampleBuilt(geo, velocity, wait), order, ExampleState(), ExampleIds(),
                             {"B", "C"}, "B", "C", id);
  }

  /** `DeserializeTransportRouter`, with one vertex per router id (see
      RestoredGraphAsWritten for the count the source uses): the waiting
      time is restored, then every saved record is named back, its edge
      added to the graph and its record stored under the edge's id. A
      failing lookup gives None. */
  method DeserializeTransportRouter(p: ProtoRouter, router: TransportRouter) returns (g: Option<Graph>)
    requires router.Valid()
    modifies router
    ensures router.Valid()
    ensures router.stopsId == old(router.stopsId) && router.velocity == old(router.velocity)
    ensures router.wait == p.busWaitTime
    ensures g == RestoredGraph(p, router.catalogue.Snapshot(), router.stopsId)
    ensures g.Some? ==>
              router.edgesInfo
              == Record(old(router.edgesInfo), 0,
                        RestoreAll(LookupOf(p, router.catalogue.Snapshot(), router.stopsId), p.edgesInfo).value.infos)
  {
    var buses := IdMap(p.buses);
    var stops := IdMap(p.stops);
    router.SetBusWaitTime(p.busWaitTime);
    var l := Lookup(buses, stops, router.catalogue.Snapshot(), router.stopsId, p.busWaitTime);
    g := RestoreEdges(l, p.edgesInfo, router);
  }

  /** The loop of `DeserializeTransportRouter`: every saved record in turn
      is named back through the lookup, its edge added to a graph with one
      vertex per router id, and its record stored under the edge's id. */
  method RestoreEdges(l: Lookup, es: seq<ProtoEdgeInfo>, router: TransportRouter) returns (g: Option<Graph>)
    requires router.stopsId == l.ids && router.wait == l.wait
    modifies router
    ensures router.stopsId == old(router.stopsId) && router.velocity == old(router.velocity)
    ensures router.wait == old(router.wait)
    ensures g == if RestoreAll(l, es).Some? then Some(Graph(|l.ids|, RestoreAll(l, es).value.edges)) else None
    ensures g.Some? ==> router.edgesInfo == Record(old(router.edgesInfo), 0, RestoreAll(l, es).value.infos)
  {
    var st := l.st;
    var ids := router.stopsId;
    var graph := NewGraph(|ids|);
    ghost var infos: seq<EdgeInfo> := [];
    var i := 0;
    while i < |es|
      invariant i <= |es|
      invariant router.stopsId == ids
      invariant router.velocity == old(router.velocity) && router.wait == l.wait
      invariant graph.vertexCount == |ids|
      invariant RestoreUpTo(l, es, i) == Some(Restored(infos, graph.edges))
      invariant router.edgesInfo == Record(old(router.edgesInfo), 0, infos)
    {
      var e := es[i];
      if !(&& e.bus in l.buses && l.buses[e.bus] in st.buses
           && e.stopFrom in l.stops && l.stops[e.stopFrom] in st.stops
           && e.stopTo in l.stops && l.stops[e.stopTo] in st.stops
           && l.stops[e.stopFrom] in ids && l.stops[e.stopTo] in ids)
      {
        RestoreFails(l, es, i);
        return None;
      }
      var info := EdgeInfo(l.buses[e.bus], e.spanCount, e.time, l.stops[e.stopFrom], l.stops[e.stopTo]);
      ghost var before := graph.edges;
      var edge;
      edge, graph := AddRestored(router, graph, info);
      RestoreStep(l, es, i, infos, before, old(router.edgesInfo), info, edge);
      infos := infos + [info];
      i := i + 1;
    }
    g := Some(graph);
  }

  /** One restored record: its stops' router ids, looked up as
      `GetStopId` does, give the edge, which is added to the graph, and the
      record is stored under the edge's id. */
  method AddRestored(router: TransportRouter, graph: Graph, info: EdgeInfo) returns (edge: Edge, g: Graph)
    requires info.stopFrom in router.stopsId && info.stopTo in router.stopsId
    modifies router
    ensures router.stopsId == old(router.stopsId) && router.velocity == old(router.velocity)
    ensures router.wait == old(router.wait)
    ensures edge == Edge(router.stopsId[info.stopFrom], router.stopsId[info.stopTo], info.time + router.wait)
    ensures g == Graph(graph.vertexCount, graph.edges + [edge])
    ensures router.edgesInfo == old(router.edgesInfo)[|graph.edges| := info]
  {
    var from := router.stopsId[info.stopFrom];
    var to := router.stopsId[info.stopTo];
    edge := Edge(from, to, info.time + router.wait);
    var added := AddEdge(graph, edge);
    g := added.0;
    router.AddEdgeInfo(added.1, info);
  }

  /** A saved record that does not restore makes the whole restore fail. */
  lemma RestoreFails(l: Lookup, es: seq<ProtoEdgeInfo>, i: nat)
    requires i < |es| && !Restores(l, es[i])
    ensures RestoreAll(l, es) == None
  {
    RestoreUpToAt(l, es, |es|, i);
  }

  /** Restoring one saved record more, to info and edge: the record is
      stored under the next edge id. */
  lemma RestoreStep(l: Lookup, es: seq<ProtoEdgeInfo>, i: nat, infos: seq<EdgeInfo>, edges: seq<Edge>,
                    m: map<nat, EdgeInfo>, info: EdgeInfo, edge: Edge)
    requires i < |es| && RestoreUpTo(l, es, i) == Some(Restored(infos, edges))
    requires RestoredInfo(l, es[i]) == Some(info) && RestoredEdge(l, info) == Some(edge)
    ensures RestoreUpTo(l, es, i + 1) == Some(Restored(infos + [info], edges + [edge]))
    ensures Record(m, 0, infos + [info]) == Record(m, 0, infos)[|edges| := info]
  {
    RestoreUpToSize(l, es, i);
    RecordAppend(m, 0, infos, [info]);
    assert [info][..0] == [];
  }

  // ------------------------------------------------------------ the round trip

  /** The numbers of saved names lead back to the names. */
  lemma IdMapOfNamed(names: seq<string>)
    ensures forall j: nat :: j in IdMap(Named(names)) <==> j < |names|
    ensures forall j | 0 <= j < |names| :: IdMap(Named(names))[j] == names[j]
  {
    IdMapOfDense(Named(names));
  }

  /** The restored record k of a message built from the saving state s
      is e, when s's record k names back e, e's bus is in the catalogue
      and e's stops have router ids. */
  lemma RestoredSaved(s: Saving, p: ProtoRouter, st: State, ids: map<string, nat>, k: nat, e: EdgeInfo)
    requires p.buses == Named(s.buses) && p.stops == Named(s.stops) && p.edgesInfo == s.edges
    requires forall x | x in ids :: x in st.stops
    requires k < |s.edges| && SavedAs(s, k, e)
    requires e.nameBus in st.buses && e.stopFrom in ids && e.stopTo in ids
    ensures Restores(LookupOf(p, st, ids), p.edgesInfo[k])
    ensures RestoredInfo(LookupOf(p, st, ids), p.edgesInfo[k]) == Some(e)
  {
    IdMapOfNamed(s.buses);
    IdMapOfNamed(s.stops);
  }

  /** Saved record k restores to record k, when record k's bus is in the
      catalogue and its stops have router ids. */
  lemma RoundTripAt(wait: real, infos: seq<EdgeInfo>, st: State, ids: map<string, nat>, k: nat)
    requires forall x | x in ids :: x in st.stops
    requires k < |infos| && infos[k].nameBus in st.buses && infos[k].stopFrom in ids && infos[k].stopTo in ids
    ensures var p := ProtoRouterOf(wait, infos);
            && k < |p.edgesInfo|
            && Restores(LookupOf(p, st, ids), p.edgesInfo[k])
            && RestoredInfo(LookupOf(p, st, ids), p.edgesInfo[k]) == Some(infos[k])
  {
    SavedAt(infos, k);
    RestoredSaved(Saved(infos), ProtoRouterOf(wait, infos), st, ids, k, infos[k]);
  }

  /** Saved records that each restore to the record at the same place
      restore, all together, to those records. */
  lemma RestoredAll(l: Lookup, es: seq<ProtoEdgeInfo>, infos: seq<EdgeInfo>)
    requires |es| == |infos|
    requires forall k | 0 <= k < |es| :: Restores(l, es[k]) && RestoredInfo(l, es[k]) == Some(infos[k])
    ensures RestoreAll(l, es).Some? && RestoreAll(l, es).value.infos == infos
  {
    RestoreUpToSucceeds(l, es, |es|);
    RestoreUpToSize(l, es, |es|);
    forall k | 0 <= k < |es| ensures RestoreAll(l, es).value.infos[k] == infos[k] {
      RestoreUpToAt(l, es, |es|, k);
    }
  }

  /** Saving records whose buses are in the catalogue and whose stops
      have router ids (so are stops of the catalogue), then restoring,
      never fails and gives back the same records in saved order. */
  lemma RouterRecordsRoundTrip(wait: real, infos: seq<EdgeInfo>, st: State, ids: map<string, nat>)
    requires forall x | x in ids :: x in st.stops
    requires forall k | 0 <= k < |infos| ::
               infos[k].nameBus in st.buses && infos[k].stopFrom in ids && infos[k].stopTo in ids
    ensures var p := ProtoRouterOf(wait, infos);
            && RestoreAll(LookupOf(p, st, ids), p.edgesInfo).Some?
            && RestoreAll(LookupOf(p, st, ids), p.edgesInfo).value.infos == infos
  {
    SavedSize(infos);
    var p := ProtoRouterOf(wait, infos);
    var l := LookupOf(p, st, ids);
    forall k | 0 <= k < |infos|
      ensures Restores(l, p.edgesInfo[k]) && RestoredInfo(l, p.edgesInfo[k]) == Some(infos[k])
    {
      RoundTripAt(wait, infos, st, ids, k);
    }
    RestoredAll(l, p.edgesInfo, infos);
  }

  /** A record restored beside the edge it explains rebuilds that edge. */
  lemma RestoredEdgeExplained(l: Lookup, e: ProtoEdgeInfo, busNames: set<string>, edge: Edge, info: EdgeInfo)
    requires RestoredInfo(l, e) == Some(info) && Explains(l.ids, l.wait, busNames, edge, info)
    ensures RestoredEdge(l, info) == Some(edge)
  {
  }

  /** Restored edges, each explained by the record restored beside it,
      are the explained edges. */
  lemma RestoredEdgesExplained(l: Lookup, es: seq<ProtoEdgeInfo>, busNames: set<string>,
                                edges: seq<Edge>, infos: seq<EdgeInfo>)
    requires RestoreAll(l, es).Some? && RestoreAll(l, es).value.infos == infos
    requires |infos| == |es| && |edges| == |es|
    requires forall k | 0 <= k < |es| :: Explains(l.ids, l.wait, busNames, edges[k], infos[k])
    ensures RestoreAll(l, es).value.edges == edges
  {
    RestoreUpToSize(l, es, |es|);
    forall k | 0 <= k < |es| ensures RestoreAll(l, es).value.edges[k] == edges[k] {
      RestoreUpToAt(l, es, |es|, k);
      RestoredEdgeExplained(l, es[k], busNames, edges[k], infos[k]);
    }
  }

  /** The edges with the given ids, in the order of the ids. */
  function InOrder(edges: seq<Edge>, order: seq<nat>): (r: seq<Edge>)
    requires forall k | 0 <= k < |order| :: order[k] < |edges|
    ensures |r| == |order| && forall k | 0 <= k < |order| :: r[k] == edges[order[k]]
  {
    seq(|order|, k requires 0 <= k < |order| => edges[order[k]])
  }

  /** Saving the records of a built graph in any order and restoring them
      with the same waiting time and ids rebuilds, at position k, the edge
      that had id order[k]: the graph comes back with its edges renumbered
      by the save order, each beside its own record. */
  lemma RouterRoundTrip(wait: real, g: Graph, info: map<nat, EdgeInfo>, order: seq<nat>,
                        st: State, ids: map<string, nat>)
    requires forall x | x in ids :: x in st.stops
    requires Serialization.Enumerates(order, info.Keys)
    requires forall id | id in info :: id < |g.edges| && Explains(ids, wait, st.buses.Keys, g.edges[id], info[id])
    ensures var p := ProtoRouterOf(wait, Records(info, order));
            && RestoreAll(LookupOf(p, st, ids), p.edgesInfo).Some?
            && RestoreAll(LookupOf(p, st, ids), p.edgesInfo).value.infos == Records(info, order)
            && RestoreAll(LookupOf(p, st, ids), p.edgesInfo).value.edges
               == InOrder(g.edges, order)
  {
    var infos := Records(info, order);
    var edges := InOrder(g.edges, order);
    forall k | 0 <= k < |order|
      ensures order[k] in info && infos[k] == info[order[k]]
      ensures Explains(ids, wait, st.buses.Keys, edges[k], infos[k])
    {
      RecordsAt(info, order, k);
    }
    RouterRecordsRoundTrip(wait, infos, st, ids);
    SavedSize(infos);
    var p := ProtoRouterOf(wait, infos);
    var l := LookupOf(p, st, ids);
    assert l.ids == ids && l.wait == wait;
    RestoredEdgesExplained(l, p.edgesInfo, st.buses.Keys, edges, infos);
  }
}
