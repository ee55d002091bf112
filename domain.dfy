/** The records shared by the catalogue, the router and the request handler,
    with the default values the source gives their members. */
module Domain {

  /** A point on the globe (`geo::Coordinates`). */
  datatype Coordinates = Coordinates(lat: real, lng: real)

  /** `geo::ComputeDistance`, the great-circle distance in metres. Its
      numerics are not modelled: every member that needs it takes it as a
      parameter, and only what a lemma states about it is assumed. */
  type GeoDistance = (Coordinates, Coordinates) -> real

  /** A bus as read from the input; `is_circular` defaults to false. */
  datatype BusInputInfo = BusInputInfo(nameBus: string, isCircular: bool, stops: seq<string>)

  const NewBusInputInfo := BusInputInfo("", false, [])

  /** A stop as read from the input, with its outgoing road distances. */
  datatype StopInputInfo = StopInputInfo(nameStop: string, coordinates: Coordinates,
                                         distanceToOtherStops: map<string, int>)

  /** A stored bus: its route as stop names (the source keeps a name and the
      address of the stop's coordinates, which the model looks up by name). */
  datatype Bus = Bus(stops: seq<string>, isCircular: bool)

  /** `real_route_length / straight_route_length`. A zero straight length
      gives an IEEE infinity or NaN in the source, kept apart here. */
  datatype Curvature = Ratio(value: real) | NotFinite

  /** Statistics of one bus. An empty name encodes "bus not found". */
  datatype BusInformation = BusInformation(nameBus: string, stopsOnRoute: int, uniqueStops: int,
                                           routeLength: int, curvature: Curvature)

  const NoBusInformation := BusInformation("", 0, 0, 0, Ratio(0.0))

  /** The buses through one stop, in name order (a `std::set`). An empty name
      encodes "stop not found". */
  datatype StopInformation = StopInformation(nameStop: string, buses: seq<string>)

  const NoStopInformation := StopInformation("", [])

  /** What a graph edge means: one ride on one bus. */
  datatype EdgeInfo = EdgeInfo(nameBus: string, spanCount: int, time: real,
                               stopFrom: string, stopTo: string)

  const NewEdgeInfo := EdgeInfo("", 0, 0.0, "", "")

  /** A routing answer; `routeFound` is false by default. */
  datatype RouteInformation = RouteInformation(totalTime: real, edgesInfo: seq<EdgeInfo>,
                                               busWaitTime: real, routeFound: bool)

  const NoRouteInformation := RouteInformation(0.0, [], 0.0, false)

  /** Assigning a `double` to an `int` member truncates toward zero (as
      `BusInformation::route_length = real_route_length` does). */
  function TruncateToInt(x: real): (r: int)
    ensures x >= 0.0 ==> r as real <= x < r as real + 1.0
    ensures x < 0.0 ==> r as real - 1.0 < x <= r as real
  {
    if x >= 0.0 then x.Floor else -((-x).Floor)
  }
}
