/** The map renderer's layout rules: which SVG shapes the bus routes, the
    bus names, the stop symbols and the stop names become, in which order,
    and which palette colour each one takes. Projecting coordinates onto
    the canvas is a parameter; writing the shapes out as SVG text is not
    part of this model. */
module MapRendering {
  import opened Wrappers
  import opened Domain
  import opened Json

  /** `uint8_t`. */
  newtype byte = x: int | 0 <= x < 256

  /** `svg::Color`: unset (`std::monostate`), a colour name, or red, green
      and blue channels with or without an opacity. */
  datatype Color =
    | NoColor
    | Named(name: string)
    | Rgb(red: byte, green: byte, blue: byte)
    | Rgba(red: byte, green: byte, blue: byte, opacity: real)

  datatype Point = Point(x: real, y: real)

  datatype StrokeLineCap = ButtCap | RoundCap | SquareCap

  datatype StrokeLineJoin = ArcsJoin | BevelJoin | MiterJoin | MiterClipJoin | RoundJoin

  /** `svg::PathProps`: every attribute is absent until it is set. */
  datatype Props = Props(fill: Option<Color>, stroke: Option<Color>, strokeWidth: Option<real>,
                         lineCap: Option<StrokeLineCap>, lineJoin: Option<StrokeLineJoin>)

  const NoProps := Props(None, None, None, None, None)

  datatype Polyline = Polyline(points: seq<Point>, props: Props)

  datatype Circle = Circle(center: Point, radius: real, props: Props)

  /** `svg::Text`; the font size is a `uint32_t`. */
  datatype Text = Text(position: Point, offset: Point, size: nat, fontFamily: Option<string>,
                       fontWeight: Option<string>, data: string, props: Props)

  /** `MapRenderer::RenderSettings`. */
  datatype RenderSettings = RenderSettings(
    width: real, height: real, padding: real, lineWidth: real, stopRadius: real,
    busLabelFontSize: int, busLabelOffset: seq<real>,
    stopLabelFontSize: int, stopLabelOffset: seq<real>,
    underlayerColor: Color, underlayerWidth: real, colorPalette: seq<Color>)

  /** A stop as the renderer receives it: its name and its coordinates. */
  datatype StopAt = StopAt(name: string, at: Coordinates)

  /** A bus as the renderer receives it, with the stops of its route. */
  datatype BusLine = BusLine(name: string, stops: seq<StopAt>, isCircular: bool)

  /** Passing an `int` where a `uint32_t` is expected keeps it modulo 2^32. */
  function ToUint32(i: int): (r: nat)
    ensures r < 0x1_0000_0000 && (0 <= i < 0x1_0000_0000 ==> r == i)
  {
    i % 0x1_0000_0000
  }

  // ---------------------------------------------------------- the palette

  /** The palette counter after one use: the next colour, or the first one
      again after the last. */
  function NextColorNum(c: nat, n: nat): (r: nat)
    ensures n > 0 ==> r < n
  {
    if c + 1 < n then c + 1 else 0
  }

  /** A non-zero multiple of n is at least n away from zero. */
  lemma MultipleBounds(d: int, n: nat)
    ensures d >= 1 ==> d * n >= n
    ensures d <= -1 ==> d * n + n <= 0
  {
    if d >= 1 {
      assert d * n == (d - 1) * n + n;
    } else if d <= -1 {
      assert d * n == (d + 1) * n - n;
    }
  }

  /** q whole rounds of n plus a remainder r below n leave r. */
  lemma ModOfSum(q: nat, r: nat, n: nat)
    requires r < n
    ensures (q * n + r) % n == r
  {
    var a := q * n + r;
    var d := q - a / n;
    assert a == (a / n) * n + a % n;
    assert d * n == a % n - r;
    MultipleBounds(d, n);
  }

  /** The counter walks the palette cyclically: after k uses it stands at
      k mod n. */
  lemma NextColorNumCycles(k: nat, n: nat)
    requires n > 0
    ensures NextColorNum(k % n, n) == (k + 1) % n
  {
    var q := k / n;
    assert k == q * n + k % n;
    if k % n + 1 < n {
      ModOfSum(q, k % n + 1, n);
    } else {
      ModOfSum(q + 1, 0, n);
      assert k + 1 == (q + 1) * n;
    }
  }

  // ---------------------------------------------------------- bus routes

  /** The points of a bus line: the stops in order and, for a bus that is
      not circular, the way back without repeating the last stop. */
  function RoutePoints(project: Coordinates -> Point, stops: seq<StopAt>, isCircular: bool): (r: seq<Point>)
    ensures |r| == if isCircular || stops == [] then |stops| else 2 * |stops| - 1
    ensures forall i | 0 <= i < |stops| :: r[i] == project(stops[i].at)
    ensures !isCircular && stops != [] ==>
              forall m | |stops| <= m < 2 * |stops| - 1 :: r[m] == project(stops[2 * |stops| - 2 - m].at)
  {
    var there := seq(|stops|, i requires 0 <= i < |stops| => project(stops[i].at));
    if isCircular || stops == [] then there
    else there + seq(|stops| - 1, j requires 0 <= j < |stops| - 1 => project(stops[|stops| - 2 - j].at))
  }

  /** The line of a bus, stroked with palette colour c. */
  function RouteLine(s: RenderSettings, project: Coordinates -> Point, bus: BusLine, c: nat): Polyline
    requires c < |s.colorPalette|
  {
    Polyline(RoutePoints(project, bus.stops, bus.isCircular),
             Props(Some(Named("none")), Some(s.colorPalette[c]), Some(s.lineWidth), Some(RoundCap), Some(RoundJoin)))
  }

  // ---------------------------------------------------------- labels

  /** The underlayer of a label: the same text, filled and stroked with the
      underlayer colour. */
  function Underlayer(s: RenderSettings, t: Text): Text
  {
    t.(props := Props(Some(s.underlayerColor), Some(s.underlayerColor), Some(s.underlayerWidth),
                      Some(RoundCap), Some(RoundJoin)))
  }

  /** The name of a bus written at a point, before it is coloured. */
  function BusName(s: RenderSettings, name: string, at: Point): Text
    requires |s.busLabelOffset| >= 2
  {
    Text(at, Point(s.busLabelOffset[0], s.busLabelOffset[1]), ToUint32(s.busLabelFontSize),
         Some("Verdana"), Some("bold"), name, NoProps)
  }

  /** The labels of one bus, with palette colour c: none for a bus without
      stops; an underlayer and a text at the first stop; the same pair at
      the last stop when it differs from the first. */
  function BusLabels(s: RenderSettings, project: Coordinates -> Point, bus: BusLine, c: nat): seq<Text>
    requires c < |s.colorPalette| && |s.busLabelOffset| >= 2
  {
    if bus.stops == [] then []
    else
      var first := BusName(s, bus.name, project(bus.stops[0].at));
      var text := first.(props := NoProps.(fill := Some(s.colorPalette[c])));
      var pair := [Underlayer(s, first), text];
      if bus.stops[0] == Last(bus.stops) then pair
      else
        var at := project(Last(bus.stops).at);
        pair + [Underlayer(s, first).(position := at), text.(position := at)]
  }

  /** The number of buses with at least one stop. */
  function Labelled(buses: seq<BusLine>): nat
    decreases |buses|
  {
    if buses == [] then 0
    else Labelled(Front(buses)) + (if Last(buses).stops == [] then 0 else 1)
  }

  /** Labelling one bus more: its labels follow, in the colour of the
      number of labelled buses before it. */
  lemma NameBusesNext(s: RenderSettings, project: Coordinates -> Point, buses: seq<BusLine>, i: nat)
    requires CanLabel(s, buses) && i < |buses|
    ensures CanLabel(s, buses[..i]) && CanLabel(s, buses[..i + 1])
    ensures Labelled(buses[..i + 1]) == Labelled(buses[..i]) + (if buses[i].stops == [] then 0 else 1)
    ensures NameBuses(s, project, buses[..i + 1])
            == NameBuses(s, project, buses[..i])
               + (if buses[i].stops == [] then []
                  else BusLabels(s, project, buses[i], Labelled(buses[..i]) % |s.colorPalette|))
  {
    var next := buses[..i + 1];
    assert next[..i] == buses[..i];
    assert Last(next) == buses[i];
    if |s.colorPalette| == 0 || |s.busLabelOffset| < 2 {
      forall k | 0 <= k < |next| ensures next[k].stops == [] {
        assert next[k] == buses[k];
      }
    }
  }

  /** The number of buses whose first and last stops differ. */
  function TwoEnded(buses: seq<BusLine>): nat
    decreases |buses|
  {
    if buses == [] then 0
    else TwoEnded(Front(buses)) + (if Last(buses).stops != [] && Last(buses).stops[0] != Last(Last(buses).stops) then 1 else 0)
  }

  /** Whether the renderer can label these buses: the palette and the
      label offset are only read when some bus has a stop. */
  predicate CanLabel(s: RenderSettings, buses: seq<BusLine>)
  {
    (forall k | 0 <= k < |buses| :: buses[k].stops == []) || (|s.colorPalette| > 0 && |s.busLabelOffset| >= 2)
  }

  /** The labels of all buses, in order: each bus takes the palette colour
      of the number of labelled buses before it. */
  function NameBuses(s: RenderSettings, project: Coordinates -> Point, buses: seq<BusLine>): seq<Text>
    requires CanLabel(s, buses)
    decreases |buses|
  {
    if buses == [] then []
    else
      var front := Front(buses);
      assert CanLabel(s, front) by {
        if |s.colorPalette| == 0 || |s.busLabelOffset| < 2 {
          forall k | 0 <= k < |front| ensures front[k].stops == [] {
            assert front[k] == buses[k];
          }
        }
      }
      NameBuses(s, project, front)
        + (if Last(buses).stops == [] then []
           else BusLabels(s, project, Last(buses), Labelled(front) % |s.colorPalette|))
  }

  /** The labels of one bus: none without stops, two (underlayer, then the
      text in the palette colour at the first stop) when the route starts
      and ends at the same stop, four otherwise, the second pair at the
      last stop. */
  lemma BusLabelsShape(s: RenderSettings, project: Coordinates -> Point, bus: BusLine, c: nat)
    requires c < |s.colorPalette| && |s.busLabelOffset| >= 2
    ensures var r := BusLabels(s, project, bus, c);
            && |r| == (if bus.stops == [] then 0 else if bus.stops[0] == Last(bus.stops) then 2 else 4)
            && (bus.stops != [] ==>
                  && r[0].position == r[1].position == project(bus.stops[0].at)
                  && r[0].data == r[1].data == bus.name
                  && r[0].props.fill == Some(s.underlayerColor)
                  && r[1].props.fill == Some(s.colorPalette[c]))
            && (|r| == 4 ==>
                  && r[2].position == r[3].position == project(Last(bus.stops).at)
                  && r[2] == r[0].(position := r[2].position) && r[3] == r[1].(position := r[3].position))
  {
  }

  /** Each bus with stops adds two labels, and two more when its ends
      differ. */
  lemma {:induction false} NameBusesCount(s: RenderSettings, project: Coordinates -> Point, buses: seq<BusLine>)
    requires CanLabel(s, buses)
    ensures |NameBuses(s, project, buses)| == 2 * Labelled(buses) + 2 * TwoEnded(buses)
    decreases |buses|
  {
    if buses != [] {
      var front := Front(buses);
      assert CanLabel(s, front) by {
        if |s.colorPalette| == 0 || |s.busLabelOffset| < 2 {
          forall k | 0 <= k < |front| ensures front[k].stops == [] {
            assert front[k] == buses[k];
          }
        }
      }
      NameBusesCount(s, project, front);
      if Last(buses).stops != [] {
        assert Last(buses) == buses[|buses| - 1];
        BusLabelsShape(s, project, Last(buses), Labelled(front) % |s.colorPalette|);
      }
    }
  }

  // ---------------------------------------------------------- stops

  /** The white circle of a stop. */
  function StopSymbol(s: RenderSettings, project: Coordinates -> Point, stop: StopAt): Circle
  {
    Circle(project(stop.at), s.stopRadius, NoProps.(fill := Some(Named("white"))))
  }

  /** The name of a stop at its position, before it is coloured. */
  function StopName(s: RenderSettings, project: Coordinates -> Point, stop: StopAt): Text
    requires |s.stopLabelOffset| >= 2
  {
    Text(project(stop.at), Point(s.stopLabelOffset[0], s.stopLabelOffset[1]), ToUint32(s.stopLabelFontSize),
         Some("Verdana"), None, stop.name, NoProps)
  }

  // ---------------------------------------------------------- colours read from JSON

  /** `static_cast<uint8_t>(node.AsInt())`: the integer modulo 256;
      `AsInt` throws on any other node. */
  function AsByte(n: Node): (r: Option<byte>)
    ensures r.Some? <==> n.Int?
    ensures n.Int? && 0 <= n.i < 256 ==> r == Some(n.i as byte)
  {
    if n.Int? then Some((n.i % 256) as byte) else None
  }

  /** `AsDouble`: an integer or a finite double. */
  function AsDouble(n: Node): (r: Option<real>)
    ensures r.Some? <==> n.Int? || n.Num?
  {
    match n
    case Int(i) => Some(i as real)
    case Num(x) => Some(x)
    case _ => None
  }

  /** `ReadColor`: a string is a colour name; an array of three integers is
      an RGB colour; a longer array adds its fourth element as the opacity.
      Anything else throws, and an array shorter than three is read past
      its end: both give None. */
  function ReadColor(n: Node): (r: Option<Color>)
  {
    if n.Str? then Some(Named(n.s))
    else if !n.Arr? || |n.items| < 3 then None
    else
      var red, green, blue := AsByte(n.items[0]), AsByte(n.items[1]), AsByte(n.items[2]);
      if red.None? || green.None? || blue.None? then None
      else if |n.items| == 3 then Some(Rgb(red.value, green.value, blue.value))
      else
        var opacity := AsDouble(n.items[3]);
        if opacity.None? then None else Some(Rgba(red.value, green.value, blue.value, opacity.value))
  }

  /** How a colour is written in the render settings. */
  function ColorNode(c: Color): Node
  {
    match c
    case NoColor => Null
    case Named(name) => Str(name)
    case Rgb(r, g, b) => Arr([Int(r as int), Int(g as int), Int(b as int)])
    case Rgba(r, g, b, o) => Arr([Int(r as int), Int(g as int), Int(b as int), Num(o)])
  }

  /** Every colour that can be written is read back unchanged. */
  lemma ReadColorInvertsColorNode(c: Color)
    requires !c.NoColor?
    ensures ReadColor(ColorNode(c)) == Some(c)
  {
  }

  /** Which colour a node gives: a string gives a name, an array of
      exactly three a colour without opacity, a longer array one with the
      fourth element as opacity. */
  lemma ReadColorShape(n: Node)
    requires ReadColor(n).Some?
    ensures ReadColor(n).value.Named? <==> n.Str?
    ensures ReadColor(n).value.Rgb? <==> n.Arr? && |n.items| == 3
    ensures ReadColor(n).value.Rgba? <==> n.Arr? && |n.items| > 3
    ensures ReadColor(n).value.Rgba? ==> AsDouble(n.items[3]) == Some(ReadColor(n).value.opacity)
    ensures !ReadColor(n).value.NoColor?
  {
  }

  // ---------------------------------------------------------- the renderer

  class MapRenderer {
    const settings: RenderSettings

    constructor (s: RenderSettings)
      ensures settings == s
    {
      settings := s;
    }

    /** The points of one bus line, gathered stop by stop. */
    method TracePoints(project: Coordinates -> Point, bus: BusLine) returns (points: seq<Point>)
      requires bus.isCircular || bus.stops != []
      ensures points == RoutePoints(project, bus.stops, bus.isCircular)
    {
      points := TraceThere(project, bus.stops);
      if !bus.isCircular {
        var back := TraceBack(project, bus.stops);
        points := points + back;
      }
      ghost var r := RoutePoints(project, bus.stops, bus.isCircular);
      assert forall k | 0 <= k < |r| :: points[k] == r[k];
    }

    /** The first loop of a bus line: the stops in order. */
    method TraceThere(project: Coordinates -> Point, stops: seq<StopAt>) returns (points: seq<Point>)
      ensures |points| == |stops|
      ensures forall k | 0 <= k < |stops| :: points[k] == project(stops[k].at)
    {
      points := [];
      var i := 0;
      while i < |stops|
        invariant 0 <= i <= |stops| && |points| == i
        invariant forall k | 0 <= k < i :: points[k] == project(stops[k].at)
      {
        points := points + [project(stops[i].at)];
        i := i + 1;
      }
    }

    /** The second loop of a bus line that is not circular: the stops
        before the last one, backwards. */
    method TraceBack(project: Coordinates -> Point, stops: seq<StopAt>) returns (points: seq<Point>)
      requires stops != []
      ensures |points| == |stops| - 1
      ensures forall j | 0 <= j < |stops| - 1 :: points[j] == project(stops[|stops| - 2 - j].at)
    {
      points := [];
      var i := |stops| - 1;
      while i > 0
        invariant 0 <= i <= |stops| - 1 && |points| == |stops| - 1 - i
        invariant forall j | 0 <= j < |points| :: points[j] == project(stops[|stops| - 2 - j].at)
      {
        points := points + [project(stops[i - 1].at)];
        i := i - 1;
      }
    }

    /** `DrawRoutes`: one line per bus, in the given (name) order; the k-th
        line is stroked with palette colour k mod the palette's size. A bus
        that is not circular must have a stop (the source counts down from
        `size() - 1`). */
    method DrawRoutes(project: Coordinates -> Point, buses: seq<BusLine>) returns (r: seq<Polyline>)
      requires buses != [] ==> |settings.colorPalette| > 0
      requires forall k | 0 <= k < |buses| :: buses[k].isCircular || buses[k].stops != []
      ensures |r| == |buses|
      ensures forall k | 0 <= k < |buses| ::
                r[k] == RouteLine(settings, project, buses[k], k % |settings.colorPalette|)
    {
      r := [];
      var colorNum := 0;
      var i := 0;
      while i < |buses|
        invariant 0 <= i <= |buses| && |r| == i
        invariant i < |buses| ==> colorNum == i % |settings.colorPalette|
        invariant forall k | 0 <= k < i :: r[k] == RouteLine(settings, project, buses[k], k % |settings.colorPalette|)
      {
        var points := TracePoints(project, buses[i]);
        var line := Polyline(points, Props(Some(Named("none")), Some(settings.colorPalette[colorNum]),
                                           Some(settings.lineWidth), Some(RoundCap), Some(RoundJoin)));
        NextColorNumCycles(i, |settings.colorPalette|);
        colorNum := NextColorNum(colorNum, |settings.colorPalette|);
        r := r + [line];
        i := i + 1;
      }
    }

    /** The labels of one bus with stops, coloured with palette entry c. */
    method LabelBus(project: Coordinates -> Point, bus: BusLine, c: nat) returns (labels: seq<Text>)
      requires bus.stops != [] && c < |settings.colorPalette| && |settings.busLabelOffset| >= 2
      ensures labels == BusLabels(settings, project, bus, c)
    {
      var text := BusName(settings, bus.name, project(bus.stops[0].at));
      var underlayer := Underlayer(settings, text);
      text := text.(props := NoProps.(fill := Some(settings.colorPalette[c])));
      labels := [underlayer, text];
      if bus.stops[0] != bus.stops[|bus.stops| - 1] {
        var at := project(bus.stops[|bus.stops| - 1].at);
        labels := labels + [underlayer.(position := at), text.(position := at)];
      }
    }

    /** One turn of the loop of `DrawNameBuses`: the labels of bus i, when
        it has stops, and the palette moved on by one. */
    method LabelNext(project: Coordinates -> Point, buses: seq<BusLine>, i: nat, r: seq<Text>, colorNum: nat)
      returns (r': seq<Text>, colorNum': nat)
      requires CanLabel(settings, buses) && i < |buses|
      requires CanLabel(settings, buses[..i]) && r == NameBuses(settings, project, buses[..i])
      requires |settings.colorPalette| > 0 ==> colorNum == Labelled(buses[..i]) % |settings.colorPalette|
      ensures CanLabel(settings, buses[..i + 1]) && r' == NameBuses(settings, project, buses[..i + 1])
      ensures |settings.colorPalette| > 0 ==> colorNum' == Labelled(buses[..i + 1]) % |settings.colorPalette|
    {
      NameBusesNext(settings, project, buses, i);
      ghost var k := Labelled(buses[..i]);
      r', colorNum' := r, colorNum;
      var bus := buses[i];
      if bus.stops != [] {
        var labels := LabelBus(project, bus, colorNum);
        NextColorNumCycles(k, |settings.colorPalette|);
        colorNum' := NextColorNum(colorNum, |settings.colorPalette|);
        assert colorNum' == (k + 1) % |settings.colorPalette|;
        r' := r + labels;
      } else {
        assert Labelled(buses[..i + 1]) == k;
      }
    }

    /** `DrawNameBuses`: the labels of every bus with stops, in order; the
        palette advances only for the buses that get labels. */
    method DrawNameBuses(project: Coordinates -> Point, buses: seq<BusLine>) returns (r: seq<Text>)
      requires CanLabel(settings, buses)
      ensures r == NameBuses(settings, project, buses)
    {
      r := [];
      var colorNum := 0;
      var i := 0;
      while i < |buses|
        invariant 0 <= i <= |buses|
        invariant CanLabel(settings, buses[..i])
        invariant r == NameBuses(settings, project, buses[..i])
        invariant |settings.colorPalette| > 0 ==> colorNum == Labelled(buses[..i]) % |settings.colorPalette|
      {
        r, colorNum := LabelNext(project, buses, i, r, colorNum);
        i := i + 1;
      }
      assert buses[..i] == buses;
    }

    /** `DrawStopSymbols`: one white circle of the stop radius per stop, in
        the given (name) order. */
    method DrawStopSymbols(project: Coordinates -> Point, stops: seq<StopAt>) returns (r: seq<Circle>)
      ensures |r| == |stops|
      ensures forall k | 0 <= k < |stops| ::
                r[k].center == project(stops[k].at) && r[k].radius == settings.stopRadius
                && r[k].props == NoProps.(fill := Some(Named("white")))
    {
      r := [];
      var i := 0;
      while i < |stops|
        invariant 0 <= i <= |stops| && |r| == i
        invariant forall k | 0 <= k < i :: r[k] == StopSymbol(settings, project, stops[k])
      {
        r := r + [Circle(project(stops[i].at), settings.stopRadius, NoProps.(fill := Some(Named("white"))))];
        i := i + 1;
      }
    }

    /** `DrawNameStop`: two texts per stop, in the given (name) order: the
        underlayer, then the name filled black. */
    method DrawNameStop(project: Coordinates -> Point, stops: seq<StopAt>) returns (r: seq<Text>)
      requires stops != [] ==> |settings.stopLabelOffset| >= 2
      ensures |r| == 2 * |stops|
      ensures forall k | 0 <= k < |stops| ::
                && r[2 * k] == Underlayer(settings, StopName(settings, project, stops[k]))
                && r[2 * k + 1] == StopName(settings, project, stops[k]).(props := NoProps.(fill := Some(Named("black"))))
    {
      r := [];
      var i := 0;
      while i < |stops|
        invariant 0 <= i <= |stops| && |r| == 2 * i
        invariant forall k | 0 <= k < i ::
                    && r[2 * k] == Underlayer(settings, StopName(settings, project, stops[k]))
                    && r[2 * k + 1] == StopName(settings, project, stops[k]).(props := NoProps.(fill := Some(Named("black"))))
      {
        var text := Text(project(stops[i].at), Point(settings.stopLabelOffset[0], settings.stopLabelOffset[1]),
                         ToUint32(settings.stopLabelFontSize), Some("Verdana"), None, stops[i].name, NoProps);
        var underlayer := Underlayer(settings, text);
        text := text.(props := NoProps.(fill := Some(Named("black"))));
        r := r + [underlayer, text];
        i := i + 1;
      }
    }
  }
}
