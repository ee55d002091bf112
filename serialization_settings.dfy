/** Saving and restoring the render settings: every field is copied, the
    label offsets and the palette element by element in order, and each
    colour goes through the tagged colour message. */
module SettingsSerialization {
  import opened MapRendering

  /** The colour message: a type tag, a colour name, three channels and an
      opacity; an unset field reads as "" or 0. */
  datatype ProtoColor = ProtoColor(kind: string, color: string, red: nat, green: nat, blue: nat, opacity: real)

  const UnsetColor := ProtoColor("", "", 0, 0, 0, 0.0)

  /** The render settings message. */
  datatype ProtoRenderSettings = ProtoRenderSettings(
    width: real, height: real, padding: real, lineWidth: real, stopRadius: real,
    busLabelFontSize: int, busLabelOffset: seq<real>,
    stopLabelFontSize: int, stopLabelOffset: seq<real>,
    underlayerColor: ProtoColor, underlayerWidth: real, colorPalette: seq<ProtoColor>)

  /** `GetProtoColor`: the tag names the alternative; an unset colour
      leaves the message empty. */
  function GetProtoColor(c: Color): (r: ProtoColor)
    ensures c.NoColor? <==> r == UnsetColor
  {
    match c
    case NoColor => UnsetColor
    case Named(name) => UnsetColor.(kind := "string", color := name)
    case Rgb(red, green, blue) => UnsetColor.(kind := "rgb", red := red as nat, green := green as nat, blue := blue as nat)
    case Rgba(red, green, blue, o) =>
      UnsetColor.(kind := "rgba", red := red as nat, green := green as nat, blue := blue as nat, opacity := o)
  }

  /** A channel field stored into a `uint8_t` keeps its value modulo 256. */
  function Channel(x: nat): (r: byte)
    ensures x < 256 ==> r as nat == x
  {
    (x % 256) as byte
  }

  /** `GetColor`: "string" gives a name, "rgb" three channels, any other
      tag (an unset one included) three channels and an opacity. */
  function GetColor(p: ProtoColor): (r: Color)
    ensures r.Named? <==> p.kind == "string"
    ensures r.Rgb? <==> p.kind == "rgb"
    ensures !r.NoColor?
  {
    if p.kind == "string" then Named(p.color)
    else if p.kind == "rgb" then Rgb(Channel(p.red), Channel(p.green), Channel(p.blue))
    else Rgba(Channel(p.red), Channel(p.green), Channel(p.blue), p.opacity)
  }

  /** Colours survive a save and restore; the unset colour comes back as
      a fully transparent black. */
  lemma ColorRoundTrip(c: Color)
    ensures !c.NoColor? ==> GetColor(GetProtoColor(c)) == c
    ensures c.NoColor? ==> GetColor(GetProtoColor(c)) == Rgba(0, 0, 0, 0.0)
  {
  }

  /** The message `CreateProtoRenderSettings` fills in. */
  function ProtoSettingsOf(s: RenderSettings): ProtoRenderSettings
  {
    ProtoRenderSettings(s.width, s.height, s.padding, s.lineWidth, s.stopRadius,
                        s.busLabelFontSize, s.busLabelOffset, s.stopLabelFontSize, s.stopLabelOffset,
                        GetProtoColor(s.underlayerColor), s.underlayerWidth,
                        seq(|s.colorPalette|, k requires 0 <= k < |s.colorPalette| => GetProtoColor(s.colorPalette[k])))
  }

  /** The settings `DeserializeMapRenderer` reads back. */
  function SettingsOf(p: ProtoRenderSettings): RenderSettings
  {
    RenderSettings(p.width, p.height, p.padding, p.lineWidth, p.stopRadius,
                   p.busLabelFontSize, p.busLabelOffset, p.stopLabelFontSize, p.stopLabelOffset,
                   GetColor(p.underlayerColor), p.underlayerWidth,
                   seq(|p.colorPalette|, k requires 0 <= k < |p.colorPalette| => GetColor(p.colorPalette[k])))
  }

  /** No colour of the settings is unset. */
  predicate ColorsSet(s: RenderSettings)
  {
    !s.underlayerColor.NoColor? && forall k | 0 <= k < |s.colorPalette| :: !s.colorPalette[k].NoColor?
  }

  /** Saved and restored settings are the settings, colour for colour and
      offset for offset, when no colour is unset; otherwise only the unset
      colours change, each into a fully transparent black. */
  lemma SettingsRoundTrip(s: RenderSettings)
    ensures ColorsSet(s) ==> SettingsOf(ProtoSettingsOf(s)) == s
    ensures var t := SettingsOf(ProtoSettingsOf(s));
            && t.busLabelOffset == s.busLabelOffset && t.stopLabelOffset == s.stopLabelOffset
            && |t.colorPalette| == |s.colorPalette|
            && forall k | 0 <= k < |s.colorPalette| ::
                 t.colorPalette[k] == if s.colorPalette[k].NoColor? then Rgba(0, 0, 0, 0.0) else s.colorPalette[k]
  {
    var t := SettingsOf(ProtoSettingsOf(s));
    forall k | 0 <= k < |s.colorPalette|
      ensures t.colorPalette[k] == if s.colorPalette[k].NoColor? then Rgba(0, 0, 0, 0.0) else s.colorPalette[k]
    {
      ColorRoundTrip(s.colorPalette[k]);
    }
    ColorRoundTrip(s.underlayerColor);
  }

  /** A list of numbers copied element by element. */
  method CopyOffsets(xs: seq<real>) returns (ys: seq<real>)
    ensures ys == xs
  {
    ys := [];
    var i := 0;
    while i < |xs|
      invariant 0 <= i <= |xs| && ys == xs[..i]
    {
      ys := ys + [xs[i]];
      i := i + 1;
    }
    assert xs[..i] == xs;
  }

  /** `CreateProtoRenderSettings`. */
  method CreateProtoRenderSettings(s: RenderSettings) returns (p: ProtoRenderSettings)
    ensures p == ProtoSettingsOf(s)
  {
    var busOffset := CopyOffsets(s.busLabelOffset);
    var stopOffset := CopyOffsets(s.stopLabelOffset);
    var palette: seq<ProtoColor> := [];
    var i := 0;
    while i < |s.colorPalette|
      invariant 0 <= i <= |s.colorPalette| && |palette| == i
      invariant forall k | 0 <= k < i :: palette[k] == GetProtoColor(s.colorPalette[k])
    {
      palette := palette + [GetProtoColor(s.colorPalette[i])];
      i := i + 1;
    }
    p := ProtoRenderSettings(s.width, s.height, s.padding, s.lineWidth, s.stopRadius,
                             s.busLabelFontSize, busOffset, s.stopLabelFontSize, stopOffset,
                             GetProtoColor(s.underlayerColor), s.underlayerWidth, palette);
  }

  /** `DeserializeMapRenderer`. */
  method DeserializeMapRenderer(p: ProtoRenderSettings) returns (s: RenderSettings)
    ensures s == SettingsOf(p)
  {
    var busOffset := CopyOffsets(p.busLabelOffset);
    var stopOffset := CopyOffsets(p.stopLabelOffset);
    var palette: seq<Color> := [];
    var i := 0;
    while i < |p.colorPalette|
      invariant 0 <= i <= |p.colorPalette| && |palette| == i
      invariant forall k | 0 <= k < i :: palette[k] == GetColor(p.colorPalette[k])
    {
      palette := palette + [GetColor(p.colorPalette[i])];
      i := i + 1;
    }
    s := RenderSettings(p.width, p.height, p.padding, p.lineWidth, p.stopRadius,
                        p.busLabelFontSize, busOffset, p.stopLabelFontSize, stopOffset,
                        GetColor(p.underlayerColor), p.underlayerWidth, palette);
  }
}
