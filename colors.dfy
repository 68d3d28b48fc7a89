/**
 * The colour tables and codecs of js/constants.js: the `ALPHA` opacities, `createColorConfig`
 * (one colour as the `rgb()` / `rgba()` functional forms of section 5.1 of CSS Color Module
 * Level 4), `hexToRgb` (the 6-digit hex form of section 5.2 of CSS Color Module Level 4, with an
 * optional `#`), the initial `COLOR_SCHEMES` table, and the global colour state that
 * `setColorScheme` and `updateCustomColors` change.
 */
module Colors {
  import opened Wrappers
  import opened Text

  /** An `{r, g, b}` triple. */
  datatype Rgb = Rgb(r: nat, g: nat, b: nat)

  /** Every channel fits in one byte. */
  predicate InRange(c: Rgb) {
    c.r <= 255 && c.g <= 255 && c.b <= 255
  }

  // ---------------------------------------------------------------- ALPHA, as a template literal prints it

  const AlphaBorder: string := "0.9"
  const AlphaBackground: string := "0.15"
  const AlphaRange: string := "0.8"
  const AlphaRangeBackground: string := "0.35"
  const AlphaFillArea: string := "0.1"
  const AlphaGrid: string := "0.5"

  // ---------------------------------------------------------------- createColorConfig

  /** `${r}, ${g}, ${b}`. */
  function Channels(r: nat, g: nat, b: nat): string {
    Dec(r) + ", " + Dec(g) + ", " + Dec(b)
  }

  /** `rgba(${r}, ${g}, ${b}, ${alpha})`. */
  function Rgba(r: nat, g: nat, b: nat, alpha: string): string {
    "rgba(" + Channels(r, g, b) + ", " + alpha + ")"
  }

  /** The object `createColorConfig(r, g, b)` returns, built here by `ColorConfig(r, g, b)`. Each of its
      seven strings is determined by the three channels, so the model keeps the channels and derives
      the strings from them: the `rgb()` form and one `rgba()` form per `ALPHA` entry. */
  datatype ColorConfig = ColorConfig(r: nat, g: nat, b: nat)
  {
    /** The opaque `rgb(r, g, b)` form. */
    function Primary(): string { "rgb(" + Channels(r, g, b) + ")" }
    function Border(): string { Rgba(r, g, b, AlphaBorder) }
    function Background(): string { Rgba(r, g, b, AlphaBackground) }
    function Range(): string { Rgba(r, g, b, AlphaRange) }
    function RangeBackground(): string { Rgba(r, g, b, AlphaRangeBackground) }
    function FillArea(): string { Rgba(r, g, b, AlphaFillArea) }
    function Grid(): string { Rgba(r, g, b, AlphaGrid) }
  }

  /** All seven strings name the same colour: every `rgba()` form repeats the channel text between
      the parentheses of the `rgb()` form, followed by its opacity. */
  lemma ConfigSharesChannels(c: ColorConfig)
    ensures var p := c.Primary();
      && |p| >= 5 && p[..4] == "rgb(" && p[|p| - 1] == ')'
      && forall alpha: string ::
           Rgba(c.r, c.g, c.b, alpha) == "rgba(" + p[4..|p| - 1] + ", " + alpha + ")"
  {
    var p, ch := c.Primary(), Channels(c.r, c.g, c.b);
    assert p == "rgb(" + ch + ")";
    assert p[4..|p| - 1] == ch;
  }

  function ConfigOf(c: Rgb): ColorConfig {
    ColorConfig(c.r, c.g, c.b)
  }

  // ---------------------------------------------------------------- hexToRgb

  /** What `/^#?([a-f\d]{2})([a-f\d]{2})([a-f\d]{2})$/i` accepts: an optional `#` and six hex digits. */
  predicate HexForm(hex: string) {
    (|hex| == 7 && hex[0] == '#' && AllHex(hex[1..])) || (|hex| == 6 && AllHex(hex))
  }

  /** The six digits after the optional `#`. */
  function HexDigits(hex: string): string {
    if |hex| > 0 && hex[0] == '#' then hex[1..] else hex
  }

  /** `hexToRgb(hex)`: `None` for JavaScript's `null`. */
  function HexToRgb(hex: string): (c: Option<Rgb>)
    ensures c.Some? <==> HexForm(hex)
    ensures c.Some? ==> InRange(c.value)
  {
    var d := HexDigits(hex);
    if |d| == 6 && AllHex(d) then
      assert Pow16(2) == 256;
      Some(Rgb(ParseHex(d[0..2]), ParseHex(d[2..4]), ParseHex(d[4..6])))
    else None
  }

  /** The `#rrggbb` text of an in-range colour: two lower-case digits per channel. */
  function HexText(c: Rgb): (h: string)
    requires InRange(c)
    ensures |h| == 7 && h[0] == '#' && AllLowerHex(h[1..])
    ensures h[1..] == FixedHex(c.r, 2) + FixedHex(c.g, 2) + FixedHex(c.b, 2)
  {
    FixedHexDigits(c.r, 2);
    FixedHexDigits(c.g, 2);
    FixedHexDigits(c.b, 2);
    "#" + FixedHex(c.r, 2) + FixedHex(c.g, 2) + FixedHex(c.b, 2)
  }

  /** `hexToRgb` reads back the colour the `#rrggbb` text was printed from. */
  lemma HexToRgbOfHexText(c: Rgb)
    requires InRange(c)
    ensures HexForm(HexText(c)) && HexToRgb(HexText(c)) == Some(c)
  {
    var h := HexText(c);
    var d := h[1..];
    assert Pow16(2) == 256;
    assert d == FixedHex(c.r, 2) + FixedHex(c.g, 2) + FixedHex(c.b, 2);
    assert d[0..2] == FixedHex(c.r, 2) && d[2..4] == FixedHex(c.g, 2) && d[4..6] == FixedHex(c.b, 2);
    ParseHexOfFixedHex(c.r, 2);
    ParseHexOfFixedHex(c.g, 2);
    ParseHexOfFixedHex(c.b, 2);
  }

  /** Printing what `hexToRgb` read gives back its digits in lower case. */
  lemma HexTextOfHexToRgb(hex: string)
    requires HexForm(hex)
    ensures HexText(HexToRgb(hex).value) == "#" + LowerHex(HexDigits(hex))
  {
    var d := HexDigits(hex);
    var c := HexToRgb(hex).value;
    assert c == Rgb(ParseHex(d[0..2]), ParseHex(d[2..4]), ParseHex(d[4..6]));
    PrintedThirds(d);
    var h := HexText(c);
    assert h == [h[0]] + h[1..];
  }

  /** Printing each pair of six hex digits gives the six digits in lower case. */
  lemma PrintedThirds(d: string)
    requires |d| == 6 && AllHex(d)
    ensures FixedHex(ParseHex(d[0..2]), 2) + FixedHex(ParseHex(d[2..4]), 2) + FixedHex(ParseHex(d[4..6]), 2)
         == LowerHex(d)
  {
    var a, b, e := d[0..2], d[2..4], d[4..6];
    assert AllHex(a) && AllHex(b) && AllHex(e);
    FixedHexOfParseHex(a);
    FixedHexOfParseHex(b);
    FixedHexOfParseHex(e);
    LowerHexThirds(d);
  }

  lemma LowerHexThirds(d: string)
    requires |d| == 6
    ensures LowerHex(d) == LowerHex(d[0..2]) + LowerHex(d[2..4]) + LowerHex(d[4..6])
  {
    var t := LowerHex(d[0..2]) + LowerHex(d[2..4]) + LowerHex(d[4..6]);
    assert |t| == 6;
    forall i | 0 <= i < 6 ensures t[i] == LowerChar(d[i]) {
      if i < 2 {
        assert t[i] == LowerHex(d[0..2])[i];
      } else if i < 4 {
        assert t[i] == LowerHex(d[2..4])[i - 2];
      } else {
        assert t[i] == LowerHex(d[4..6])[i - 4];
      }
    }
  }

  // ---------------------------------------------------------------- COLOR_SCHEMES and COLORS

  /** One entry of `COLOR_SCHEMES`; `isCustom` is false where the source leaves it out. */
  datatype Scheme = Scheme(id: string, name: string, series1: ColorConfig, series2: ColorConfig, isCustom: bool)

  /** The global `COLORS`: the colours of the two series. */
  datatype Palette = Palette(series1: ColorConfig, series2: ColorConfig)

  function PaletteOf(s: Scheme): Palette {
    Palette(s.series1, s.series2)
  }

  const CustomId: string := "custom"

  /** The table `COLOR_SCHEMES` starts with. */
  const InitialSchemes: seq<Scheme> := [
    Scheme("purple-pink", "Purple & Pink", ColorConfig(102, 126, 234), ColorConfig(240, 147, 251), false),
    Scheme("blue-orange", "Blue & Orange", ColorConfig(0, 71, 171), ColorConfig(255, 102, 0), false),
    Scheme("purple-lime", "Purple & Lime", ColorConfig(139, 0, 255), ColorConfig(170, 255, 0), false),
    Scheme("red-cyan", "Red & Cyan", ColorConfig(204, 0, 0), ColorConfig(0, 204, 204), false),
    Scheme("magenta-green", "Magenta & Green", ColorConfig(255, 0, 102), ColorConfig(0, 204, 102), false),
    Scheme("navy-gold", "Navy & Gold", ColorConfig(0, 0, 128), ColorConfig(255, 176, 0), false),
    Scheme("red-black", "Red & Black", ColorConfig(230, 0, 0), ColorConfig(26, 26, 26), false),
    Scheme("black-yellow", "Black & Yellow", ColorConfig(0, 0, 0), ColorConfig(255, 215, 0), false),
    Scheme(CustomId, "Custom", ColorConfig(102, 126, 234), ColorConfig(240, 147, 251), true)
  ]

  /** `schemes.find(s => s.id === id)`, as the index of the first match. */
  function FindScheme(schemes: seq<Scheme>, id: string): (k: Option<nat>)
    ensures k.Some? ==> k.value < |schemes| && schemes[k.value].id == id
    ensures k.Some? ==> forall j | 0 <= j < k.value :: schemes[j].id != id
    ensures k.None? <==> forall j | 0 <= j < |schemes| :: schemes[j].id != id
  {
    if schemes == [] then None
    else if schemes[0].id == id then Some(0)
    else
      var k := FindScheme(schemes[1..], id);
      if k.None? then
        assert forall j | 1 <= j < |schemes| :: schemes[j].id == schemes[1..][j - 1].id;
        None
      else Some(k.value + 1)
  }

  /** The shape the table keeps: distinct ids, and exactly one custom entry, the last, with id "custom". */
  predicate WellFormed(schemes: seq<Scheme>) {
    && |schemes| > 0
    && (forall i, j | 0 <= i < j < |schemes| :: schemes[i].id != schemes[j].id)
    && schemes[|schemes| - 1].id == CustomId
    && (forall i | 0 <= i < |schemes| :: schemes[i].isCustom <==> i == |schemes| - 1)
  }

  /** The ids of the initial table, in order. */
  const InitialIds: seq<string> := ["purple-pink", "blue-orange", "purple-lime", "red-cyan", "magenta-green",
                                    "navy-gold", "red-black", "black-yellow", CustomId]

  lemma InitialIdsDistinct()
    ensures |InitialIds| == 9 && forall i, j | 0 <= i < j < 9 :: InitialIds[i] != InitialIds[j]
  {
    var ids := InitialIds;
    // length, first and last character already tell the ids apart
    forall i, j | 0 <= i < j < 9 ensures ids[i] != ids[j] {
      assert |ids[i]| != |ids[j]| || ids[i][0] != ids[j][0] || ids[i][|ids[i]| - 1] != ids[j][|ids[j]| - 1];
    }
  }

  lemma InitialSchemesShape()
    ensures |InitialSchemes| == 9
    ensures forall k | 0 <= k < 9 :: InitialSchemes[k].id == InitialIds[k]
    ensures forall k | 0 <= k < 9 :: InitialSchemes[k].isCustom <==> k == 8
  {
  }

  /** The initial table has nine entries and is well formed. */
  lemma InitialSchemesWellFormed()
    ensures |InitialSchemes| == 9 && WellFormed(InitialSchemes)
    ensures FindScheme(InitialSchemes, CustomId) == Some(8)
  {
    InitialSchemesShape();
    InitialIdsDistinct();
    FindSchemeUnique(InitialSchemes, 8);
  }

  /** In a well-formed table `find` returns the one entry with the id. */
  lemma FindSchemeUnique(schemes: seq<Scheme>, j: nat)
    requires WellFormed(schemes) && j < |schemes|
    ensures FindScheme(schemes, schemes[j].id) == Some(j)
  {
  }

  /** Replacing the colours of the custom entry keeps the table well formed. */
  lemma ReplaceCustomKeepsShape(schemes: seq<Scheme>, s1: ColorConfig, s2: ColorConfig)
    requires WellFormed(schemes)
    ensures var k := |schemes| - 1;
      FindScheme(schemes, CustomId) == Some(k)
      && WellFormed(schemes[k := schemes[k].(series1 := s1, series2 := s2)])
  {
    FindSchemeUnique(schemes, |schemes| - 1);
  }

  /** `setColorScheme` and `updateCustomColors` over the globals `COLOR_SCHEMES` and `COLORS`. */
  class ColorState {
    var schemes: seq<Scheme>
    var colors: Palette

    ghost predicate Valid()
      reads this
    {
      WellFormed(schemes)
    }

    /** The state at load time: the initial table, and `COLORS` showing its first entry. */
    constructor()
      ensures schemes == InitialSchemes && colors == PaletteOf(InitialSchemes[0])
      ensures Valid()
    {
      InitialSchemesWellFormed();
      schemes := InitialSchemes;
      colors := PaletteOf(InitialSchemes[0]);
    }

    /** `setColorScheme(id)`: true exactly when some entry has the id; then `COLORS` takes the colours of
        the first such entry, otherwise nothing changes. The table never changes. */
    method SetColorScheme(id: string) returns (found: bool)
      modifies this
      ensures found <==> exists j | 0 <= j < |schemes| :: schemes[j].id == id
      ensures schemes == old(schemes)
      ensures found ==> colors == PaletteOf(schemes[FindScheme(schemes, id).value])
      ensures !found ==> colors == old(colors)
      ensures old(Valid()) ==> Valid()
    {
      var k := FindScheme(schemes, id);
      if k.Some? {
        colors := PaletteOf(schemes[k.value]);
        return true;
      }
      return false;
    }

    /** `updateCustomColors(hex1, hex2)`: when both colours are valid hex and a custom entry exists, that
        entry gets their colour configs and `COLORS` shows them; otherwise nothing changes. */
    method UpdateCustomColors(hex1: string, hex2: string)
      modifies this
      ensures var c1, c2, k := HexToRgb(hex1), HexToRgb(hex2), FindScheme(old(schemes), CustomId);
        if c1.Some? && c2.Some? && k.Some? then
          && schemes == old(schemes)[k.value := old(schemes)[k.value].(series1 := ConfigOf(c1.value), series2 := ConfigOf(c2.value))]
          && colors == Palette(ConfigOf(c1.value), ConfigOf(c2.value))
        else
          schemes == old(schemes) && colors == old(colors)
      ensures old(Valid()) ==> Valid()
    {
      var rgb1 := HexToRgb(hex1);
      var rgb2 := HexToRgb(hex2);
      if rgb1.Some? && rgb2.Some? {
        var k := FindScheme(schemes, CustomId);
        if k.Some? {
          if Valid() {
            ReplaceCustomKeepsShape(schemes, ConfigOf(rgb1.value), ConfigOf(rgb2.value));
          }
          var custom := schemes[k.value].(series1 := ConfigOf(rgb1.value), series2 := ConfigOf(rgb2.value));
          schemes := schemes[k.value := custom];
          colors := PaletteOf(custom);
        }
      }
    }
  }
}
