/**
 * The colour logic of js/app.js: `rgbToHex`, which reads the `rgb()` functional form of section 5.1
 * of CSS Color Module Level 4 back into the 6-digit hex form of section 5.2, what the custom-colour
 * dialog shows, and `applyCustomColors` over the global colour state.
 */
module App {
  import opened Wrappers
  import opened Text
  import opened Colors

  // ---------------------------------------------------------------- the `rgb()` pattern

  /** A `(\d+)` group at the start of `s` followed by the text `close`: the digits and what follows. */
  function LeadGroup(s: string, close: string): (m: Option<(string, string)>)
    ensures m.Some? ==> |m.value.0| > 0 && AllDigits(m.value.0)
    ensures m.Some? ==> s == m.value.0 + close + m.value.1
  {
    var n := Run(IsDigit, s);
    if n == 0 || |s| < n + |close| || s[n..n + |close|] != close then None
    else
      assert s == s[..n] + s[n..n + |close|] + s[n + |close|..];
      Some((s[..n], s[n + |close|..]))
  }

  lemma LeadGroupOf(d: string, close: string, rest: string)
    requires |d| > 0 && AllDigits(d) && |close| > 0 && !IsDigit(close[0])
    ensures LeadGroup(d + close + rest, close) == Some((d, rest))
  {
    var s := d + close + rest;
    assert s == d + (close + rest);
    RunOfPrefix(IsDigit, d, close + rest);
    assert s[..|d|] == d && s[|d|..|d| + |close|] == close && s[|d| + |close|..] == rest;
  }

  predicate DigitGroup(d: string) {
    |d| > 0 && AllDigits(d)
  }

  /** `\s*(\d+)` at the start of `s` followed by the text `close`: the spaces, the digits and what
      follows. */
  function SpacedGroup(s: string, close: string): (m: Option<(string, string, string)>)
    ensures m.Some? ==> AllSpaces(m.value.0) && DigitGroup(m.value.1)
    ensures m.Some? ==> s == m.value.0 + (m.value.1 + close + m.value.2)
  {
    var t := TrimStart(s);
    match LeadGroup(t, close)
    case None => None
    case Some((d, rest)) =>
      TrimStartSplit(s);
      Some((s[..|s| - |t|], d, rest))
  }

  lemma SpacedGroupOf(w: string, d: string, close: string, rest: string)
    requires AllSpaces(w) && DigitGroup(d) && |close| > 0 && !IsDigit(close[0])
    ensures SpacedGroup(w + (d + close + rest), close) == Some((w, d, rest))
  {
    var s := w + (d + close + rest);
    assert !IsSpace((d + close + rest)[0]);
    TrimStartOf(w, d + close + rest);
    LeadGroupOf(d, close, rest);
    assert s[..|w|] == w;
  }

  /** The three captured digit groups, and the runs of spaces the pattern skipped after each comma. */
  datatype Groups = Groups(r: string, g: string, b: string, space1: string, space2: string)

  /** The strings the pattern describes: `rgb(`, digits, `,`, spaces, digits, `,`, spaces, digits, `)`. */
  function RgbForm(a: string, w1: string, b: string, w2: string, c: string): string {
    "rgb(" + a + "," + w1 + b + "," + w2 + c + ")"
  }

  /** The described form, grouped from the right as the matcher reads it. */
  lemma RgbFormNested(a: string, w1: string, b: string, w2: string, c: string)
    ensures RgbForm(a, w1, b, w2, c) == "rgb(" + (a + "," + (w1 + (b + "," + (w2 + (c + ")" + [])))))
  {
    var tail := w2 + (c + ")" + []);
    assert c + ")" + [] == c + ")";
    assert "," + w2 + c + ")" == "," + tail;
    assert b + "," + w2 + c + ")" == b + "," + tail;
    var mid := w1 + (b + "," + tail);
    assert w1 + b + "," + w2 + c + ")" == mid;
    assert "," + w1 + b + "," + w2 + c + ")" == "," + mid;
    assert a + "," + w1 + b + "," + w2 + c + ")" == a + "," + mid;
    assert "rgb(" + a + "," + w1 + b + "," + w2 + c + ")" == "rgb(" + (a + "," + mid);
  }

  /** `rgb.match(/^rgb\((\d+),\s*(\d+),\s*(\d+)\)$/)`. Each `\d+` and `\s*` is followed by a character
      it cannot match, so the greedy reading is the only one and no backtracking is needed. Only strings
      of the described form match, and the captures are their digit groups. */
  function MatchRgb(s: string): (m: Option<Groups>)
    ensures m.Some? ==> DigitGroup(m.value.r) && DigitGroup(m.value.g) && DigitGroup(m.value.b)
    ensures m.Some? ==> AllSpaces(m.value.space1) && AllSpaces(m.value.space2)
    ensures m.Some? ==> s == RgbForm(m.value.r, m.value.space1, m.value.g, m.value.space2, m.value.b)
  {
    if |s| < 4 || s[..4] != "rgb(" then None
    else
      match LeadGroup(s[4..], ",")
      case None => None
      case Some((a, u)) =>
        match SpacedGroup(u, ",")
        case None => None
        case Some((w1, b, v)) =>
          match SpacedGroup(v, ")")
          case None => None
          case Some((w2, c, e)) =>
            if e == [] then
              assert s == s[..4] + s[4..];
              RgbFormNested(a, w1, b, w2, c);
              Some(Groups(a, b, c, w1, w2))
            else None
  }

  /** Every string of the described form matches, with its three digit groups captured. */
  lemma MatchRgbComplete(a: string, w1: string, b: string, w2: string, c: string)
    requires DigitGroup(a) && DigitGroup(b) && DigitGroup(c) && AllSpaces(w1) && AllSpaces(w2)
    ensures MatchRgb(RgbForm(a, w1, b, w2, c)) == Some(Groups(a, b, c, w1, w2))
  {
    var v := w2 + (c + ")" + []);
    var u := w1 + (b + "," + v);
    var s := RgbForm(a, w1, b, w2, c);
    assert s == "rgb(" + (a + "," + u) by {
      RgbFormNested(a, w1, b, w2, c);
    }
    assert s[..4] == "rgb(" && s[4..] == a + "," + u;
    LeadGroupOf(a, ",", u);
    SpacedGroupOf(w1, b, ",", v);
    SpacedGroupOf(w2, c, ")", []);
    MatchRgbOfGroups(s, a, u, w1, b, v, w2, c);
  }

  /** The matcher's three steps succeeding in turn, with nothing left over, give the match. */
  lemma MatchRgbOfGroups(s: string, a: string, u: string, w1: string, b: string, v: string, w2: string, c: string)
    requires |s| >= 4 && s[..4] == "rgb(" && LeadGroup(s[4..], ",") == Some((a, u))
    requires SpacedGroup(u, ",") == Some((w1, b, v)) && SpacedGroup(v, ")") == Some((w2, c, []))
    ensures MatchRgb(s) == Some(Groups(a, b, c, w1, w2))
  {
  }

  // ---------------------------------------------------------------- JavaScript integer arithmetic

  function Pow2(n: nat): (p: nat)
    ensures p >= 1
  {
    if n == 0 then 1 else 2 * Pow2(n - 1)
  }

  /** ECMAScript ToInt32 on an integer: wrap into `[-2^31, 2^31)`. */
  function ToInt32(x: int): (y: int)
    ensures -0x8000_0000 <= y < 0x8000_0000
    ensures 0 <= x < 0x8000_0000 ==> y == x
  {
    var m := x % 0x1_0000_0000;
    if m >= 0x8000_0000 then m - 0x1_0000_0000 else m
  }

  /** `x << n` for a shift count below 32: the 32-bit result of shifting the 32-bit value of `x`. */
  function Shl(x: int, n: nat): (y: int)
    requires n < 32
    ensures -0x8000_0000 <= y < 0x8000_0000
  {
    ToInt32(ToInt32(x) * Pow2(n))
  }

  /** `n.toString(16)` for an integer `n`. */
  function JsHex(n: int): (s: string)
    ensures |s| > 0
    ensures n >= 0 ==> s == HexNat(n) && AllLowerHex(s) && AllHex(s) && ParseHex(s) == n
    ensures n < 0 ==> s == "-" + HexNat(-n) && AllLowerHex(s[1..]) && AllHex(s[1..]) && ParseHex(s[1..]) == -n
  {
    HexNatValue(if n < 0 then -n else n);
    HexNatDigits(if n < 0 then -n else n);
    if n < 0 then "-" + HexNat(-n) else HexNat(n)
  }

  // ---------------------------------------------------------------- rgbToHex

  /** The colour `rgbToHex` falls back to. */
  const DefaultHex: string := "#667eea"

  /** `(1 << 24) + (r << 16) + (g << 8) + b`. */
  function Packed(r: nat, g: nat, b: nat): int {
    Shl(1, 24) + Shl(r, 16) + Shl(g, 8) + b
  }

  /** `rgbToHex(rgb)`: the digits of the packed value after its leading one, or the default colour
      when `rgb` does not match the pattern. */
  function RgbToHex(rgb: string): (h: string)
    ensures MatchRgb(rgb).None? ==> h == DefaultHex
    ensures |h| > 0 && h[0] == '#'
  {
    match MatchRgb(rgb)
    case None => DefaultHex
    case Some(m) =>
      "#" + JsHex(Packed(ParseDec(m.r), ParseDec(m.g), ParseDec(m.b)))[1..]
  }

  /** The 24-bit value of an in-range colour. */
  function Channels24(c: Rgb): nat {
    (c.r * 256 + c.g) * 256 + c.b
  }

  /** For channels that fit in a byte no shift wraps: the packed value is `2^24` above the colour's
      24-bit value. */
  lemma PackedValue(c: Rgb)
    requires InRange(c)
    ensures Packed(c.r, c.g, c.b) == Shift16(1, 6) + Channels24(c) && Channels24(c) < Pow16(6)
  {
    assert Pow2(8) == 256 && Pow2(16) == 65536 && Pow2(24) == 0x100_0000;
    assert Shl(1, 24) == 0x100_0000;
    assert Shl(c.r, 16) == c.r * 65536;
    assert Shl(c.g, 8) == c.g * 256;
    assert Shift16(1, 6) == 0x100_0000 && Pow16(6) == 0x100_0000;
  }

  /** `3k` zero-padded digits of three `k`-digit fields are the digits of each field in turn. */
  lemma FixedHexTriple(r: nat, g: nat, b: nat, k: nat, v: nat, n: nat)
    requires g < Pow16(k) && b < Pow16(k)
    requires v == Shift16(Shift16(r, k) + g, k) + b && n == k + k + k
    ensures FixedHex(v, n) == FixedHex(r, k) + FixedHex(g, k) + FixedHex(b, k)
  {
    FixedHexSplit(Shift16(r, k) + g, b, k + k, k);
    FixedHexSplit(r, g, k, k);
  }

  /** Six zero-padded digits of the 24-bit value are the two digits of each channel. */
  lemma ChannelDigits(c: Rgb)
    requires InRange(c)
    ensures FixedHex(Channels24(c), 6) == FixedHex(c.r, 2) + FixedHex(c.g, 2) + FixedHex(c.b, 2)
  {
    assert Pow16(2) == 256;
    Shift16By2(c.r);
    Shift16By2(Shift16(c.r, 2) + c.g);
    FixedHexTriple(c.r, c.g, c.b, 2, Channels24(c), 6);
  }

  /** For channels that fit in a byte, the packed value prints as a one and the six digits of the
      colour, so dropping the first character leaves exactly the `#rrggbb` text. */
  lemma PackedHex(c: Rgb)
    requires InRange(c)
    ensures JsHex(Packed(c.r, c.g, c.b))[1..] == HexText(c)[1..]
  {
    PackedValue(c);
    HexNatSplit(1, Channels24(c), 6);
    assert HexNat(1) == "1";
    ChannelDigits(c);
    assert JsHex(Packed(c.r, c.g, c.b)) == "1" + FixedHex(Channels24(c), 6);
  }

  /** For in-range digit groups in the described form, `rgbToHex` gives `#` and six lower-case hex
      digits: the colour's `#rrggbb` text. */
  lemma RgbToHexOfForm(a: string, w1: string, b: string, w2: string, c: string)
    requires DigitGroup(a) && DigitGroup(b) && DigitGroup(c) && AllSpaces(w1) && AllSpaces(w2)
    requires InRange(Rgb(ParseDec(a), ParseDec(b), ParseDec(c)))
    ensures var h := RgbToHex(RgbForm(a, w1, b, w2, c));
      && h == HexText(Rgb(ParseDec(a), ParseDec(b), ParseDec(c)))
      && |h| == 7 && h[0] == '#' && AllLowerHex(h[1..])
  {
    var rgb := RgbForm(a, w1, b, w2, c);
    MatchRgbComplete(a, w1, b, w2, c);
    var col := Rgb(ParseDec(a), ParseDec(b), ParseDec(c));
    RgbToHexOfMatch(rgb, Groups(a, b, c, w1, w2));
    PackedHex(col);
    var h := HexText(col);
    assert RgbToHex(rgb) == "#" + h[1..];
    assert h == [h[0]] + h[1..];
  }

  lemma RgbToHexOfMatch(rgb: string, m: Groups)
    requires MatchRgb(rgb) == Some(m)
    ensures RgbToHex(rgb) == "#" + JsHex(Packed(ParseDec(m.r), ParseDec(m.g), ParseDec(m.b)))[1..]
  {
  }

  /** The `primary` string of a colour config matches the pattern, with the channels as its groups. */
  lemma PrimaryMatches(c: Rgb)
    ensures ConfigOf(c).Primary() == RgbForm(Dec(c.r), " ", Dec(c.g), " ", Dec(c.b))
    ensures MatchRgb(ConfigOf(c).Primary()) == Some(Groups(Dec(c.r), Dec(c.g), Dec(c.b), " ", " "))
  {
    assert ConfigOf(c).Primary() == RgbForm(Dec(c.r), " ", Dec(c.g), " ", Dec(c.b));
    assert AllSpaces(" ");
    MatchRgbComplete(Dec(c.r), " ", Dec(c.g), " ", Dec(c.b));
  }

  /** `rgbToHex(createColorConfig(r, g, b).primary)` is the colour's `#rrggbb` text. */
  lemma RgbToHexOfPrimary(c: Rgb)
    requires InRange(c)
    ensures var h := RgbToHex(ConfigOf(c).Primary());
      h == HexText(c) && |h| == 7 && h[0] == '#' && AllLowerHex(h[1..])
  {
    PrimaryMatches(c);
    assert AllSpaces(" ");
    ParseDecOfDec(c.r);
    ParseDecOfDec(c.g);
    ParseDecOfDec(c.b);
    RgbToHexOfForm(Dec(c.r), " ", Dec(c.g), " ", Dec(c.b));
  }

  /** Round trip: `hexToRgb(rgbToHex(createColorConfig(r, g, b).primary))` is `{r, g, b}`. */
  lemma PrimaryRoundTrip(c: Rgb)
    requires InRange(c)
    ensures HexToRgb(RgbToHex(ConfigOf(c).Primary())) == Some(c)
  {
    RgbToHexOfPrimary(c);
    HexToRgbOfHexText(c);
  }

  /** Round trip the other way: a picked hex colour, stored as a colour config and shown again, comes
      back as its own digits in lower case. */
  lemma PickerRoundTrip(hex: string)
    requires HexForm(hex)
    ensures RgbToHex(ConfigOf(HexToRgb(hex).value).Primary()) == "#" + LowerHex(HexDigits(hex))
  {
    RgbToHexOfPrimary(HexToRgb(hex).value);
    HexTextOfHexToRgb(hex);
  }

  // ---------------------------------------------------------------- the custom-colour dialog

  /** The two values `showCustomColorModal` puts in the colour pickers: the hex text of the custom
      entry's primaries, or nothing when there is no custom entry. */
  function DialogColors(schemes: seq<Scheme>): (d: Option<(string, string)>)
    ensures d.Some? <==> FindScheme(schemes, CustomId).Some?
    ensures d.Some? ==> var s := schemes[FindScheme(schemes, CustomId).value];
      var c1, c2 := RgbOf(s.series1), RgbOf(s.series2);
      InRange(c1) && InRange(c2) ==> d.value == (HexText(c1), HexText(c2))
  {
    match FindScheme(schemes, CustomId)
    case None => None
    case Some(k) =>
      PrimaryHex(schemes[k].series1);
      PrimaryHex(schemes[k].series2);
      Some((RgbToHex(schemes[k].series1.Primary()), RgbToHex(schemes[k].series2.Primary())))
  }

  /** The channels of a colour configuration. */
  function RgbOf(cfg: ColorConfig): Rgb {
    Rgb(cfg.r, cfg.g, cfg.b)
  }

  /** `rgbToHex` of an in-range configuration's primary is the `#rrggbb` text of its channels. */
  lemma PrimaryHex(cfg: ColorConfig)
    ensures InRange(RgbOf(cfg)) ==> RgbToHex(cfg.Primary()) == HexText(RgbOf(cfg))
  {
    if InRange(RgbOf(cfg)) {
      RgbToHexOfPrimary(RgbOf(cfg));
      assert ConfigOf(RgbOf(cfg)) == cfg;
    }
  }

  /** The dialog opened on the initial table shows the colours the custom entry starts with. */
  lemma InitialDialogColors()
    ensures DialogColors(InitialSchemes) == Some(("#667eea", "#f093fb"))
  {
    InitialSchemesWellFormed();
    var s := InitialSchemes[8];
    assert s.series1 == ConfigOf(Rgb(102, 126, 234)) && s.series2 == ConfigOf(Rgb(240, 147, 251));
    assert RgbToHex(s.series1.Primary()) == "#667eea" by {
      RgbToHexOfPrimary(Rgb(102, 126, 234));
      InitialHex1();
    }
    assert RgbToHex(s.series2.Primary()) == "#f093fb" by {
      RgbToHexOfPrimary(Rgb(240, 147, 251));
      InitialHex2();
    }
  }

  lemma InitialHex1()
    ensures HexText(Rgb(102, 126, 234)) == "#667eea"
  {
    assert FixedHex(102, 2) == "66" && FixedHex(126, 2) == "7e" && FixedHex(234, 2) == "ea";
  }

  lemma InitialHex2()
    ensures HexText(Rgb(240, 147, 251)) == "#f093fb"
  {
    assert FixedHex(240, 2) == "f0" && FixedHex(147, 2) == "93" && FixedHex(251, 2) == "fb";
  }

  /** `applyCustomColors()` with the two picker values: update the custom entry, then select it.
      When both values are valid the custom entry and `COLORS` take them and the dialog shows them back
      in lower case; otherwise the table stays and `COLORS` shows the custom entry as it was. */
  method ApplyCustomColors(state: ColorState, hex1: string, hex2: string) returns (found: bool)
    modifies state
    ensures old(state.Valid()) ==> state.Valid() && found
    ensures var c1, c2, k := HexToRgb(hex1), HexToRgb(hex2), |old(state.schemes)| - 1;
      old(state.Valid()) ==>
        if c1.Some? && c2.Some? then
          && state.schemes == old(state.schemes)[k := old(state.schemes)[k].(series1 := ConfigOf(c1.value), series2 := ConfigOf(c2.value))]
          && state.colors == Palette(ConfigOf(c1.value), ConfigOf(c2.value))
          && DialogColors(state.schemes) == Some(("#" + LowerHex(HexDigits(hex1)), "#" + LowerHex(HexDigits(hex2))))
        else
          state.schemes == old(state.schemes) && state.colors == PaletteOf(state.schemes[k])
  {
    ghost var valid := state.Valid();
    if valid {
      FindSchemeUnique(state.schemes, |state.schemes| - 1);
    }
    state.UpdateCustomColors(hex1, hex2);
    found := state.SetColorScheme(CustomId);
    if valid {
      FindSchemeUnique(state.schemes, |state.schemes| - 1);
      if HexToRgb(hex1).Some? && HexToRgb(hex2).Some? {
        PickerRoundTrip(hex1);
        PickerRoundTrip(hex2);
      }
    }
  }
}
