/**
 * The input gate of `handleCompare` (script.js and js/app.js hold the same code): trim both
 * inputs, stop when either is blank, split on runs of whitespace, convert every token with
 * `Number`, drop the NaNs, stop when either series comes out empty, default the display names,
 * and otherwise compute the statistics, the difference metrics and the conclusion.
 *
 * `Number` is the parameter `toNumber`; `Math.sqrt` is the parameter `sqrt`.
 */
module Compare {
  import opened Wrappers
  import opened Text
  import opened Stats
  import opened Verdict

  // ---------------------------------------------------------------- String.prototype.trim

  /** The length of `s` without its trailing whitespace. */
  function ContentEnd(s: string): (j: nat)
    ensures j <= |s|
    ensures forall k | j <= k < |s| :: IsSpace(s[k])
    ensures j > 0 ==> !IsSpace(s[j - 1])
  {
    if s == [] || !IsSpace(s[|s| - 1]) then |s| else ContentEnd(s[..|s| - 1])
  }

  /** A string with no whitespace at either end. */
  predicate Trimmed(s: string) {
    s != [] ==> !IsSpace(s[0]) && !IsSpace(s[|s| - 1])
  }

  /** `s.trim()`: the middle of `s` between its leading and trailing whitespace. */
  function Trim(s: string): (t: string)
    ensures Trimmed(t)
    ensures t == [] <==> AllSpaces(s)
    // what is cut off on either side is whitespace
    ensures var i := Run(IsSpace, s);
      && i + |t| <= |s| && t == s[i..i + |t|]
      && (forall k | 0 <= k < i :: IsSpace(s[k]))
      && (forall k | i + |t| <= k < |s| :: IsSpace(s[k]))
  {
    var i, j := Run(IsSpace, s), ContentEnd(s);
    if j <= i then
      assert AllSpaces(s);
      []
    else
      assert !IsSpace(s[i]);
      s[i..j]
  }

  /** Trimming twice is trimming once. */
  lemma TrimIdempotent(s: string)
    ensures Trim(Trim(s)) == Trim(s)
  {
    var t := Trim(s);
    if t != [] {
      assert Run(IsSpace, t) == 0;
      assert ContentEnd(t) == |t|;
      assert t[0..|t|] == t;
    }
  }

  // ---------------------------------------------------------------- String.prototype.split(/\s+/)

  /** The index of the first whitespace character of `s`, or `|s|`. */
  function FirstSpace(s: string): (i: nat)
    ensures i <= |s| && (i < |s| ==> IsSpace(s[i]))
    ensures forall k | 0 <= k < i :: !IsSpace(s[k])
  {
    if s == [] || IsSpace(s[0]) then 0 else 1 + FirstSpace(s[1..])
  }

  /** `s.split(/\s+/)`: the pieces between maximal runs of whitespace. A leading run gives an empty first
      piece and a trailing run an empty last piece; the empty string gives one empty piece. */
  function Split(s: string): (ts: seq<string>)
    ensures |ts| > 0
    decreases |s|
  {
    var i := FirstSpace(s);
    if i == |s| then [s]
    else
      var rest := TrimStart(s[i..]);
      assert s[i..][0] == s[i];
      TrimStartShortens(s[i..]);
      [s[..i]] + Split(rest)
  }

  predicate NoSpaces(s: string) {
    forall k | 0 <= k < |s| :: !IsSpace(s[k])
  }

  /** The non-whitespace characters of `s`, in order. */
  function NonSpaces(s: string): string {
    if s == [] then [] else (if IsSpace(s[0]) then [] else [s[0]]) + NonSpaces(s[1..])
  }

  function Flatten(ts: seq<string>): string {
    if ts == [] then [] else ts[0] + Flatten(ts[1..])
  }

  lemma {:induction false} NonSpacesAppend(a: string, b: string)
    ensures NonSpaces(a + b) == NonSpaces(a) + NonSpaces(b)
  {
    if a != [] {
      var h := if IsSpace(a[0]) then [] else [a[0]];
      assert (a + b)[0] == a[0] && (a + b)[1..] == a[1..] + b;
      assert NonSpaces(a + b) == h + NonSpaces(a[1..] + b);
      NonSpacesAppend(a[1..], b);
      assert NonSpaces(a) == h + NonSpaces(a[1..]);
      assert h + (NonSpaces(a[1..]) + NonSpaces(b)) == (h + NonSpaces(a[1..])) + NonSpaces(b);
    } else {
      assert a + b == b;
    }
  }

  lemma {:induction false} NonSpacesOfNoSpaces(s: string)
    requires NoSpaces(s)
    ensures NonSpaces(s) == s
  {
    if s != [] {
      NonSpacesOfNoSpaces(s[1..]);
    }
  }

  lemma {:induction false} NonSpacesOfSpaces(s: string)
    requires AllSpaces(s)
    ensures NonSpaces(s) == []
  {
    if s != [] {
      NonSpacesOfSpaces(s[1..]);
    }
  }

  /** No piece of the split holds whitespace. */
  lemma {:induction false} SplitNoSpaces(s: string)
    ensures forall k | 0 <= k < |Split(s)| :: NoSpaces(Split(s)[k])
    decreases |s|
  {
    var i := FirstSpace(s);
    if i < |s| {
      var rest := TrimStart(s[i..]);
      SplitNoSpaces(rest);
      var ts := Split(rest);
      assert Split(s) == [s[..i]] + ts;
      forall k | 0 <= k < |Split(s)| ensures NoSpaces(Split(s)[k]) {
        if k > 0 {
          assert Split(s)[k] == ts[k - 1];
        }
      }
    }
  }

  /** Together the pieces are exactly the non-whitespace characters of the input, in order: nothing is
      lost, invented or reordered. */
  lemma {:induction false} SplitFlatten(s: string)
    ensures Flatten(Split(s)) == NonSpaces(s)
    decreases |s|
  {
    var i := FirstSpace(s);
    if i == |s| {
      NonSpacesOfNoSpaces(s);
      assert Flatten([s]) == s + Flatten([]);
    } else {
      SplitFlatten(TrimStart(s[i..]));
      SplitFlattenStep(s, i);
    }
  }

  lemma SplitFlattenStep(s: string, i: nat)
    requires i == FirstSpace(s) < |s|
    requires Flatten(Split(TrimStart(s[i..]))) == NonSpaces(TrimStart(s[i..]))
    ensures Flatten(Split(s)) == NonSpaces(s)
  {
    var ts := Split(TrimStart(s[i..]));
    assert Split(s) == [s[..i]] + ts;
    FlattenCons(s[..i], ts);
    NonSpacesDropsLeading(s[i..]);
    NonSpacesKeepsWord(s, i);
  }

  lemma FlattenCons(w: string, ts: seq<string>)
    ensures Flatten([w] + ts) == w + Flatten(ts)
  {
    assert ([w] + ts)[1..] == ts;
  }

  /** Leading whitespace contributes nothing to `NonSpaces`. */
  lemma NonSpacesDropsLeading(s: string)
    ensures NonSpaces(s) == NonSpaces(TrimStart(s))
  {
    var rest := TrimStart(s);
    var r := |s| - |rest|;
    assert s == s[..r] + rest;
    NonSpacesAppend(s[..r], rest);
    NonSpacesOfSpaces(s[..r]);
  }

  /** The first word survives `NonSpaces` unchanged. */
  lemma NonSpacesKeepsWord(s: string, i: nat)
    requires i == FirstSpace(s)
    ensures NonSpaces(s) == s[..i] + NonSpaces(s[i..])
  {
    assert s == s[..i] + s[i..];
    NonSpacesAppend(s[..i], s[i..]);
    NonSpacesOfNoSpaces(s[..i]);
  }

  /** A trimmed, non-blank input splits into non-empty tokens only. */
  lemma {:induction false} SplitTrimmedTokens(s: string)
    requires s != [] && Trimmed(s)
    ensures forall k | 0 <= k < |Split(s)| :: Split(s)[k] != []
    decreases |s|
  {
    var i := FirstSpace(s);
    if i < |s| {
      var rest := TrimStart(s[i..]);
      assert s[|s| - 1] == s[i..][|s[i..]| - 1];
      assert rest != [] && rest[|rest| - 1] == s[|s| - 1];
      SplitTrimmedTokens(rest);
      assert Split(s) == [s[..i]] + Split(rest);
    }
  }

  // ---------------------------------------------------------------- map(Number).filter(n => !isNaN(n))

  /** The values `Number` can produce. */
  datatype JsNumber = Finite(value: real) | NaN | PosInfinity | NegInfinity

  /** `tokens.map(Number).filter(n => !isNaN(n))`. */
  function ParseTokens(tokens: seq<string>, toNumber: string -> JsNumber): (vs: seq<JsNumber>)
    ensures |vs| <= |tokens|
    ensures forall k | 0 <= k < |vs| :: vs[k] != NaN
  {
    if tokens == [] then []
    else
      var v := toNumber(tokens[0]);
      (if v == NaN then [] else [v]) + ParseTokens(tokens[1..], toNumber)
  }

  /** Conversion is applied piecewise, so the order of the tokens is the order of the values. */
  lemma {:induction false} ParseTokensAppend(a: seq<string>, b: seq<string>, toNumber: string -> JsNumber)
    ensures ParseTokens(a + b, toNumber) == ParseTokens(a, toNumber) + ParseTokens(b, toNumber)
  {
    if a != [] {
      var v := toNumber(a[0]);
      var h := if v == NaN then [] else [v];
      assert (a + b)[0] == a[0] && (a + b)[1..] == a[1..] + b;
      assert ParseTokens(a + b, toNumber) == h + ParseTokens(a[1..] + b, toNumber);
      ParseTokensAppend(a[1..], b, toNumber);
      assert ParseTokens(a, toNumber) == h + ParseTokens(a[1..], toNumber);
      Associative(h, ParseTokens(a[1..], toNumber), ParseTokens(b, toNumber));
    } else {
      assert a + b == b;
    }
  }

  /** The parsed values are exactly the non-NaN conversions of the tokens. */
  lemma {:induction false} ParseTokensMembers(tokens: seq<string>, toNumber: string -> JsNumber, v: JsNumber)
    ensures v in ParseTokens(tokens, toNumber) <==> v != NaN && exists k | 0 <= k < |tokens| :: toNumber(tokens[k]) == v
  {
    if tokens != [] {
      ParseTokensMembers(tokens[1..], toNumber, v);
      if exists k | 0 <= k < |tokens| :: toNumber(tokens[k]) == v {
        var k :| 0 <= k < |tokens| && toNumber(tokens[k]) == v;
        if k > 0 {
          assert tokens[1..][k - 1] == tokens[k];
        }
      }
      if exists k | 0 <= k < |tokens[1..]| :: toNumber(tokens[1..][k]) == v {
        var k :| 0 <= k < |tokens[1..]| && toNumber(tokens[1..][k]) == v;
        assert tokens[k + 1] == tokens[1..][k];
      }
    }
  }

  /** When no token converts to NaN, nothing is dropped. */
  lemma {:induction false} ParseTokensKeepsAll(tokens: seq<string>, toNumber: string -> JsNumber)
    requires forall k | 0 <= k < |tokens| :: toNumber(tokens[k]) != NaN
    ensures |ParseTokens(tokens, toNumber)| == |tokens|
    ensures forall k | 0 <= k < |tokens| :: ParseTokens(tokens, toNumber)[k] == toNumber(tokens[k])
  {
    if tokens != [] {
      assert forall k | 0 <= k < |tokens[1..]| :: toNumber(tokens[1..][k]) == toNumber(tokens[k + 1]);
      ParseTokensKeepsAll(tokens[1..], toNumber);
    }
  }

  /** The series one text box yields, before the emptiness check. */
  function ParseSeries(input: string, toNumber: string -> JsNumber): seq<JsNumber> {
    ParseTokens(Split(Trim(input)), toNumber)
  }

  /** The real values of a series, or `None` if it holds an infinity. */
  function Reals(vs: seq<JsNumber>): (r: Option<seq<real>>)
    ensures r.Some? <==> forall k | 0 <= k < |vs| :: vs[k].Finite?
    ensures r.Some? ==> |r.value| == |vs| && forall k | 0 <= k < |vs| :: vs[k] == Finite(r.value[k])
  {
    if vs == [] then Some([])
    else
      var rest := Reals(vs[1..]);
      assert forall k | 1 <= k < |vs| :: vs[1..][k - 1] == vs[k];
      if vs[0].Finite? && rest.Some? then Some([vs[0].value] + rest.value) else None
  }

  // ---------------------------------------------------------------- names and the gate

  /** `raw.trim() || fallback`. */
  function DisplayName(raw: string, fallback: string): (name: string)
    ensures AllSpaces(raw) ==> name == fallback
    ensures !AllSpaces(raw) ==> name == Trim(raw) && name != [] && Trimmed(name)
  {
    var t := Trim(raw);
    if t == [] then fallback else t
  }

  /** Where `handleCompare` ends. */
  datatype Outcome =
    | MissingInput   // "Please enter both series values!"
    | InvalidData    // "Invalid data! Please enter numbers separated by spaces."
    | InfiniteValue  // a series holds an infinity: IEEE infinity arithmetic is not modelled
    | Compared(name1: string, name2: string, data1: seq<real>, data2: seq<real>,
               stats1: SeriesStats, stats2: SeriesStats, diff: DiffMetrics, conclusion: Conclusion)

  /** `handleCompare` on the four text boxes. */
  function HandleCompare(series1: string, series2: string, seriesName1: string, seriesName2: string,
                         toNumber: string -> JsNumber, sqrt: real -> real): (o: Outcome)
    requires IsSqrt(sqrt)
    // a blank or whitespace-only input stops first
    ensures o.MissingInput? <==> AllSpaces(series1) || AllSpaces(series2)
    // then a series with no number in it
    ensures o.InvalidData? <==>
      (!AllSpaces(series1) && !AllSpaces(series2)
       && (ParseSeries(series1, toNumber) == [] || ParseSeries(series2, toNumber) == []))
    // then a value that is not a finite number
    ensures o.InfiniteValue? <==>
      (!AllSpaces(series1) && !AllSpaces(series2)
       && ParseSeries(series1, toNumber) != [] && ParseSeries(series2, toNumber) != []
       && (Reals(ParseSeries(series1, toNumber)).None? || Reals(ParseSeries(series2, toNumber)).None?))
    // and otherwise the comparison itself
    ensures o.Compared? <==>
      (!AllSpaces(series1) && !AllSpaces(series2)
       && Reals(ParseSeries(series1, toNumber)).Some? && Reals(ParseSeries(series2, toNumber)).Some?
       && ParseSeries(series1, toNumber) != [] && ParseSeries(series2, toNumber) != [])
    ensures o.Compared? ==>
      && |o.data1| > 0 && |o.data2| > 0
      && Reals(ParseSeries(series1, toNumber)) == Some(o.data1)
      && Reals(ParseSeries(series2, toNumber)) == Some(o.data2)
      && o.name1 == DisplayName(seriesName1, "Series 1") && o.name2 == DisplayName(seriesName2, "Series 2")
      && o.stats1 == CalculateStats(o.data1, sqrt) && o.stats2 == CalculateStats(o.data2, sqrt)
      && o.diff == Differences(o.data1, o.data2, sqrt)
      && o.conclusion == Conclude(o.stats1, o.stats2, o.diff)
  {
    var input1, input2 := Trim(series1), Trim(series2);
    var name1, name2 := DisplayName(seriesName1, "Series 1"), DisplayName(seriesName2, "Series 2");
    if input1 == [] || input2 == [] then MissingInput
    else
      var parsed1, parsed2 := ParseTokens(Split(input1), toNumber), ParseTokens(Split(input2), toNumber);
      if |parsed1| == 0 || |parsed2| == 0 then InvalidData
      else
        var r1, r2 := Reals(parsed1), Reals(parsed2);
        if r1.None? || r2.None? then InfiniteValue
        else
          var data1, data2 := r1.value, r2.value;
          var stats1, stats2 := CalculateStats(data1, sqrt), CalculateStats(data2, sqrt);
          var diff := Differences(data1, data2, sqrt);
          Compared(name1, name2, data1, data2, stats1, stats2, diff, Conclude(stats1, stats2, diff))
  }

  /** Every value that reaches the statistics came from a token of the input, in the input's order:
      the `k`-th value is the conversion of some token, and the tokens are the whitespace-free,
      non-empty pieces of the trimmed input. */
  lemma ComparedValuesComeFromTokens(series1: string, series2: string, seriesName1: string, seriesName2: string,
                                     toNumber: string -> JsNumber, sqrt: real -> real, k: nat)
    requires IsSqrt(sqrt)
    requires HandleCompare(series1, series2, seriesName1, seriesName2, toNumber, sqrt).Compared?
    requires k < |HandleCompare(series1, series2, seriesName1, seriesName2, toNumber, sqrt).data1|
    ensures var o, tokens := HandleCompare(series1, series2, seriesName1, seriesName2, toNumber, sqrt), Split(Trim(series1));
      && (forall j | 0 <= j < |tokens| :: tokens[j] != [] && NoSpaces(tokens[j]))
      && exists j | 0 <= j < |tokens| :: toNumber(tokens[j]) == Finite(o.data1[k])
  {
    var o := HandleCompare(series1, series2, seriesName1, seriesName2, toNumber, sqrt);
    SeriesValueFromToken(series1, toNumber, o.data1, k);
  }

  lemma SeriesValueFromToken(input: string, toNumber: string -> JsNumber, data: seq<real>, k: nat)
    requires !AllSpaces(input) && Reals(ParseSeries(input, toNumber)) == Some(data) && k < |data|
    ensures var tokens := Split(Trim(input));
      && (forall j | 0 <= j < |tokens| :: tokens[j] != [] && NoSpaces(tokens[j]))
      && exists j | 0 <= j < |tokens| :: toNumber(tokens[j]) == Finite(data[k])
  {
    var t := Trim(input);
    SplitTrimmedTokens(t);
    SplitNoSpaces(t);
    var parsed := ParseSeries(input, toNumber);
    assert parsed == ParseTokens(Split(t), toNumber);
    assert parsed[k] == Finite(data[k]) && parsed[k] in parsed;
    ParseTokensMembers(Split(t), toNumber, parsed[k]);
  }
}
