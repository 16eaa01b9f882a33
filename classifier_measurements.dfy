/**
  The measurement list a pixel classifier produces from a per-channel pixel
  histogram (PixelClassificationMeasurementManager.updateMeasurements):
  its names, the percentage of each non-transparent channel and the
  calibrated areas.
*/
module ClassifierMeasurements {
  import opened Common

  /** A classifier output channel; transparent channels (e.g. ignored classes) get no measurement. */
  datatype Channel = Channel(name: string, transparent: bool)

  datatype Measurement = Measurement(name: string, value: Value)

  type MeasurementList = seq<Measurement>

  function PercentName(ch: Channel): string {
    "Classifier: " + ch.name + " %"
  }

  function AreaName(ch: Channel, units: string): string {
    "Classifier: " + ch.name + " area " + units
  }

  function TotalAnnotatedName(units: string): string {
    "Classifier: Total annotated area " + units
  }

  function TotalQuantifiedName(units: string): string {
    "Classifier: Total quantified area " + units
  }

  function Sum(s: seq<int>): int {
    if s == [] then 0 else Sum(s[..|s| - 1]) + s[|s| - 1]
  }

  /** The names of a list, in order. */
  function Names(ml: MeasurementList): (r: seq<string>)
    ensures |r| == |ml|
  {
    seq(|ml|, i requires 0 <= i < |ml| => ml[i].name)
  }

  /** Sum of the counts of the non-transparent channels (totalWithoutIgnored). */
  function NonTransparentTotal(chs: seq<Channel>, counts: seq<int>): int
    requires |counts| == |chs|
  {
    if chs == [] then 0
    else NonTransparentTotal(chs[..|chs| - 1], counts[..|chs| - 1])
         + (if chs[|chs| - 1].transparent then 0 else counts[|chs| - 1])
  }

  /** "% name" then "area name" for each non-transparent channel, in channel order. */
  function ChannelNames(chs: seq<Channel>, units: string): seq<string> {
    if chs == [] then []
    else ChannelNames(chs[..|chs| - 1], units)
         + (if chs[|chs| - 1].transparent then []
            else [PercentName(chs[|chs| - 1]), AreaName(chs[|chs| - 1], units)])
  }

  /** The frozen name list: the channel names, then the two totals iff the pixel area is known. */
  function MeasurementNamesFor(chs: seq<Channel>, pixelArea: Value, units: string): seq<string> {
    ChannelNames(chs, units)
    + (if pixelArea.NaN? then [] else [TotalAnnotatedName(units), TotalQuantifiedName(units)])
  }

  /**
    (double) count / totalWithoutIgnored * 100.0. With no non-transparent pixel the
    Java division is 0.0 / 0, which is NaN.
  */
  function Percent(count: int, totalWithoutIgnored: int): Value {
    if totalWithoutIgnored == 0 then NaN
    else Val(count as real / totalWithoutIgnored as real * 100.0)
  }

  /** The measurements of one channel: its percentage and, when the pixel area is known, its area. */
  function ChannelBlock(ch: Channel, count: int, totalWithoutIgnored: int, pixelArea: Value, units: string): MeasurementList {
    if ch.transparent then []
    else [Measurement(PercentName(ch), Percent(count, totalWithoutIgnored))]
         + (if pixelArea.NaN? then [] else [Measurement(AreaName(ch, units), Mul(Val(count as real), pixelArea))])
  }

  function ChannelEntries(chs: seq<Channel>, counts: seq<int>, totalWithoutIgnored: int, pixelArea: Value, units: string): MeasurementList
    requires |counts| == |chs|
  {
    if chs == [] then []
    else ChannelEntries(chs[..|chs| - 1], counts[..|chs| - 1], totalWithoutIgnored, pixelArea, units)
         + ChannelBlock(chs[|chs| - 1], counts[|chs| - 1], totalWithoutIgnored, pixelArea, units)
  }

  /** The two cross-check totals, present iff the pixel area is known. */
  function TotalEntries(totalWithoutIgnored: int, total: int, pixelArea: Value, units: string): MeasurementList {
    if pixelArea.NaN? then []
    else [Measurement(TotalAnnotatedName(units), Mul(Val(totalWithoutIgnored as real), pixelArea)),
          Measurement(TotalQuantifiedName(units), Mul(Val(total as real), pixelArea))]
  }

  /** The list updateMeasurements builds for a histogram. */
  function MeasurementsFor(chs: seq<Channel>, counts: seq<int>, total: int, pixelArea: Value, units: string): MeasurementList
    requires |counts| == |chs|
  {
    var t := NonTransparentTotal(chs, counts);
    ChannelEntries(chs, counts, t, pixelArea, units) + TotalEntries(t, total, pixelArea, units)
  }

  /** The first entry of that name in the list, if any. */
  function Lookup(ml: MeasurementList, name: string): (r: Option<Value>)
    ensures r.None? <==> name !in Names(ml)
    ensures r.Some? ==> Measurement(name, r.value) in ml
  {
    if ml == [] then None
    else if ml[0].name == name then
      assert Names(ml)[0] == name && ml[0] == Measurement(name, ml[0].value);
      Some(ml[0].value)
    else
      assert Names(ml) == [ml[0].name] + Names(ml[1..]);
      Lookup(ml[1..], name)
  }

  /** MeasurementList.getMeasurementValue: the value stored under the name, NaN when there is none. */
  function ValueOf(ml: MeasurementList, name: string): (r: Value)
    ensures name !in Names(ml) ==> r == NaN
    ensures name in Names(ml) ==> Measurement(name, r) in ml
  {
    match Lookup(ml, name)
    case None => NaN
    case Some(v) => v
  }

  // ---------------------------------------------------------------------------
  // The loops of updateMeasurements
  // ---------------------------------------------------------------------------

  /** The first loop: sums the counts of the non-transparent channels. */
  method TotalWithoutIgnored(chs: seq<Channel>, counts: seq<int>) returns (t: int)
    requires |counts| == |chs|
    ensures t == NonTransparentTotal(chs, counts)
  {
    t := 0;
    for c := 0 to |chs|
      invariant t == NonTransparentTotal(chs[..c], counts[..c])
    {
      assert chs[..c + 1][..c] == chs[..c];
      assert counts[..c + 1][..c] == counts[..c];
      if chs[c].transparent {
        continue;
      }
      t := t + counts[c];
    }
    assert chs[..|chs|] == chs && counts[..|chs|] == counts;
  }

  /** The second loop: the per-channel measurements, and the names it adds to the name list. */
  method BuildChannelEntries(chs: seq<Channel>, counts: seq<int>, totalWithoutIgnored: int, pixelArea: Value, units: string)
    returns (ml: MeasurementList, names: seq<string>)
    requires |counts| == |chs|
    ensures ml == ChannelEntries(chs, counts, totalWithoutIgnored, pixelArea, units)
    ensures names == ChannelNames(chs, units)
  {
    ml, names := [], [];
    for c := 0 to |chs|
      invariant ml == ChannelEntries(chs[..c], counts[..c], totalWithoutIgnored, pixelArea, units)
      invariant names == ChannelNames(chs[..c], units)
    {
      assert chs[..c + 1][..c] == chs[..c];
      assert counts[..c + 1][..c] == counts[..c];
      assert ChannelEntries(chs[..c + 1], counts[..c + 1], totalWithoutIgnored, pixelArea, units)
             == ml + ChannelBlock(chs[c], counts[c], totalWithoutIgnored, pixelArea, units);
      if chs[c].transparent {
        continue;
      }
      var namePercentage := PercentName(chs[c]);
      var nameArea := AreaName(chs[c], units);
      names := names + [namePercentage, nameArea];
      ml := ml + [Measurement(namePercentage, Percent(counts[c], totalWithoutIgnored))];
      if !pixelArea.NaN? {
        ml := ml + [Measurement(nameArea, Mul(Val(counts[c] as real), pixelArea))];
      }
    }
    assert chs[..|chs|] == chs && counts[..|chs|] == counts;
  }

  // ---------------------------------------------------------------------------
  // Properties
  // ---------------------------------------------------------------------------

  predicate NonNegative(counts: seq<int>) {
    forall i :: 0 <= i < |counts| ==> counts[i] >= 0
  }

  /** Leaving transparent channels out can only lower the sum; with none, nothing is left out. */
  lemma {:induction false} NonTransparentAtMostSum(chs: seq<Channel>, counts: seq<int>)
    requires |counts| == |chs| && NonNegative(counts)
    ensures 0 <= NonTransparentTotal(chs, counts) <= Sum(counts)
    ensures (forall c :: 0 <= c < |chs| ==> !chs[c].transparent) ==> NonTransparentTotal(chs, counts) == Sum(counts)
  {
    if chs != [] {
      var n := |chs| - 1;
      assert NonNegative(counts[..n]);
      assert (forall c :: 0 <= c < |chs| ==> !chs[c].transparent) ==> (forall c :: 0 <= c < n ==> !chs[..n][c].transparent);
      NonTransparentAtMostSum(chs[..n], counts[..n]);
    }
  }

  /** Sum of the percentages of the non-transparent channels against a denominator d. */
  function PercentTotal(chs: seq<Channel>, counts: seq<int>, d: int): real
    requires |counts| == |chs| && d != 0
  {
    if chs == [] then 0.0
    else PercentTotal(chs[..|chs| - 1], counts[..|chs| - 1], d)
         + (if chs[|chs| - 1].transparent then 0.0 else Percent(counts[|chs| - 1], d).v)
  }

  lemma {:induction false} PercentTotalIsShare(chs: seq<Channel>, counts: seq<int>, d: int)
    requires |counts| == |chs| && d != 0
    ensures PercentTotal(chs, counts, d) == NonTransparentTotal(chs, counts) as real / d as real * 100.0
  {
    if chs != [] {
      var n := |chs| - 1;
      PercentTotalIsShare(chs[..n], counts[..n], d);
      var a := NonTransparentTotal(chs[..n], counts[..n]) as real;
      var b := if chs[n].transparent then 0.0 else counts[n] as real;
      assert a / d as real * 100.0 + b / d as real * 100.0 == (a + b) / d as real * 100.0;
    }
  }

  /** Whenever some non-transparent pixel was counted, the channel percentages add up to 100. */
  lemma PercentagesSumTo100(chs: seq<Channel>, counts: seq<int>)
    requires |counts| == |chs|
    requires NonTransparentTotal(chs, counts) > 0
    ensures PercentTotal(chs, counts, NonTransparentTotal(chs, counts)) == 100.0
  {
    var t := NonTransparentTotal(chs, counts) as real;
    PercentTotalIsShare(chs, counts, NonTransparentTotal(chs, counts));
    assert t / t == 1.0;
  }

  /** Every non-transparent channel has its percentage, and its area when the pixel area is known, in the list. */
  lemma {:induction false} ChannelValuesPresent(chs: seq<Channel>, counts: seq<int>, t: int, pixelArea: Value, units: string, c: nat)
    requires |counts| == |chs| && c < |chs| && !chs[c].transparent
    ensures Measurement(PercentName(chs[c]), Percent(counts[c], t)) in ChannelEntries(chs, counts, t, pixelArea, units)
    ensures pixelArea.Val? ==>
              Measurement(AreaName(chs[c], units), Mul(Val(counts[c] as real), pixelArea)) in ChannelEntries(chs, counts, t, pixelArea, units)
  {
    var n := |chs| - 1;
    var front := ChannelEntries(chs[..n], counts[..n], t, pixelArea, units);
    var block := ChannelBlock(chs[n], counts[n], t, pixelArea, units);
    assert ChannelEntries(chs, counts, t, pixelArea, units) == front + block;
    if c < n {
      assert chs[..n][c] == chs[c] && counts[..n][c] == counts[c];
      ChannelValuesPresent(chs[..n], counts[..n], t, pixelArea, units, c);
      var pm := Measurement(PercentName(chs[c]), Percent(counts[c], t));
      assert pm in front;
      assert pm in front + block;
      if pixelArea.Val? {
        var am := Measurement(AreaName(chs[c], units), Mul(Val(counts[c] as real), pixelArea));
        assert am in front;
        assert am in front + block;
      }
    } else {
      assert block[0] == Measurement(PercentName(chs[c]), Percent(counts[c], t));
      if pixelArea.Val? {
        assert block[1] == Measurement(AreaName(chs[c], units), Mul(Val(counts[c] as real), pixelArea));
      }
    }
  }

  /** The percentages and areas of the non-transparent channels are in the histogram's measurement list. */
  lemma ChannelMeasurementValues(chs: seq<Channel>, counts: seq<int>, total: int, pixelArea: Value, units: string, c: nat)
    requires |counts| == |chs| && c < |chs| && !chs[c].transparent
    ensures Measurement(PercentName(chs[c]), Percent(counts[c], NonTransparentTotal(chs, counts)))
              in MeasurementsFor(chs, counts, total, pixelArea, units)
    ensures pixelArea.Val? ==>
              Measurement(AreaName(chs[c], units), Mul(Val(counts[c] as real), pixelArea))
                in MeasurementsFor(chs, counts, total, pixelArea, units)
  {
    var t := NonTransparentTotal(chs, counts);
    ChannelValuesPresent(chs, counts, t, pixelArea, units, c);
    assert MeasurementsFor(chs, counts, total, pixelArea, units)
        == ChannelEntries(chs, counts, t, pixelArea, units) + TotalEntries(t, total, pixelArea, units);
  }

  /** With a known pixel area the list ends with the annotated (non-transparent) and quantified (all) areas. */
  lemma TotalAreaValues(chs: seq<Channel>, counts: seq<int>, total: int, pixelArea: Value, units: string)
    requires |counts| == |chs| && pixelArea.Val?
    ensures Measurement(TotalAnnotatedName(units), Mul(Val(NonTransparentTotal(chs, counts) as real), pixelArea))
              in MeasurementsFor(chs, counts, total, pixelArea, units)
    ensures Measurement(TotalQuantifiedName(units), Mul(Val(total as real), pixelArea))
              in MeasurementsFor(chs, counts, total, pixelArea, units)
  {
    var t := NonTransparentTotal(chs, counts);
    var ce := ChannelEntries(chs, counts, t, pixelArea, units);
    var te := TotalEntries(t, total, pixelArea, units);
    assert te[0] in te && te[1] in te;
  }

  function PercentNames(chs: seq<Channel>): seq<string> {
    if chs == [] then []
    else PercentNames(chs[..|chs| - 1]) + (if chs[|chs| - 1].transparent then [] else [PercentName(chs[|chs| - 1])])
  }

  lemma {:induction false} ChannelEntryNames(chs: seq<Channel>, counts: seq<int>, t: int, pixelArea: Value, units: string)
    requires |counts| == |chs|
    ensures pixelArea.Val? ==> Names(ChannelEntries(chs, counts, t, pixelArea, units)) == ChannelNames(chs, units)
    ensures pixelArea.NaN? ==> Names(ChannelEntries(chs, counts, t, pixelArea, units)) == PercentNames(chs)
  {
    if chs != [] {
      var n := |chs| - 1;
      ChannelEntryNames(chs[..n], counts[..n], t, pixelArea, units);
      NamesAppend(ChannelEntries(chs[..n], counts[..n], t, pixelArea, units), ChannelBlock(chs[n], counts[n], t, pixelArea, units));
    }
  }

  lemma NamesAppend(a: MeasurementList, b: MeasurementList)
    ensures Names(a + b) == Names(a) + Names(b)
  {
  }

  /**
    Every list built with the same channels, units and known pixel area has exactly the
    frozen names, in the frozen order, whatever the counts; with a NaN pixel area only
    the percentage names remain.
  */
  lemma MeasurementNamesMatch(chs: seq<Channel>, counts: seq<int>, total: int, pixelArea: Value, units: string)
    requires |counts| == |chs|
    ensures pixelArea.Val? ==> Names(MeasurementsFor(chs, counts, total, pixelArea, units)) == MeasurementNamesFor(chs, pixelArea, units)
    ensures pixelArea.NaN? ==> Names(MeasurementsFor(chs, counts, total, pixelArea, units)) == PercentNames(chs)
  {
    var t := NonTransparentTotal(chs, counts);
    ChannelEntryNames(chs, counts, t, pixelArea, units);
    NamesAppend(ChannelEntries(chs, counts, t, pixelArea, units), TotalEntries(t, total, pixelArea, units));
  }

  /** With no transparent channel the two totals are the same area, that of all counted pixels. */
  lemma TotalsAgree(chs: seq<Channel>, counts: seq<int>, total: int, pixelArea: Value, units: string)
    requires |counts| == |chs| && pixelArea.Val? && NonNegative(counts) && Sum(counts) == total
    requires forall c :: 0 <= c < |chs| ==> !chs[c].transparent
    ensures Measurement(TotalAnnotatedName(units), Mul(Val(total as real), pixelArea))
              in MeasurementsFor(chs, counts, total, pixelArea, units)
    ensures Measurement(TotalQuantifiedName(units), Mul(Val(total as real), pixelArea))
              in MeasurementsFor(chs, counts, total, pixelArea, units)
  {
    NonTransparentAtMostSum(chs, counts);
    TotalAreaValues(chs, counts, total, pixelArea, units);
  }

  lemma {:induction false} ZeroCountsZeroTotal(chs: seq<Channel>, counts: seq<int>)
    requires |counts| == |chs|
    requires forall i :: 0 <= i < |counts| ==> counts[i] == 0
    ensures NonTransparentTotal(chs, counts) == 0
  {
    if chs != [] {
      var n := |chs| - 1;
      ZeroCountsZeroTotal(chs[..n], counts[..n]);
    }
  }

  /** Nothing counted: every listed percentage is 0 / 0, NaN, and every listed area is 0. */
  lemma NoCountsNoPercentages(chs: seq<Channel>, counts: seq<int>, total: int, pixelArea: Value, units: string, c: nat)
    requires |counts| == |chs| && c < |chs| && !chs[c].transparent
    requires forall i :: 0 <= i < |counts| ==> counts[i] == 0
    ensures Measurement(PercentName(chs[c]), NaN) in MeasurementsFor(chs, counts, total, pixelArea, units)
    ensures pixelArea.Val? ==> Measurement(AreaName(chs[c], units), Val(0.0)) in MeasurementsFor(chs, counts, total, pixelArea, units)
  {
    ZeroCountsZeroTotal(chs, counts);
    ChannelMeasurementValues(chs, counts, total, pixelArea, units, c);
  }
}
