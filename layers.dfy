/** The layer table parser (src/entities/baseEntity/layerHelper.js): every raw
    layer record of the DXF tables becomes a display record with its colour, its
    visibility and its flag words. `ColorHelper.getColorByNumber` is not part of
    this model and is passed in as a function. */
module LayerHelper {
  import opened Js

  /** A layer as the DXF parser delivers it; absent properties are `None`. */
  datatype RawLayer = RawLayer(name: string, lineTypeName: Option<string>, lineWeightEnum: Option<int>,
                               colorNumber: Option<int>, plot: Option<bool>, flags: Option<int>)

  /** The record `parse` builds for each layer. */
  datatype ParsedLayer = ParsedLayer(name: string, lineTypeName: Option<string>, lineWeightEnum: Option<int>,
                                     color: int, visible: bool, flags: seq<string>)

  /** The order in which flag words are listed. */
  function FlagRank(s: string): int
  {
    if s == "frozen" then 0 else if s == "locked" then 1 else if s == "dependent" then 2 else 3
  }

  /** `parseFlags(flag)`. An undefined flag is NaN to the arithmetic, and
      `NaN % 2 !== 0` holds, so it reads as frozen. The ranges are the code's, not
      bit tests. */
  function ParseFlags(flag: Option<int>): (r: seq<string>)
    ensures "frozen" in r <==> flag != Some(0) && (flag.None? || flag.value % 2 != 0)
    ensures "locked" in r <==>
      (flag.Some? && ((4 <= flag.value < 16) || flag.value == 20 || flag.value == 36 || flag.value == 52))
    ensures "dependent" in r <==> flag.Some? && 16 <= flag.value < 64
    ensures forall i :: 0 <= i < |r| ==> FlagRank(r[i]) < 3
    ensures forall i, j :: 0 <= i < j < |r| ==> FlagRank(r[i]) < FlagRank(r[j])
  {
    if flag == Some(0) then []
    else
      (if flag.None? || flag.value % 2 != 0 then ["frozen"] else [])
      + (if flag.Some? && ((4 <= flag.value < 16) || flag.value == 20 || flag.value == 36 || flag.value == 52) then ["locked"] else [])
      + (if flag.Some? && 16 <= flag.value < 64 then ["dependent"] else [])
  }

  /** The ranges differ from the bits they describe: 68 and 28 have the locked
      bit (value 4) set, yet 68 gives no flag and 28 only "dependent". */
  lemma FlagsAreRangesNotBits()
    ensures BitSet(68, 2) && ParseFlags(Some(68)) == []
    ensures BitSet(28, 2) && ParseFlags(Some(28)) == ["dependent"]
  {
    assert Pow2(2) == 4;
  }

  /** 5 is frozen and locked, 64 and 0 give no flags, an undefined flag is frozen. */
  lemma FlagExamples()
    ensures ParseFlags(Some(5)) == ["frozen", "locked"]
    ensures ParseFlags(Some(64)) == [] && ParseFlags(Some(0)) == []
    ensures ParseFlags(None) == ["frozen"]
  {
    assert ParseFlags(Some(5)) == ["frozen"] + ["locked"] + [];
  }

  /** `isVisible(layer)`: hidden by a negative colour number or a defined, false
      `plot`; an undefined colour number compares false. */
  function IsVisible(l: RawLayer): (v: bool)
    ensures !v <==> (l.colorNumber.Some? && l.colorNumber.value < 0) || l.plot == Some(false)
  {
    !(l.colorNumber.Some? && l.colorNumber.value < 0) && l.plot != Some(false)
  }

  function ParseLayer(l: RawLayer, colorByNumber: Option<int> -> int): ParsedLayer
  {
    ParsedLayer(l.name, l.lineTypeName, l.lineWeightEnum, colorByNumber(l.colorNumber), IsVisible(l), ParseFlags(l.flags))
  }

  /** `parse(layers)`: one record per key of the input, and no other keys. */
  method Parse(layers: map<string, RawLayer>, colorByNumber: Option<int> -> int) returns (parsed: map<string, ParsedLayer>)
    ensures parsed.Keys == layers.Keys
    ensures forall k :: k in layers ==>
      && parsed[k].name == layers[k].name
      && parsed[k].lineTypeName == layers[k].lineTypeName
      && parsed[k].lineWeightEnum == layers[k].lineWeightEnum
      && parsed[k].color == colorByNumber(layers[k].colorNumber)
      && parsed[k].visible == IsVisible(layers[k])
      && parsed[k].flags == ParseFlags(layers[k].flags)
  {
    parsed := map[];
    var keys := layers.Keys;
    while keys != {}
      invariant keys <= layers.Keys
      invariant parsed.Keys == layers.Keys - keys
      invariant forall k :: k in parsed ==> parsed[k] == ParseLayer(layers[k], colorByNumber)
      decreases |keys|
    {
      var k :| k in keys;
      parsed := parsed[k := ParseLayer(layers[k], colorByNumber)];
      keys := keys - {k};
    }
  }
}
