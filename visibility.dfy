/** The visibility rule shared by every entity drawer
    (src/entities/baseEntity/baseEntity.js), the global display settings
    (src/entities/baseEntity/properties.js) it reads, and the block lookup.

    At draw time the layer table holds the records built by `LayerHelper.parse`:
    they have no `colorNumber` or `plot`, and their `flags` is an array of flag
    words, which `_parseLayerFlags` then uses as a number. The layer record here
    covers both shapes, so the rule is stated once for raw and for parsed layers. */
module BaseEntity {
  import opened Js
  import opened LayerHelper

  /** The static `Properties` the drawers consult. `textHook` says whether an
      `onBeforeTextDraw` hook is set. */
  datatype Config = Config(cache: bool, showFrozen: bool, showLocked: bool, paperSpace: int, textHook: bool)

  const Defaults: Config := Config(true, false, true, 0, false)

  /** A `flags` property as `_parseLayerFlags` receives it. */
  datatype FlagValue = FlagNum(n: int) | FlagUndefined | FlagList(words: seq<string>)

  /** A JavaScript number that is an integer or NaN. */
  datatype Num = Int(v: int) | NaN

  /** ToNumber of a flags property. An array converts through its string: the
      empty array to 0, an array of flag words (none of them numeric) to NaN. */
  function FlagNumber(f: FlagValue): Num
  {
    match f
    case FlagNum(n) => Int(n)
    case FlagUndefined => NaN
    case FlagList(ws) => if |ws| == 0 then Int(0) else NaN
  }

  /** `_parseLayerFlags(flag)`: `flag === 0` is true only for the number 0;
      `x % 2 !== 0` holds for odd numbers and for NaN; every comparison with NaN is
      false. */
  function ParseLayerFlags(flag: FlagValue): (r: seq<string>)
    ensures "frozen" in r <==> (flag != FlagNum(0) && (FlagNumber(flag).NaN? || FlagNumber(flag).v % 2 != 0))
    ensures "locked" in r <==> (FlagNumber(flag).Int? &&
      var f := FlagNumber(flag).v; (4 <= f < 16) || f == 20 || f == 36 || f == 52)
    ensures "dependent" in r <==> (FlagNumber(flag).Int? && 16 <= FlagNumber(flag).v < 64)
  {
    if flag == FlagNum(0) then []
    else
      var n := FlagNumber(flag);
      (if n.NaN? || n.v % 2 != 0 then ["frozen"] else [])
      + (if n.Int? && ((4 <= n.v < 16) || n.v == 20 || n.v == 36 || n.v == 52) then ["locked"] else [])
      + (if n.Int? && 16 <= n.v < 64 then ["dependent"] else [])
  }

  /** The two copies of the flag decoder agree on every number and on undefined. */
  lemma ParseFlagsAgree(flag: Option<int>)
    ensures ParseLayerFlags(if flag.Some? then FlagNum(flag.value) else FlagUndefined) == ParseFlags(flag)
  {
  }

  /** What `_hideEntity` reads of a layer. */
  datatype LayerRecord = LayerRecord(colorNumber: Option<int>, plot: Option<bool>, flags: FlagValue)

  function RawRecord(l: RawLayer): LayerRecord
  {
    LayerRecord(l.colorNumber, l.plot, if l.flags.Some? then FlagNum(l.flags.value) else FlagUndefined)
  }

  /** A record built by `LayerHelper.parse`, as `_hideEntity` sees it. */
  function ParsedRecord(l: ParsedLayer): LayerRecord
  {
    LayerRecord(None, None, FlagList(l.flags))
  }

  /** A `paperSpace` value: `Properties.showFrozen !== entity.paperSpace` compares
      a boolean with it, so a number is never strictly equal. */
  datatype Scalar = Number(n: int) | Boolean(b: bool)

  /** What `_hideEntity` reads of an entity; `layer` is the key it looks up. */
  datatype EntityView = EntityView(visible: Option<bool>, paperSpace: Option<Scalar>,
                                   lineTypeName: Option<string>, layer: string)

  /** The checks that do not involve the layer. */
  predicate HiddenByEntity(e: EntityView, cfg: Config)
  {
    e.visible == Some(false)
    || (e.paperSpace.Some? && e.paperSpace.value != Boolean(cfg.showFrozen))
    || e.lineTypeName == Some("HIDDEN")
  }

  /** `_hideEntity(entity)` over a layer table of raw or parsed records. */
  function HideEntity(e: EntityView, layers: map<string, LayerRecord>, cfg: Config): (hidden: bool)
    ensures hidden <==> (HiddenByEntity(e, cfg) || (e.layer in layers &&
      (var l := layers[e.layer];
       (l.colorNumber.Some? && l.colorNumber.value < 0)
       || l.plot == Some(false)
       || (!cfg.showFrozen && "frozen" in ParseLayerFlags(l.flags))
       || (!cfg.showLocked && "locked" in ParseLayerFlags(l.flags)))))
  {
    if e.visible.Some? && !e.visible.value then true
    else if e.paperSpace.Some? && Boolean(cfg.showFrozen) != e.paperSpace.value then true
    else if e.lineTypeName == Some("HIDDEN") then true
    else if e.layer in layers then
      var layer := layers[e.layer];
      if layer.colorNumber.Some? && layer.colorNumber.value < 0 then true
      else if layer.plot.Some? && !layer.plot.value then true
      else
        var flags := ParseLayerFlags(layer.flags);
        if !cfg.showFrozen && "frozen" in flags then true
        else if !cfg.showLocked && "locked" in flags then true
        else false
    else false
  }

  /** Any numeric `paperSpace`, model space 0 included, hides the entity: the code
      compares it with the boolean `showFrozen`, not with `Properties.paperSpace`. */
  lemma NumericPaperSpaceHides(e: EntityView, layers: map<string, LayerRecord>, cfg: Config)
    requires e.paperSpace.Some? && e.paperSpace.value.Number?
    ensures HideEntity(e, layers, cfg)
  {
  }

  /** On a table of parsed records, any flag word at all reads as frozen (the array
      is NaN as a number); so with `showFrozen` off an entity on a layer with any
      flag is hidden, and otherwise the layer never hides it. */
  lemma {:induction false} HideOnParsedLayers(e: EntityView, layers: map<string, ParsedLayer>, cfg: Config)
    ensures var table := map k | k in layers :: ParsedRecord(layers[k]);
      HideEntity(e, table, cfg) <==>
        HiddenByEntity(e, cfg) || (e.layer in layers && |layers[e.layer].flags| > 0 && !cfg.showFrozen)
  {
    var table := map k | k in layers :: ParsedRecord(layers[k]);
    if e.layer in layers {
      var ws := layers[e.layer].flags;
      assert table[e.layer] == LayerRecord(None, None, FlagList(ws));
      assert "locked" !in ParseLayerFlags(FlagList(ws));
      if |ws| == 0 {
        assert ParseLayerFlags(FlagList(ws)) == [];
      }
    }
  }

  /** The corrected rule: the parsed flag words are read as words, so a layer is
      hidden for being frozen or locked exactly as the settings say. */
  function HideEntityParsed(e: EntityView, layers: map<string, ParsedLayer>, cfg: Config): (hidden: bool)
  {
    if HiddenByEntity(e, cfg) then true
    else if e.layer in layers then
      var flags := layers[e.layer].flags;
      (!cfg.showFrozen && "frozen" in flags) || (!cfg.showLocked && "locked" in flags)
    else false
  }

  /** With the corrected rule a parsed layer hides an entity exactly when its raw
      flag decodes to frozen with `showFrozen` off, or to locked with `showLocked` off. */
  lemma HideEntityParsedMeaning(e: EntityView, raw: map<string, RawLayer>, colorByNumber: Option<int> -> int, cfg: Config)
    ensures var parsed := map k | k in raw :: ParseLayer(raw[k], colorByNumber);
      HideEntityParsed(e, parsed, cfg) <==>
        HiddenByEntity(e, cfg) || (e.layer in raw &&
          (var f := raw[e.layer].flags;
           (!cfg.showFrozen && f != Some(0) && (f.None? || f.value % 2 != 0))
           || (!cfg.showLocked && f.Some? && ((4 <= f.value < 16) || f.value == 20 || f.value == 36 || f.value == 52))))
  {
  }

  /** The discrepancy: a layer that is only locked (raw flags 4) hides its entities
      under the default settings, although `showLocked` is on; the corrected rule
      shows them. */
  lemma LockedLayerHidden()
    ensures var raw := RawLayer("L", None, None, Some(7), None, Some(4));
      var parsed := ParseLayer(raw, (c: Option<int>) => 0);
      var e := EntityView(None, None, None, "L");
      && parsed.flags == ["locked"]
      && HideEntity(e, map["L" := ParsedRecord(parsed)], Defaults)
      && !HideEntityParsed(e, map["L" := parsed], Defaults)
  {
    var raw := RawLayer("L", None, None, Some(7), None, Some(4));
    var parsed := ParseLayer(raw, (c: Option<int>) => 0);
    assert parsed.flags == ["locked"];
    assert "frozen" in ParseLayerFlags(FlagList(["locked"]));
    assert "frozen" !in ["locked"];
  }

  // ---------------------------------------------------------------- _getBlock

  /** The index of the first element whose name is `name`. */
  function FirstNamed<T>(blocks: seq<T>, nameOf: T -> string, name: string): (r: Option<nat>)
    ensures r.Some? ==> r.value < |blocks| && nameOf(blocks[r.value]) == name
    ensures r.Some? ==> forall i :: 0 <= i < r.value ==> nameOf(blocks[i]) != name
    ensures r.None? ==> forall i :: 0 <= i < |blocks| ==> nameOf(blocks[i]) != name
  {
    if blocks == [] then None
    else if nameOf(blocks[0]) == name then Some(0)
    else match FirstNamed(blocks[1..], nameOf, name)
      case None => None
      case Some(i) => Some(i + 1)
  }

  /** `_getBlock(blocks, name)`: the first block with that name, or null. */
  method GetBlock<T>(blocks: seq<T>, nameOf: T -> string, name: string) returns (r: Option<T>)
    ensures r.None? <==> FirstNamed(blocks, nameOf, name).None?
    ensures r.Some? ==> r.value == blocks[FirstNamed(blocks, nameOf, name).value]
  {
    for i := 0 to |blocks|
      invariant FirstNamed(blocks, nameOf, name).None? || FirstNamed(blocks, nameOf, name).value >= i
    {
      if nameOf(blocks[i]) == name {
        return Some(blocks[i]);
      }
    }
    return None;
  }
}
