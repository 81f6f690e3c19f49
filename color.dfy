/** Colour and material rules of src/entities/baseEntity/baseColor.js: the
    colour number an entity resolves to, the fixed 256-entry colour-index table,
    the line-dash sizes of a dashed material and the module-wide material memo.
    three.js materials are reduced to the fields the rules set. */
module BaseColor {
  import opened Js
  import opened BaseEntity
  import opened LayerHelper

  /** What `_getColorHex` and `_getMaterial` read of an entity. */
  datatype Paint = Paint(fillColor: Option<int>, colorNumber: Option<int>, layer: string, lineTypeName: Option<string>)

  /** The colour number used: a truthy `fillColor` wins over `colorNumber`; a
      missing or zero number is replaced by the colour number of the entity's
      layer when the layer table has the layer (which may itself be missing). */
  function ColorNumberOf(e: Paint, layers: map<string, LayerRecord>): Option<int>
  {
    var cn := if e.fillColor.Some? && e.fillColor.value != 0 then e.fillColor else e.colorNumber;
    if (cn.None? || cn.value == 0) && e.layer in layers then layers[e.layer].colorNumber else cn
  }

  /** An RGB value. */
  type Rgb = x: nat | x <= 0xFFFFFF

  /** The `switch` of `_getColorHex`, in rows of eight: entry c of row r is the
      colour of index 8 * r + c. */
  const ColorRows: seq<seq<Rgb>> := [
    [0x000000, 0xFF0000, 0xFFFF00, 0x00FF00, 0x00FFFF, 0x0000FF, 0xFF00FF, 0xFFFFFF],
    [0x414141, 0x808080, 0xFF0000, 0xFFAAAA, 0xBD0000, 0xBD7E7E, 0x810000, 0x815656],
    [0x680000, 0x684545, 0x4F0000, 0x4F3535, 0xFF3F00, 0xFFBFAA, 0xBD2E00, 0xBD8D7E],
    [0x811F00, 0x816056, 0x681900, 0x684E45, 0x4F1300, 0x4F3B35, 0xFF7F00, 0xFFD4AA],
    [0xBD5E00, 0xBD9D7E, 0x814000, 0x816B56, 0x683400, 0x685645, 0x4F2700, 0x4F4235],
    [0xFFBF00, 0xFFEAAA, 0xBD8D00, 0xBDAD7E, 0x816000, 0x817656, 0x684E00, 0x685F45],
    [0x4F3B00, 0x4F4935, 0xFFFF00, 0xFFFFAA, 0xBDBD00, 0xBDBD7E, 0x818100, 0x818156],
    [0x686800, 0x686845, 0x4F4F00, 0x4F4F35, 0xBFFF00, 0xEAFFAA, 0x8DBD00, 0xADBD7E],
    [0x608100, 0x768156, 0x4E6800, 0x5F6845, 0x3B4F00, 0x494F35, 0x7FFF00, 0xD4FFAA],
    [0x5EBD00, 0x9DBD7E, 0x408100, 0x6B8156, 0x346800, 0x566845, 0x274F00, 0x424F35],
    [0x3FFF00, 0xBFFFAA, 0x2EBD00, 0x8DBD7E, 0x1F8100, 0x608156, 0x196800, 0x4E6845],
    [0x134F00, 0x3B4F35, 0x00FF00, 0xAAFFAA, 0x00BD00, 0x7EBD7E, 0x008100, 0x568156],
    [0x006800, 0x456845, 0x004F00, 0x354F35, 0x00FF3F, 0xAAFFBF, 0x00BD2E, 0x7EBD8D],
    [0x00811F, 0x568160, 0x006819, 0x45684E, 0x004F13, 0x354F3B, 0x00FF7F, 0xAAFFD4],
    [0x00BD5E, 0x7EBD9D, 0x008140, 0x56816B, 0x006834, 0x456856, 0x004F27, 0x354F42],
    [0x00FFBF, 0xAAFFEA, 0x00BD8D, 0x7EBDAD, 0x008160, 0x568176, 0x00684E, 0x45685F],
    [0x004F3B, 0x354F49, 0x00FFFF, 0xAAFFFF, 0x00BDBD, 0x7EBDBD, 0x008181, 0x568181],
    [0x006868, 0x456868, 0x004F4F, 0x354F4F, 0x00BFFF, 0xAAEAFF, 0x008DBD, 0x7EADBD],
    [0x006081, 0x567681, 0x004E68, 0x455F68, 0x003B4F, 0x35494F, 0x007FFF, 0xAAD4FF],
    [0x005EBD, 0x7E9DBD, 0x004081, 0x566B81, 0x003468, 0x455668, 0x00274F, 0x35424F],
    [0x003FFF, 0xAABFFF, 0x002EBD, 0x7E8DBD, 0x001F81, 0x566081, 0x001968, 0x454E68],
    [0x00134F, 0x353B4F, 0x0000FF, 0xAAAAFF, 0x0000BD, 0x7E7EBD, 0x000081, 0x565681],
    [0x000068, 0x454568, 0x00004F, 0x35354F, 0x3F00FF, 0xBFAAFF, 0x2E00BD, 0x8D7EBD],
    [0x1F0081, 0x605681, 0x190068, 0x4E4568, 0x13004F, 0x3B354F, 0x7F00FF, 0xD4AAFF],
    [0x5E00BD, 0x9D7EBD, 0x400081, 0x6B5681, 0x340068, 0x564568, 0x27004F, 0x42354F],
    [0xBF00FF, 0xEAAAFF, 0x8D00BD, 0xAD7EBD, 0x600081, 0x765681, 0x4E0068, 0x5F4568],
    [0x3B004F, 0x49354F, 0xFF00FF, 0xFFAAFF, 0xBD00BD, 0xBD7EBD, 0x810081, 0x815681],
    [0x680068, 0x684568, 0x4F004F, 0x4F354F, 0xFF00BF, 0xFFAAEA, 0xBD008D, 0xBD7EAD],
    [0x810060, 0x815676, 0x68004E, 0x68455F, 0x4F003B, 0x4F3549, 0xFF007F, 0xFFAAD4],
    [0xBD005E, 0xBD7E9D, 0x810040, 0x81566B, 0x680034, 0x684556, 0x4F0027, 0x4F3542],
    [0xFF003F, 0xFFAABF, 0xBD002E, 0xBD7E8D, 0x81001F, 0x815660, 0x680019, 0x68454E],
    [0x4F0013, 0x4F353B, 0x333333, 0x505050, 0x696969, 0x828282, 0xBEBEBE, 0xFFFFFF]
  ]

  /** The table has 256 entries. */
  lemma ColorRowsShape()
    ensures |ColorRows| == 32 && forall r :: 0 <= r < 32 ==> |ColorRows[r]| == 8
  {
  }

  /** A colour index to its RGB value; anything outside the table is white. */
  function IndexColor(n: int): (hex: Rgb)
    ensures !(0 <= n < 256) ==> hex == 0xFFFFFF
  {
    if 0 <= n < 256 then ColorRowsShape(); ColorRows[n / 8][n % 8] else 0xFFFFFF
  }

  /** `_getColorHex(entity)`; an undefined colour number falls to the default white. */
  function GetColorHex(e: Paint, layers: map<string, LayerRecord>): (hex: nat)
    ensures hex <= 0xFFFFFF
  {
    var cn := ColorNumberOf(e, layers);
    if cn.Some? then IndexColor(cn.value) else 0xFFFFFF
  }

  /** A few entries of the table, and the default outside it. */
  lemma ColorTableExamples()
    ensures IndexColor(0) == 0x000000 && IndexColor(1) == 0xFF0000 && IndexColor(7) == 0xFFFFFF
    ensures IndexColor(250) == 0x333333 && IndexColor(255) == 0xFFFFFF
    ensures IndexColor(256) == 0xFFFFFF && IndexColor(-1) == 0xFFFFFF
  {
  }

  /** A non-zero fill colour decides the colour, whatever the layer says. */
  lemma FillColorWins(e: Paint, layers: map<string, LayerRecord>)
    requires e.fillColor.Some? && e.fillColor.value != 0
    ensures GetColorHex(e, layers) == IndexColor(e.fillColor.value)
  {
  }

  /** An entity without its own colour (BYLAYER, number 0 or absent) takes the
      colour of its layer's number when the layer is known. */
  lemma ByLayerColor(e: Paint, layers: map<string, LayerRecord>)
    requires e.fillColor.None? || e.fillColor.value == 0
    requires e.colorNumber.None? || e.colorNumber.value == 0
    requires e.layer in layers
    ensures GetColorHex(e, layers) ==
      (if layers[e.layer].colorNumber.Some? then IndexColor(layers[e.layer].colorNumber.value) else 0xFFFFFF)
  {
  }

  /** An entity with its own non-zero colour number and no fill keeps it. */
  lemma OwnColor(e: Paint, layers: map<string, LayerRecord>)
    requires e.fillColor.None? || e.fillColor.value == 0
    requires e.colorNumber.Some? && e.colorNumber.value != 0
    ensures GetColorHex(e, layers) == IndexColor(e.colorNumber.value)
  {
  }

  /** Over the layer records built by `LayerHelper.parse`, which carry `color`
      but no `colorNumber`, an entity without its own colour is always white. */
  lemma ByLayerOnParsedTable(e: Paint, layers: map<string, ParsedLayer>)
    requires e.fillColor.None? || e.fillColor.value == 0
    requires e.colorNumber.None? || e.colorNumber.value == 0
    requires e.layer in layers
    ensures GetColorHex(e, map k | k in layers :: ParsedRecord(layers[k])) == 0xFFFFFF
  {
  }

  // ---------------------------------------------------------------- dashed material

  /** A line type record; each pattern element is read through its `length`
      property, which is `None` when the element has none (a plain number). */
  datatype LineTypeRecord = LineTypeRecord(pattern: Option<seq<Option<real>>>)

  /** Dash and gap sizes; a `dashSize` of `None` is NaN. */
  datatype DashSizes = DashSizes(dashSize: Option<real>, gapSize: real)

  /** `Math.max` over the element lengths: NaN as soon as one is undefined. */
  function MaxLength(ls: seq<Option<real>>): (m: Option<real>)
    requires |ls| > 0
    ensures m.None? <==> exists i :: 0 <= i < |ls| && ls[i].None?
    ensures m.Some? ==> forall i :: 0 <= i < |ls| ==> ls[i].Some? && ls[i].value <= m.value
    ensures m.Some? ==> exists i :: 0 <= i < |ls| && ls[i] == m
  {
    if |ls| == 1 then ls[0]
    else
      var rest := MaxLength(ls[1..]);
      if ls[0].None? || rest.None? then None
      else if ls[0].value >= rest.value then ls[0] else rest
  }

  /** `_createDashedMaterial(entity)`: a missing, empty or unknown line type name
      leaves `type` null and reading `type.pattern` throws. Otherwise a non-empty
      pattern gives its largest length (0 becomes 4) and its element count; an
      absent or empty pattern gives 4 and 4. */
  function DashedSizes(lineTypeName: Option<string>, ltypes: map<string, LineTypeRecord>): (r: Result<DashSizes>)
    ensures r.Err? <==> lineTypeName.None? || lineTypeName.value == "" || lineTypeName.value !in ltypes
    ensures r.Ok? ==>
      var p := ltypes[lineTypeName.value].pattern;
      if p.Some? && |p.value| > 0 then
        && r.value.gapSize == |p.value| as real
        && (r.value.dashSize.None? <==> exists i :: 0 <= i < |p.value| && p.value[i].None?)
        && (r.value.dashSize.Some? ==> forall i :: 0 <= i < |p.value| ==> p.value[i].value <= r.value.dashSize.value)
        && r.value.dashSize != Some(0.0)
      else r.value == DashSizes(Some(4.0), 4.0)
  {
    if lineTypeName.None? || lineTypeName.value == "" || lineTypeName.value !in ltypes then Err("TypeError")
    else
      var p := ltypes[lineTypeName.value].pattern;
      if p.Some? && |p.value| > 0 then
        var dash := MaxLength(p.value);
        Ok(DashSizes(if dash == Some(0.0) then Some(4.0) else dash, |p.value| as real))
      else Ok(DashSizes(Some(4.0), 4.0))
  }

  /** The gap size counts elements, whatever their lengths: `map` keeps the length
      of the array, so negative (gap) elements are not what is counted. */
  lemma GapIsElementCount()
    ensures DashedSizes(Some("D"), map["D" := LineTypeRecord(Some([Some(0.5), Some(-0.25), Some(0.0)]))])
      == Ok(DashSizes(Some(0.5), 3.0))
  {
    var ls := [Some(0.5), Some(-0.25), Some(0.0)];
    assert ls[1..] == [Some(-0.25), Some(0.0)];
    assert ls[1..][1..] == [Some(0.0)];
  }

  // ---------------------------------------------------------------- material memo

  datatype MaterialKind = MeshBasic | LineBasic | LineDashed(sizes: DashSizes)

  /** A material as `_getMaterial` leaves it: kind, colour and name. */
  class Material {
    const kind: MaterialKind
    const color: nat
    const name: string

    constructor(kind: MaterialKind, color: nat, name: string)
      ensures this.kind == kind && this.color == color && this.name == name
    {
      this.kind := kind;
      this.color := color;
      this.name := name;
    }
  }

  /** The cache key `lineTypeName + type + color`; an undefined name reads
      "undefined". */
  function MaterialKey(lineTypeName: Option<string>, t: string, color: nat): string
  {
    (if lineTypeName.Some? then lineTypeName.value else "undefined") + t + DecimalString(color)
  }

  /** Two colours never share a key under the same line type and material type,
      so differently coloured entities never share a material. */
  lemma {:induction false} MaterialKeySeparatesColors(lineTypeName: Option<string>, t: string, c1: nat, c2: nat)
    requires MaterialKey(lineTypeName, t, c1) == MaterialKey(lineTypeName, t, c2)
    ensures c1 == c2
  {
    var pre := (if lineTypeName.Some? then lineTypeName.value else "undefined") + t;
    var k1 := MaterialKey(lineTypeName, t, c1);
    var k2 := MaterialKey(lineTypeName, t, c2);
    assert k1 == pre + DecimalString(c1) && k2 == pre + DecimalString(c2);
    assert DecimalString(c1) == k1[|pre|..];
    assert DecimalString(c2) == k2[|pre|..];
    DecimalStringInjective(c1, c2);
  }

  /** The module-level `_materialCache`, shared by every entity drawer. */
  class MaterialCache {
    var entries: map<string, Material>

    constructor()
      ensures entries == map[]
    {
      entries := map[];
    }

    /** `_getMaterial(entity, type)`: a key already present returns the stored
        object itself; otherwise a new material of the kind `type` names is made,
        coloured and named by the key, and stored. A dashed material whose line
        type is unknown throws and stores nothing. */
    method GetMaterial(e: Paint, t: string, layers: map<string, LayerRecord>, ltypes: map<string, LineTypeRecord>)
      returns (r: Result<Material>)
      modifies this
      ensures var key := MaterialKey(e.lineTypeName, t, GetColorHex(e, layers));
        if key in old(entries) then r == Ok(old(entries)[key]) && entries == old(entries)
        else if t != "shape" && t != "line" && DashedSizes(e.lineTypeName, ltypes).Err? then
          r.Err? && entries == old(entries)
        else
          && r.Ok? && fresh(r.value)
          && r.value.color == GetColorHex(e, layers) && r.value.name == key
          && r.value.kind == (if t == "shape" then MeshBasic else if t == "line" then LineBasic
                              else LineDashed(DashedSizes(e.lineTypeName, ltypes).value))
          && entries == old(entries)[key := r.value]
    {
      var color := GetColorHex(e, layers);
      var key := MaterialKey(e.lineTypeName, t, color);
      if key in entries {
        return Ok(entries[key]);
      }
      var kind: MaterialKind;
      if t == "shape" {
        kind := MeshBasic;
      } else if t == "line" {
        kind := LineBasic;
      } else {
        var sizes := DashedSizes(e.lineTypeName, ltypes);
        if sizes.Err? {
          return Err(sizes.message);
        }
        kind := LineDashed(sizes.value);
      }
      var mat := new Material(kind, color, key);
      entries := entries[key := mat];
      return Ok(mat);
    }
  }
}
