/** Block drawing (src/entities/blockEntity.js): the entities of a block become
    the children of a group placed at the negated base point, each by the rule of
    its type, with INSERTs drawing their block recursively. The drawers of the
    single entity types are not repeated here: a child records what kind of
    three.js object its entity becomes and the outcome of its own drawer
    (`drawLine`, `drawText`, `drawHatch`, …), which either throws or returns a
    geometry that may be null. Nested drawing is bounded by `depth`, standing for the
    call stack: a block that inserts itself recurses without end and the stack
    overflows. */
module BlockEntity {
  import opened Js
  import opened LineEntity
  import opened BaseEntity
  import TextEntity

  datatype Scale = Scale(x: Option<real>, y: Option<real>, z: Option<real>)

  /** A block definition: its name, entities, visibility fields and base point. */
  datatype BlockDef = BlockDef(name: string, entities: seq<Child>, view: EntityView, x: real, y: real, z: real)

  /** An entity of a block with the fields `drawBlock` reads: for an INSERT the
      attached block, the block name, scale, rotation and position; for a HATCH
      the fill type. `drawn` is what the entity's own drawer does when called:
      `Err` with the message it throws (an ATTRIB without its text, a HATCH whose
      boundary count exceeds its loops, an unknown line type for a dashed
      material), else whether the geometry it returns is non-null. */
  datatype Child = Child(kind: string, view: EntityView, blockObj: Option<BlockDef>, block: Option<string>,
                         scale: Scale, rotation: Option<real>, pos: Vec3, fillType: string, drawn: Result<bool>)

  /** The types whose own drawer `drawBlock` calls. */
  predicate HasDrawer(k: string)
  {
    IsLineKind(k) || IsMeshKind(k) || k == "HATCH"
  }

  /** The three.js object added for a child. */
  datatype Drawn =
    | LineObj(kind: string)
    | MeshObj(kind: string)
    | InsertObj(sx: real, sy: real, sz: real, rotation: Option<real>, pos: Vec3, inner: BlockGroup)
    | HatchObj(mesh: bool, renderOrder: int, z: real)

  /** The group `drawBlock` returns. */
  datatype BlockGroup = BlockGroup(pos: Vec3, children: seq<Drawn>)

  predicate IsLineKind(k: string)
  {
    k == "LINE" || k == "POLYLINE" || k == "LWPOLYLINE" || k == "ARC" || k == "CIRCLE" || k == "ELLIPSE" || k == "SPLINE"
  }

  predicate IsMeshKind(k: string)
  {
    k == "SOLID" || k == "ATTRIB" || k == "TEXT" || k == "MTEXT"
  }

  /** A truthy scale factor, else 1 (so 0 also becomes 1). */
  function TruthyScale(s: Option<real>): real
  {
    if s.Some? && s.value != 0.0 then s.value else 1.0
  }

  /** `_hideBlockEntity(block)`: paper-space blocks are never drawn, the others
      follow `_hideEntity`. No character outside ASCII lower-cases to one of the
      letters of "*paper_space", so ASCII lower-casing decides the same prefix. */
  predicate HideBlockEntity(b: BlockDef, layers: map<string, LayerRecord>, cfg: Config)
  {
    StartsWith(AsciiLower(b.name), "*paper_space") || HideEntity(b.view, layers, cfg)
  }

  /** The block of an INSERT: the attached `blockObj`, else the first block of
      the drawing's list with that name. */
  function LookupBlock(c: Child, blocks: seq<BlockDef>): (r: Option<BlockDef>)
    ensures c.blockObj.Some? ==> r == c.blockObj
    ensures r.Some? && c.blockObj.None? ==> r.value in blocks && c.block == Some(r.value.name)
  {
    if c.blockObj.Some? then c.blockObj
    else if c.block.None? then None
    else
      match FirstNamed(blocks, (b: BlockDef) => b.name, c.block.value)
      case None => None
      case Some(i) => Some(blocks[i])
  }

  /** What one child adds to the block's group: nothing when hidden, one object
      for a drawable type, a nested group for an INSERT whose block is found,
      non-empty and not hidden, nothing for POINT, ATTDEF, DIMENSION and unknown
      types. */
  function ChildSpec(c: Child, blocks: seq<BlockDef>, layers: map<string, LayerRecord>, cfg: Config, depth: nat)
    : (r: Result<seq<Drawn>>)
    ensures r.Ok? ==> |r.value| <= 1
    ensures HideEntity(c.view, layers, cfg) ==> r == Ok([])
    ensures !HasDrawer(c.kind) && c.kind != "INSERT" ==> r == Ok([])
    ensures !HideEntity(c.view, layers, cfg) && HasDrawer(c.kind) && c.drawn.Err? ==> r == Err(c.drawn.message)
    decreases depth, 0
  {
    if HideEntity(c.view, layers, cfg) then Ok([])
    else if HasDrawer(c.kind) && c.drawn.Err? then Err(c.drawn.message)
    else if IsLineKind(c.kind) then Ok([LineObj(c.kind)])
    else if IsMeshKind(c.kind) then Ok([MeshObj(c.kind)])
    else if c.kind == "INSERT" then
      var block := LookupBlock(c, blocks);
      if block.Some? && |block.value.entities| > 0 && !HideBlockEntity(block.value, layers, cfg) then
        if depth == 0 then Err("RangeError")
        else
          var inner := DrawBlockSpec(block.value, blocks, layers, cfg, depth - 1);
          if inner.Err? then Err(inner.message)
          else Ok([InsertObj(TruthyScale(c.scale.x), TruthyScale(c.scale.y), TruthyScale(c.scale.z),
                             if c.rotation.Some? && c.rotation.value != 0.0 then c.rotation else None,
                             c.pos, inner.value)])
      else Ok([])
    else if c.kind == "HATCH" then
      if c.drawn.value then
        Ok([HatchObj(c.fillType == "SOLID", if c.fillType == "SOLID" then -1 else 0, if c.fillType == "SOLID" then -0.1 else 0.0)])
      else Ok([])
    else Ok([])
  }

  /** The children contributed by the first k entities. */
  function ChildrenSpec(es: seq<Child>, k: nat, blocks: seq<BlockDef>, layers: map<string, LayerRecord>, cfg: Config, depth: nat)
    : Result<seq<Drawn>>
    requires k <= |es|
    decreases depth, 1, k
  {
    if k == 0 then Ok([])
    else
      var prev := ChildrenSpec(es, k - 1, blocks, layers, cfg, depth);
      if prev.Err? then prev
      else
        var d := ChildSpec(es[k - 1], blocks, layers, cfg, depth);
        if d.Err? then d else Ok(prev.value + d.value)
  }

  /** `drawBlock(entity)` as a value. */
  function DrawBlockSpec(b: BlockDef, blocks: seq<BlockDef>, layers: map<string, LayerRecord>, cfg: Config, depth: nat)
    : Result<BlockGroup>
    decreases depth, 2
  {
    var cs := ChildrenSpec(b.entities, |b.entities|, blocks, layers, cfg, depth);
    if cs.Err? then Err(cs.message) else Ok(BlockGroup(Vec3(-b.x, -b.y, -b.z), cs.value))
  }

  /** `drawBlock(entity)`: the loop over the block's entities. */
  method DrawBlock(b: BlockDef, blocks: seq<BlockDef>, layers: map<string, LayerRecord>, cfg: Config, depth: nat)
    returns (r: Result<BlockGroup>)
    ensures r == DrawBlockSpec(b, blocks, layers, cfg, depth)
    decreases depth, 2
  {
    var children: seq<Drawn> := [];
    for i := 0 to |b.entities|
      invariant ChildrenSpec(b.entities, i, blocks, layers, cfg, depth) == Ok(children)
    {
      var d := DrawChild(b.entities[i], blocks, layers, cfg, depth);
      if d.Err? {
        ChildrenErrStays(b.entities, i + 1, |b.entities|, blocks, layers, cfg, depth);
        return Err(d.message);
      }
      children := children + d.value;
    }
    return Ok(BlockGroup(Vec3(-b.x, -b.y, -b.z), children));
  }

  /** The `switch` of `drawBlock` for one entity. */
  method DrawChild(c: Child, blocks: seq<BlockDef>, layers: map<string, LayerRecord>, cfg: Config, depth: nat)
    returns (r: Result<seq<Drawn>>)
    ensures r == ChildSpec(c, blocks, layers, cfg, depth)
    decreases depth, 0
  {
    if HideEntity(c.view, layers, cfg) {
      return Ok([]);
    }
    if HasDrawer(c.kind) && c.drawn.Err? {
      return Err(c.drawn.message);
    }
    if IsLineKind(c.kind) {
      return Ok([LineObj(c.kind)]);
    } else if IsMeshKind(c.kind) {
      return Ok([MeshObj(c.kind)]);
    } else if c.kind == "INSERT" {
      var block := LookupBlock(c, blocks);
      if block.Some? && |block.value.entities| > 0 && !HideBlockEntity(block.value, layers, cfg) {
        if depth == 0 {
          return Err("RangeError");
        }
        var inner := DrawBlock(block.value, blocks, layers, cfg, depth - 1);
        if inner.Err? {
          return Err(inner.message);
        }
        var rotation := if c.rotation.Some? && c.rotation.value != 0.0 then c.rotation else None;
        return Ok([InsertObj(TruthyScale(c.scale.x), TruthyScale(c.scale.y), TruthyScale(c.scale.z), rotation, c.pos, inner.value)]);
      }
      return Ok([]);
    } else if c.kind == "HATCH" {
      if c.drawn.value {
        var solid := c.fillType == "SOLID";
        return Ok([HatchObj(solid, if solid then -1 else 0, if solid then -0.1 else 0.0)]);
      }
      return Ok([]);
    }
    return Ok([]);
  }

  /** Once a prefix fails, every longer prefix fails the same way. */
  lemma {:induction false} ChildrenErrStays(es: seq<Child>, k: nat, n: nat, blocks: seq<BlockDef>,
                                            layers: map<string, LayerRecord>, cfg: Config, depth: nat)
    requires k <= n <= |es|
    requires ChildrenSpec(es, k, blocks, layers, cfg, depth).Err?
    ensures ChildrenSpec(es, n, blocks, layers, cfg, depth).Err?
    ensures ChildrenSpec(es, n, blocks, layers, cfg, depth).message ==
      ChildrenSpec(es, k, blocks, layers, cfg, depth).message
    decreases n - k
  {
    if n > k {
      ChildrenErrStays(es, k, n - 1, blocks, layers, cfg, depth);
    }
  }

  /** A child that throws makes the whole `drawBlock` throw, whatever its position:
      the entities before it are drawn first and the first error is the result. */
  lemma ChildErrorAbortsBlock(b: BlockDef, i: nat, blocks: seq<BlockDef>,
                              layers: map<string, LayerRecord>, cfg: Config, depth: nat)
    requires i < |b.entities| && ChildSpec(b.entities[i], blocks, layers, cfg, depth).Err?
    ensures DrawBlockSpec(b, blocks, layers, cfg, depth).Err?
  {
    assert ChildrenSpec(b.entities, i + 1, blocks, layers, cfg, depth).Err?;
    ChildrenErrStays(b.entities, i + 1, |b.entities|, blocks, layers, cfg, depth);
  }

  /** A visible entity whose drawer throws makes the block throw that error, when
      nothing before it failed. */
  lemma DrawerErrorPropagates(b: BlockDef, i: nat, blocks: seq<BlockDef>,
                              layers: map<string, LayerRecord>, cfg: Config, depth: nat)
    requires i < |b.entities|
    requires var c := b.entities[i]; !HideEntity(c.view, layers, cfg) && HasDrawer(c.kind) && c.drawn.Err?
    requires ChildrenSpec(b.entities, i, blocks, layers, cfg, depth).Ok?
    ensures DrawBlockSpec(b, blocks, layers, cfg, depth) == Err(b.entities[i].drawn.message)
  {
    assert ChildrenSpec(b.entities, i + 1, blocks, layers, cfg, depth) == Err(b.entities[i].drawn.message);
    ChildrenErrStays(b.entities, i + 1, |b.entities|, blocks, layers, cfg, depth);
  }

  /** The outcome of `drawText` for a TEXT, MTEXT or ATTRIB child: it throws exactly
      when the record it resolves to cannot be found. */
  function TextDrawn(t: TextEntity.TextRecord): (d: Result<bool>)
    ensures d.Err? <==> TextEntity.Resolve(t).Err?
  {
    var x := TextEntity.Resolve(t);
    if x.Err? then Err(x.message) else Ok(true)
  }

  /** An ATTRIB without its `mtext` inside a block makes the whole block throw. */
  lemma AttribWithoutTextAbortsBlock(b: BlockDef, i: nat, t: TextEntity.Part, blocks: seq<BlockDef>,
                                     layers: map<string, LayerRecord>, cfg: Config, depth: nat)
    requires i < |b.entities| && b.entities[i].kind == "ATTRIB" && !HideEntity(b.entities[i].view, layers, cfg)
    requires b.entities[i].drawn == TextDrawn(TextEntity.Attrib(TextEntity.Undefined, t))
    ensures DrawBlockSpec(b, blocks, layers, cfg, depth).Err?
  {
    TextEntity.AttribDispatch(TextEntity.Drawable(0, ""), t);
    ChildErrorAbortsBlock(b, i, blocks, layers, cfg, depth);
  }

  /** A block draws at most one object per entity, in entity order. */
  lemma {:induction false} ChildrenAtMostOnePerEntity(es: seq<Child>, k: nat, blocks: seq<BlockDef>,
                                                      layers: map<string, LayerRecord>, cfg: Config, depth: nat)
    requires k <= |es|
    ensures var r := ChildrenSpec(es, k, blocks, layers, cfg, depth); r.Ok? ==> |r.value| <= k
  {
    if k > 0 {
      ChildrenAtMostOnePerEntity(es, k - 1, blocks, layers, cfg, depth);
    }
  }

  /** Without hidden entities and with only line-like and mesh-like types, every
      entity gives exactly one object, of its own kind, in order. */
  lemma {:induction false} PlainBlockChildren(es: seq<Child>, k: nat, blocks: seq<BlockDef>,
                                              layers: map<string, LayerRecord>, cfg: Config, depth: nat)
    requires k <= |es|
    requires forall i :: 0 <= i < |es| ==>
      !HideEntity(es[i].view, layers, cfg) && (IsLineKind(es[i].kind) || IsMeshKind(es[i].kind)) && es[i].drawn.Ok?
    ensures var r := ChildrenSpec(es, k, blocks, layers, cfg, depth);
      && r.Ok? && |r.value| == k
      && forall i :: 0 <= i < k ==> r.value[i] == (if IsLineKind(es[i].kind) then LineObj(es[i].kind) else MeshObj(es[i].kind))
  {
    if k > 0 {
      PlainBlockChildren(es, k - 1, blocks, layers, cfg, depth);
    }
  }

  /** An INSERT of a paper-space block adds nothing. */
  lemma PaperSpaceNotInserted(c: Child, blocks: seq<BlockDef>, layers: map<string, LayerRecord>, cfg: Config, depth: nat)
    requires c.kind == "INSERT"
    requires LookupBlock(c, blocks).Some? && StartsWith(AsciiLower(LookupBlock(c, blocks).value.name), "*paper_space")
    ensures ChildSpec(c, blocks, layers, cfg, depth) == Ok([])
  {
  }

  /** Inside a block, a zero scale factor is falsy and becomes 1. */
  lemma NestedZeroScaleIsOne(c: Child, blocks: seq<BlockDef>, layers: map<string, LayerRecord>, cfg: Config, depth: nat)
    requires c.kind == "INSERT" && c.scale.x == Some(0.0)
    requires ChildSpec(c, blocks, layers, cfg, depth).Ok? && |ChildSpec(c, blocks, layers, cfg, depth).value| == 1
    ensures ChildSpec(c, blocks, layers, cfg, depth).value[0].InsertObj?
    ensures ChildSpec(c, blocks, layers, cfg, depth).value[0].sx == 1.0
  {
  }

  /** A visible block named N whose only entity is a visible INSERT of N, found by
      name in the block list, never finishes drawing: it fails at every depth. */
  lemma {:induction false} SelfInsertOverflows(b: BlockDef, ins: Child, blocks: seq<BlockDef>,
                                               layers: map<string, LayerRecord>, cfg: Config, depth: nat)
    requires b.entities == [ins] && ins.kind == "INSERT" && ins.blockObj.None? && ins.block == Some(b.name)
    requires FirstNamed(blocks, (x: BlockDef) => x.name, b.name) == Some(0) && |blocks| > 0 && blocks[0] == b
    requires !HideEntity(ins.view, layers, cfg) && !HideBlockEntity(b, layers, cfg)
    ensures DrawBlockSpec(b, blocks, layers, cfg, depth).Err?
    decreases depth
  {
    assert LookupBlock(ins, blocks) == Some(b);
    assert b.entities[0] == ins;
    if depth > 0 {
      SelfInsertOverflows(b, ins, blocks, layers, cfg, depth - 1);
    }
    assert ChildSpec(ins, blocks, layers, cfg, depth).Err?;
    assert ChildrenSpec(b.entities, 0, blocks, layers, cfg, depth) == Ok([]);
  }
}
