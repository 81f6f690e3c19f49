/** INSERT entities at the top level of a drawing (src/entities/insertEntity.js):
    every INSERT first gets its block attached, then each visible one is drawn
    through the block drawer and cached, with scale defaults that differ from
    those of INSERTs nested in blocks. The `_cache` stamp of an entity is its
    `tag`. */
module InsertEntity {
  import opened Js
  import opened LineEntity
  import opened BaseEntity
  import opened BaseCache
  import opened BlockEntity

  /** A top-level INSERT: `blockObj` is the property `draw` attaches. */
  class InsertRecord {
    var blockObj: Option<BlockDef>
    const block: Option<string>
    const scale: Scale
    const rotation: Option<real>
    const pos: Vec3
    const view: EntityView
    const tag: CachedEntity

    constructor(blockObj: Option<BlockDef>, block: Option<string>, scale: Scale, rotation: Option<real>,
                pos: Vec3, view: EntityView, tag: CachedEntity)
      ensures this.blockObj == blockObj && this.block == block && this.scale == scale
      ensures this.rotation == rotation && this.pos == pos && this.view == view && this.tag == tag
    {
      this.blockObj := blockObj;
      this.block := block;
      this.scale := scale;
      this.rotation := rotation;
      this.pos := pos;
      this.view := view;
      this.tag := tag;
    }
  }

  /** The first block of the list with the given name. */
  function BlockNamed(blocks: seq<BlockDef>, name: Option<string>): (r: Option<BlockDef>)
    ensures r.Some? ==> name == Some(r.value.name) && r.value in blocks
  {
    if name.None? then None
    else
      match FirstNamed(blocks, (b: BlockDef) => b.name, name.value)
      case None => None
      case Some(i) => Some(blocks[i])
  }

  /** What the attachment leaves in `blockObj`: a defined one is kept, otherwise
      the block found by name, otherwise it stays undefined. */
  function Attached(blockObj: Option<BlockDef>, blocks: seq<BlockDef>, name: Option<string>): (r: Option<BlockDef>)
    ensures blockObj.Some? ==> r == blockObj
    ensures blockObj.None? ==> r == BlockNamed(blocks, name)
  {
    if blockObj.Some? then blockObj else BlockNamed(blocks, name)
  }

  /** Attaching twice is attaching once. */
  lemma AttachedIdempotent(blockObj: Option<BlockDef>, blocks: seq<BlockDef>, name: Option<string>)
    ensures Attached(Attached(blockObj, blocks, name), blocks, name) == Attached(blockObj, blocks, name)
  {
  }

  /** The first loop of `draw`: every INSERT without a `blockObj` gets the block
      of its name when there is one. An entity listed twice is attached once. */
  method AttachBlocks(inserts: seq<InsertRecord>, blocks: seq<BlockDef>)
    modifies set e | e in inserts
    ensures forall i :: 0 <= i < |inserts| ==>
      inserts[i].blockObj == Attached(old(inserts[i].blockObj), blocks, inserts[i].block)
  {
    for i := 0 to |inserts|
      invariant forall j :: 0 <= j < |inserts| ==>
        inserts[j].blockObj == (if inserts[j] in inserts[..i]
                                then Attached(old(inserts[j].blockObj), blocks, inserts[j].block)
                                else old(inserts[j].blockObj))
    {
      var e := inserts[i];
      if e.blockObj.None? {
        var found := GetBlock(blocks, (b: BlockDef) => b.name, if e.block.Some? then e.block.value else "");
        if e.block.Some? && found.Some? {
          e.blockObj := found;
        }
      }
      assert inserts[..i + 1] == inserts[..i] + [e];
    }
    assert inserts[..|inserts|] == inserts;
  }

  /** The group `drawInsert` builds. */
  datatype InsertGroup = InsertGroup(sx: real, sy: real, sz: real, rotation: Option<real>, pos: Vec3, inner: BlockGroup)

  /** A defined scale factor, 0 included, else 1. */
  function DefinedScale(s: Option<real>): real
  {
    if s.Some? then s.value else 1.0
  }

  /** `drawInsert(entity)` without the cache: a group when the block is found and
      not hidden (an empty block is drawn too), else null. A block drawer that
      overflows the stack makes it throw. */
  function InsertSpec(blockObj: Option<BlockDef>, name: Option<string>, scale: Scale, rotation: Option<real>, pos: Vec3,
                      blocks: seq<BlockDef>, layers: map<string, LayerRecord>, cfg: Config, depth: nat)
    : (r: Result<Option<InsertGroup>>)
    ensures r.Ok? && r.value.Some? ==>
      && r.value.value.sx == DefinedScale(scale.x) && r.value.value.sy == DefinedScale(scale.y)
      && r.value.value.sz == DefinedScale(scale.z) && r.value.value.pos == pos
    ensures var block := if blockObj.Some? then blockObj else BlockNamed(blocks, name);
      block.None? || HideBlockEntity(block.value, layers, cfg) ==> r == Ok(None)
  {
    var block := if blockObj.Some? then blockObj else BlockNamed(blocks, name);
    if block.Some? && !HideBlockEntity(block.value, layers, cfg) then
      var inner := DrawBlockSpec(block.value, blocks, layers, cfg, depth);
      if inner.Err? then Err(inner.message)
      else Ok(Some(InsertGroup(DefinedScale(scale.x), DefinedScale(scale.y), DefinedScale(scale.z),
                               if rotation.Some? && rotation.value != 0.0 then rotation else None, pos, inner.value)))
    else Ok(None)
  }

  /** At the top level a zero scale factor stays 0, where inside a block it
      becomes 1. */
  lemma TopLevelZeroScaleKept(blockObj: Option<BlockDef>, name: Option<string>, scale: Scale, rotation: Option<real>, pos: Vec3,
                              blocks: seq<BlockDef>, layers: map<string, LayerRecord>, cfg: Config, depth: nat)
    requires scale.x == Some(0.0)
    requires var r := InsertSpec(blockObj, name, scale, rotation, pos, blocks, layers, cfg, depth); r.Ok? && r.value.Some?
    ensures InsertSpec(blockObj, name, scale, rotation, pos, blocks, layers, cfg, depth).value.value.sx == 0.0
    ensures TruthyScale(scale.x) == 1.0
  {
  }

  /** `drawInsert(entity)`: a cached group is returned as is; otherwise the group
      (or null) is built and cached. A cached null reads as a miss, so an INSERT
      that draws nothing is rebuilt and stamped again on every call. */
  method DrawInsert(e: InsertRecord, c: Cache<Option<InsertGroup>>, blocks: seq<BlockDef>,
                    layers: map<string, LayerRecord>, cfg: Config, depth: nat)
    returns (r: Result<Option<InsertGroup>>)
    requires c.Valid()
    modifies c, e.tag
    ensures c.Valid()
    ensures var hit := old(c.GetCached(e.tag, cfg.cache));
      if hit.Some? && hit.value.Some? then
        r == Ok(hit.value) && c.store == old(c.store) && c.index == old(c.index) && e.tag.stamp == old(e.tag.stamp)
      else
        var spec := InsertSpec(e.blockObj, e.block, e.scale, e.rotation, e.pos, blocks, layers, cfg, depth);
        && r == spec
        && (spec.Ok? ==> (c.store == old(c.store)[CacheKey(old(c.index)) := spec.value] && c.index == old(c.index) + 1
                           && e.tag.stamp == Some(CacheKey(old(c.index)))))
        && (spec.Err? ==> c.store == old(c.store) && c.index == old(c.index) && e.tag.stamp == old(e.tag.stamp))
  {
    var cached := c.GetCached(e.tag, cfg.cache);
    if cached.Some? && cached.value.Some? {
      return Ok(cached.value);
    }
    var sx := DefinedScale(e.scale.x);
    var sy := DefinedScale(e.scale.y);
    var sz := DefinedScale(e.scale.z);
    var block := if e.blockObj.Some? then e.blockObj else BlockNamed(blocks, e.block);
    var group: Option<InsertGroup> := None;
    if block.Some? && !HideBlockEntity(block.value, layers, cfg) {
      var inner := DrawBlock(block.value, blocks, layers, cfg, depth);
      if inner.Err? {
        return Err(inner.message);
      }
      var rotation := if e.rotation.Some? && e.rotation.value != 0.0 then e.rotation else None;
      group := Some(InsertGroup(sx, sy, sz, rotation, e.pos, inner.value));
    }
    c.SetCache(e.tag, group);
    return Ok(group);
  }

  /** `drawInsert` of an INSERT object without the cache, read in the current state. */
  function InsertSpecOf(e: InsertRecord, blocks: seq<BlockDef>, layers: map<string, LayerRecord>, cfg: Config, depth: nat)
    : Result<Option<InsertGroup>>
    reads e
  {
    InsertSpec(e.blockObj, e.block, e.scale, e.rotation, e.pos, blocks, layers, cfg, depth)
  }

  /** A visible INSERT whose drawing throws. */
  predicate Throws(e: InsertRecord, blocks: seq<BlockDef>, layers: map<string, LayerRecord>, cfg: Config, depth: nat)
    reads e
  {
    !HideEntity(e.view, layers, cfg) && InsertSpecOf(e, blocks, layers, cfg, depth).Err?
  }

  /** One pass of the second loop of `draw`, without the cache: a hidden INSERT
      or one that draws null leaves the groups as they are, one that draws a
      group adds it, and one that throws ends the drawing. */
  function GroupsStep(acc: seq<InsertGroup>, e: InsertRecord, blocks: seq<BlockDef>,
                      layers: map<string, LayerRecord>, cfg: Config, depth: nat): Result<seq<InsertGroup>>
    reads e
  {
    if HideEntity(e.view, layers, cfg) then Ok(acc)
    else
      var g := InsertSpecOf(e, blocks, layers, cfg, depth);
      if g.Err? then Err(g.message)
      else if g.value.Some? then Ok(acc + [g.value.value])
      else Ok(acc)
  }

  /** The second loop of `draw` over the first k INSERTs, without the cache. */
  function GroupsOf(inserts: seq<InsertRecord>, k: nat, blocks: seq<BlockDef>,
                    layers: map<string, LayerRecord>, cfg: Config, depth: nat): Result<seq<InsertGroup>>
    requires k <= |inserts|
    reads set e | e in inserts
  {
    if k == 0 then Ok([])
    else
      var prev := GroupsOf(inserts, k - 1, blocks, layers, cfg, depth);
      if prev.Err? then prev else GroupsStep(prev.value, inserts[k - 1], blocks, layers, cfg, depth)
  }

  /** The drawing fails exactly when some visible INSERT throws; otherwise every
      group comes from a visible INSERT that draws one, and there is at most one
      group per INSERT. */
  lemma {:induction false} GroupsOfMeaning(inserts: seq<InsertRecord>, k: nat, blocks: seq<BlockDef>,
                                           layers: map<string, LayerRecord>, cfg: Config, depth: nat)
    requires k <= |inserts|
    ensures var r := GroupsOf(inserts, k, blocks, layers, cfg, depth);
      && (r.Err? <==> exists i :: 0 <= i < k && !HideEntity(inserts[i].view, layers, cfg)
                                  && InsertSpecOf(inserts[i], blocks, layers, cfg, depth).Err?)
      && (r.Ok? ==> |r.value| <= k)
      && (r.Ok? ==> forall g :: g in r.value ==>
            (exists i :: 0 <= i < k && !HideEntity(inserts[i].view, layers, cfg)
                         && InsertSpecOf(inserts[i], blocks, layers, cfg, depth) == Ok(Some(g))))
  {
    if k > 0 {
      GroupsOfMeaning(inserts, k - 1, blocks, layers, cfg, depth);
      var prev := GroupsOf(inserts, k - 1, blocks, layers, cfg, depth);
      var r := GroupsOf(inserts, k, blocks, layers, cfg, depth);
      var e := inserts[k - 1];
      if prev.Ok? && !HideEntity(e.view, layers, cfg) {
        var g := InsertSpecOf(e, blocks, layers, cfg, depth);
        if g.Ok? && g.value.Some? {
          forall x | x in r.value
            ensures exists i :: 0 <= i < k && !HideEntity(inserts[i].view, layers, cfg)
                                && InsertSpecOf(inserts[i], blocks, layers, cfg, depth) == Ok(Some(x))
          {
            if x !in prev.value {
              assert x == g.value.value;
              assert InsertSpecOf(inserts[k - 1], blocks, layers, cfg, depth) == Ok(Some(x));
            }
          }
        }
      }
    }
  }

  /** Once an INSERT throws, the rest of the loop is not reached. */
  lemma {:induction false} GroupsOfErrStays(inserts: seq<InsertRecord>, k: nat, n: nat, blocks: seq<BlockDef>,
                                            layers: map<string, LayerRecord>, cfg: Config, depth: nat)
    requires k <= n <= |inserts|
    requires GroupsOf(inserts, k, blocks, layers, cfg, depth).Err?
    ensures GroupsOf(inserts, n, blocks, layers, cfg, depth) == GroupsOf(inserts, k, blocks, layers, cfg, depth)
    decreases n - k
  {
    if n > k {
      GroupsOfErrStays(inserts, k, n - 1, blocks, layers, cfg, depth);
    }
  }

  /** `draw(data)` over the drawing's INSERTs: null when there are none; else the
      blocks are attached and every visible INSERT that yields a group adds it. */
  method Draw(inserts: seq<InsertRecord>, c: Cache<Option<InsertGroup>>, blocks: seq<BlockDef>,
              layers: map<string, LayerRecord>, cfg: Config, depth: nat)
    returns (r: Result<Option<seq<InsertGroup>>>)
    requires c.Valid()
    modifies c, set e | e in inserts, set e | e in inserts :: e.tag
    ensures c.Valid()
    ensures |inserts| == 0 <==> r == Ok(None)
    ensures r.Ok? && r.value.Some? ==> |r.value.value| <= |inserts|
    ensures forall i :: 0 <= i < |inserts| ==>
      inserts[i].blockObj == Attached(old(inserts[i].blockObj), blocks, inserts[i].block)
    ensures r.Err? ==> exists i :: 0 <= i < |inserts| && Throws(inserts[i], blocks, layers, cfg, depth)
    ensures !cfg.cache && |inserts| > 0 ==>
      var g := GroupsOf(inserts, |inserts|, blocks, layers, cfg, depth);
      r == (if g.Err? then Err(g.message) else Ok(Some(g.value)))
  {
    if |inserts| == 0 {
      return Ok(None);
    }
    AttachBlocks(inserts, blocks);
    var groups := DrawVisible(inserts, c, blocks, layers, cfg, depth);
    if groups.Err? {
      return Err(groups.message);
    }
    return Ok(Some(groups.value));
  }

  /** One pass of the second loop of `draw`: a visible INSERT is drawn through
      `drawInsert` and a non-null result is added to the groups so far. */
  method DrawStep(e: InsertRecord, acc: seq<InsertGroup>, c: Cache<Option<InsertGroup>>, blocks: seq<BlockDef>,
                  layers: map<string, LayerRecord>, cfg: Config, depth: nat)
    returns (r: Result<seq<InsertGroup>>)
    requires c.Valid()
    modifies c, e.tag
    ensures c.Valid()
    ensures r.Ok? ==> |acc| <= |r.value| <= |acc| + 1 && r.value[..|acc|] == acc
    ensures r.Err? ==> Throws(e, blocks, layers, cfg, depth)
    ensures !cfg.cache ==> r == GroupsStep(acc, e, blocks, layers, cfg, depth)
  {
    if HideEntity(e.view, layers, cfg) {
      return Ok(acc);
    }
    var obj := DrawInsert(e, c, blocks, layers, cfg, depth);
    if obj.Err? {
      return Err(obj.message);
    }
    if obj.value.Some? {
      return Ok(acc + [obj.value.value]);
    }
    return Ok(acc);
  }

  /** The second loop of `draw`: every INSERT in order, until one throws. */
  method DrawVisible(inserts: seq<InsertRecord>, c: Cache<Option<InsertGroup>>, blocks: seq<BlockDef>,
                     layers: map<string, LayerRecord>, cfg: Config, depth: nat)
    returns (r: Result<seq<InsertGroup>>)
    requires c.Valid()
    modifies c, set e | e in inserts :: e.tag
    ensures c.Valid()
    ensures r.Ok? ==> |r.value| <= |inserts|
    ensures r.Err? ==> exists i :: 0 <= i < |inserts| && Throws(inserts[i], blocks, layers, cfg, depth)
    ensures !cfg.cache ==> r == GroupsOf(inserts, |inserts|, blocks, layers, cfg, depth)
  {
    var result: seq<InsertGroup> := [];
    for i := 0 to |inserts|
      invariant c.Valid()
      invariant |result| <= i
      invariant !cfg.cache ==> GroupsOf(inserts, i, blocks, layers, cfg, depth) == Ok(result)
    {
      var next := DrawStep(inserts[i], result, c, blocks, layers, cfg, depth);
      if next.Err? {
        if !cfg.cache {
          GroupsOfErrStays(inserts, i + 1, |inserts|, blocks, layers, cfg, depth);
        }
        return Err(next.message);
      }
      result := next.value;
    }
    return Ok(result);
  }
}
