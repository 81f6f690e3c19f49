/** The viewer object of src/dxfViewer.js: the parsed-file cache keyed by a
    normalised path, the global cache switch `_drawDXF` turns off, the view rotation
    read from the model layout, and the order of steps in `getFromPath`.

    Font loading, fetching and parsing are I/O: their outcomes are parameters. The
    drawers `_drawDXF` calls are the entity modules of this model; here a drawing is
    represented by the data it is drawn from. */
module Viewer {
  import opened Js
  import opened BaseEntity

  /** The characters `_replaceEspecialChars` deletes. */
  predicate Special(c: char)
  {
    c == '/' || c == '.' || c == '_' || c == '-'
  }

  /** `_replaceEspecialChars(str)`: four `replaceAll` calls, each deleting one
      character. */
  function ReplaceSpecialChars(s: string): string
  {
    ReplaceAll(ReplaceAll(ReplaceAll(ReplaceAll(s, "/", ""), ".", ""), "_", ""), "-", "")
  }

  /** The reference definition: the characters of s that are not special, in order. */
  function KeepPlain(s: string): string
  {
    if s == [] then [] else (if Special(s[0]) then [] else [s[0]]) + KeepPlain(s[1..])
  }

  /** The four deletions one after the other. */
  function DeleteFour(s: string): string
  {
    Without(Without(Without(Without(s, '/'), '.'), '_'), '-')
  }

  /** Deleting the four characters one after the other is keeping the plain ones. */
  lemma {:induction false} FourDeletions(s: string)
    ensures DeleteFour(s) == KeepPlain(s)
  {
    if s != [] {
      FourDeletions(s[1..]);
      assert s == [s[0]] + s[1..];
      DeleteFourAppend([s[0]], s[1..]);
      DeleteFourOne(s[0]);
    }
  }

  lemma DeleteFourOne(c: char)
    ensures DeleteFour([c]) == if Special(c) then [] else [c]
  {
    assert [c][1..] == [];
  }

  lemma DeleteFourAppend(a: string, b: string)
    ensures DeleteFour(a + b) == DeleteFour(a) + DeleteFour(b)
  {
    WithoutAppend(a, b, '/');
    WithoutAppend(Without(a, '/'), Without(b, '/'), '.');
    WithoutAppend(Without(Without(a, '/'), '.'), Without(Without(b, '/'), '.'), '_');
    WithoutAppend(Without(Without(Without(a, '/'), '.'), '_'), Without(Without(Without(b, '/'), '.'), '_'), '-');
  }

  /** Deleting a character distributes over concatenation. */
  lemma {:induction false} WithoutAppend(a: string, b: string, d: char)
    ensures Without(a + b, d) == Without(a, d) + Without(b, d)
  {
    if a == [] {
      assert a + b == b;
    } else {
      assert (a + b)[0] == a[0];
      assert (a + b)[1..] == a[1..] + b;
      WithoutAppend(a[1..], b, d);
    }
  }

  /** `_replaceEspecialChars` deletes every '/', '.', '_' and '-' and keeps every
      other character, in order. */
  lemma ReplaceSpecialCharsMeaning(s: string)
    ensures ReplaceSpecialChars(s) == KeepPlain(s)
  {
    var a := ReplaceAll(s, "/", "");
    ReplaceAllDeletes(s, '/');
    assert a == Without(s, '/');
    var b := ReplaceAll(a, ".", "");
    ReplaceAllDeletes(a, '.');
    var c := ReplaceAll(b, "_", "");
    ReplaceAllDeletes(b, '_');
    ReplaceAllDeletes(c, '-');
    FourDeletions(s);
  }

  /** No special character survives, and a plain character occurs in the key as
      often as in the path. */
  lemma {:induction false} KeepPlainCounts(s: string)
    ensures forall i :: 0 <= i < |KeepPlain(s)| ==> !Special(KeepPlain(s)[i])
    ensures forall c :: !Special(c) ==> multiset(KeepPlain(s))[c] == multiset(s)[c]
  {
    if s != [] {
      KeepPlainCounts(s[1..]);
      assert s == [s[0]] + s[1..];
      assert multiset(s) == multiset{s[0]} + multiset(s[1..]);
    }
  }

  /** Keeping the plain characters distributes over concatenation. */
  lemma {:induction false} KeepPlainAppend(a: string, b: string)
    ensures KeepPlain(a + b) == KeepPlain(a) + KeepPlain(b)
  {
    if a != [] {
      assert (a + b)[0] == a[0];
      assert (a + b)[1..] == a[1..] + b;
      KeepPlainAppend(a[1..], b);
    } else {
      assert a + b == b;
    }
  }

  /** A string without special characters is its own key. */
  lemma {:induction false} KeepPlainOfPlain(s: string)
    requires forall i :: 0 <= i < |s| ==> !Special(s[i])
    ensures KeepPlain(s) == s
  {
    if s != [] {
      KeepPlainOfPlain(s[1..]);
    }
  }

  /** Normalising a normalised path changes nothing. */
  lemma ReplaceSpecialCharsIdempotent(s: string)
    ensures ReplaceSpecialChars(ReplaceSpecialChars(s)) == ReplaceSpecialChars(s)
  {
    ReplaceSpecialCharsMeaning(s);
    ReplaceSpecialCharsMeaning(KeepPlain(s));
    KeepPlainCounts(s);
    KeepPlainOfPlain(KeepPlain(s));
  }

  /** Different paths can share a key, and then share a cache entry. */
  lemma KeysCollide()
    ensures "a_b.dxf" != "ab.dxf"
    ensures ReplaceSpecialChars("a_b.dxf") == ReplaceSpecialChars("ab.dxf")
  {
    assert "a_b.dxf"[1] != "ab.dxf"[1];
    ReplaceSpecialCharsMeaning("a_b.dxf");
    ReplaceSpecialCharsMeaning("ab.dxf");
    assert "a_b.dxf" == "a" + "_" + "b" + "." + "dxf";
    assert "ab.dxf" == "a" + "b" + "." + "dxf";
    KeepPlainAppend("a" + "_" + "b" + ".", "dxf");
    KeepPlainAppend("a" + "_" + "b", ".");
    KeepPlainAppend("a" + "_", "b");
    KeepPlainAppend("a", "_");
    KeepPlainAppend("a" + "b" + ".", "dxf");
    KeepPlainAppend("a" + "b", ".");
    KeepPlainAppend("a", "b");
    assert KeepPlain("_") == [];
  }

  /** The cache after a series of `_toCache(path, data)` calls on an empty cache. */
  function CacheAfter<D>(stores: seq<(string, D)>): map<string, D>
  {
    if stores == [] then map[]
    else CacheAfter(stores[..|stores| - 1])[ReplaceSpecialChars(stores[|stores| - 1].0) := stores[|stores| - 1].1]
  }

  /** The last store whose path has the given key. */
  function LastStore<D>(stores: seq<(string, D)>, key: string): (r: Option<nat>)
    ensures r.Some? ==> r.value < |stores| && ReplaceSpecialChars(stores[r.value].0) == key
    ensures r.Some? ==> forall j :: r.value < j < |stores| ==> ReplaceSpecialChars(stores[j].0) != key
    ensures r.None? ==> forall j :: 0 <= j < |stores| ==> ReplaceSpecialChars(stores[j].0) != key
  {
    if stores == [] then None
    else if ReplaceSpecialChars(stores[|stores| - 1].0) == key then Some(|stores| - 1)
    else LastStore(stores[..|stores| - 1], key)
  }

  /** A path reads back the data of the last store under any path with the same
      key, and nothing when no such store happened. */
  lemma {:induction false} LastStoreWins<D>(stores: seq<(string, D)>, path: string)
    ensures var key := ReplaceSpecialChars(path);
      match LastStore(stores, key)
      case None => key !in CacheAfter(stores)
      case Some(i) => key in CacheAfter(stores) && CacheAfter(stores)[key] == stores[i].1
  {
    if stores != [] {
      LastStoreWins(stores[..|stores| - 1], path);
    }
  }

  /** `_drawDXF` on the global cache switch: off for good once a viewer with
      `useCache` false draws. */
  function CacheSwitchAfter(cache: bool, useCache: bool): bool
  {
    if !useCache then false else cache
  }

  /** After a series of draws the switch is on exactly when it was on and every
      drawing viewer had `useCache` set: nothing turns it back on. */
  lemma {:induction false} CacheSwitchNeverRestored(cache: bool, draws: seq<bool>)
    ensures var c := SwitchAfterDraws(cache, draws);
      c <==> cache && forall i :: 0 <= i < |draws| ==> draws[i]
  {
    if draws != [] {
      CacheSwitchNeverRestored(cache, draws[..|draws| - 1]);
    }
  }

  function SwitchAfterDraws(cache: bool, draws: seq<bool>): bool
  {
    if draws == [] then cache
    else CacheSwitchAfter(SwitchAfterDraws(cache, draws[..|draws| - 1]), draws[|draws| - 1])
  }

  /** An entry of `data.objects.layouts`. */
  datatype Layout = Layout(name: string, lastActiveViewport: Option<string>)

  /** An entry of `data.tables.vports`; an undefined handle is `None`. */
  datatype VPort = VPort(handle: Option<string>, angle: real)

  /** The first layout whose name lower-cases to "model". */
  function ModelLayout(layouts: seq<Layout>): (r: Option<nat>)
    ensures r.Some? ==> r.value < |layouts| && AsciiLower(layouts[r.value].name) == "model"
    ensures r.Some? ==> forall j :: 0 <= j < r.value ==> AsciiLower(layouts[j].name) != "model"
    ensures r.None? ==> forall j :: 0 <= j < |layouts| ==> AsciiLower(layouts[j].name) != "model"
  {
    if layouts == [] then None
    else if AsciiLower(layouts[0].name) == "model" then Some(0)
    else
      var r := ModelLayout(layouts[1..]);
      assert forall j :: 1 <= j < |layouts| ==> layouts[j] == layouts[1..][j - 1];
      if r.None? then None else Some(r.value + 1)
  }

  /** A vport that turns the view: the model's last active one, with an angle. */
  predicate Turns(v: VPort, active: Option<string>)
  {
    v.handle == active && v.angle != 0.0
  }

  /** The first vport (in key order) that turns the view. */
  function FirstTurning(vports: seq<VPort>, active: Option<string>): (r: Option<nat>)
    ensures r.Some? ==> r.value < |vports| && Turns(vports[r.value], active)
    ensures r.Some? ==> forall j :: 0 <= j < r.value ==> !Turns(vports[j], active)
    ensures r.None? ==> forall j :: 0 <= j < |vports| ==> !Turns(vports[j], active)
  {
    if vports == [] then None
    else if Turns(vports[0], active) then Some(0)
    else
      var r := FirstTurning(vports[1..], active);
      assert forall j :: 1 <= j < |vports| ==> vports[j] == vports[1..][j - 1];
      if r.None? then None else Some(r.value + 1)
  }

  /** The angle, in degrees, by which `_rotateByView` turns the group about z, if
      it turns it. Missing `objects.layouts` is `None`. */
  function ViewRotation(layouts: Option<seq<Layout>>, vports: seq<VPort>): Option<real>
  {
    if layouts.None? then None
    else
      match ModelLayout(layouts.value)
      case None => None
      case Some(m) =>
        match FirstTurning(vports, layouts.value[m].lastActiveViewport)
        case None => None
        case Some(k) => Some(vports[k].angle)
  }

  /** The view turns exactly when a layout is named "model" in any case and a vport
      carries that layout's last active handle with a non-zero angle; it turns by
      the angle of the first such vport. */
  lemma ViewRotationMeaning(layouts: Option<seq<Layout>>, vports: seq<VPort>)
    ensures ViewRotation(layouts, vports).Some? <==>
      layouts.Some? && ModelLayout(layouts.value).Some? &&
      exists k :: 0 <= k < |vports| && Turns(vports[k], layouts.value[ModelLayout(layouts.value).value].lastActiveViewport)
    ensures ViewRotation(layouts, vports).Some? ==> ViewRotation(layouts, vports).value != 0.0
    ensures ViewRotation(layouts, vports).Some? ==>
      exists k :: 0 <= k < |vports| && ViewRotation(layouts, vports).value == vports[k].angle
        && Turns(vports[k], layouts.value[ModelLayout(layouts.value).value].lastActiveViewport)
        && forall j :: 0 <= j < k ==> !Turns(vports[j], layouts.value[ModelLayout(layouts.value).value].lastActiveViewport)
  {
    if layouts.Some? && ModelLayout(layouts.value).Some? {
      var active := layouts.value[ModelLayout(layouts.value).value].lastActiveViewport;
      var f := FirstTurning(vports, active);
      if f.Some? {
        assert Turns(vports[f.value], active);
      }
    }
  }

  /** The root group of a drawing: the z-rotations applied to it, in degrees. */
  class SceneGroup {
    var turns: seq<real>

    constructor()
      ensures turns == []
    {
      turns := [];
    }
  }

  /** `_rotateByView(group, data)`: finds the model layout, then scans the vports
      and rotates once, at the first vport that turns the view. */
  method RotateByView(group: SceneGroup, layouts: Option<seq<Layout>>, vports: seq<VPort>)
    modifies group
    ensures ViewRotation(layouts, vports).None? ==> group.turns == old(group.turns)
    ensures ViewRotation(layouts, vports).Some? ==> group.turns == old(group.turns) + [ViewRotation(layouts, vports).value]
  {
    if layouts.None? {
      return;
    }
    var model := ModelLayout(layouts.value);
    if model.None? {
      return;
    }
    var active := layouts.value[model.value].lastActiveViewport;
    for i := 0 to |vports|
      invariant forall j :: 0 <= j < i ==> !Turns(vports[j], active)
      invariant group.turns == old(group.turns)
    {
      if vports[i].handle == active && vports[i].angle != 0.0 {
        assert FirstTurning(vports, active) == Some(i);
        group.turns := group.turns + [vports[i].angle];
        return;
      }
    }
  }

  /** What a `getFromPath` promise does: settle with a value or never settle. */
  datatype Settled<T> = Pending | Resolved(value: T)

  /** The fetch of the file: its HTTP status and the data its text parses to. */
  datatype Fetched<D> = Fetched(status: int, data: D)

  /** The step after a fetch in `getFromPath` as written: on a status other than
      200 the executor returns without calling `resolve`. */
  function AfterFetchAsWritten<D>(f: Fetched<D>): (r: Settled<Option<D>>)
    ensures r.Pending? <==> f.status != 200
  {
    if f.status != 200 then Pending else Resolved(Some(f.data))
  }

  /** A failed fetch leaves the promise of `getFromPath` pending for ever. */
  lemma FailedFetchNeverSettles<D>(d: D)
    ensures AfterFetchAsWritten(Fetched(404, d)) == Pending
  {
  }

  /** The step after a fetch as intended: a failed fetch resolves to null, like the
      missing font does. */
  function AfterFetch<D>(f: Fetched<D>): (r: Settled<Option<D>>)
    ensures r.Resolved?
    ensures r.value.None? <==> f.status != 200
    ensures f.status == 200 ==> r.value == Some(f.data)
  {
    if f.status != 200 then Resolved(None) else Resolved(Some(f.data))
  }

  /** The fetch steps agree wherever the code as written settles. */
  lemma AfterFetchAgrees<D>(f: Fetched<D>)
    ensures AfterFetchAsWritten(f).Resolved? ==> AfterFetch(f) == AfterFetchAsWritten(f)
    ensures AfterFetchAsWritten(f).Pending? ==> AfterFetch(f) == Resolved(None)
  {
  }

  /** The global display settings (`Properties`) that `_drawDXF` writes. */
  class Settings {
    var config: Config

    constructor()
      ensures config == Defaults
    {
      config := Defaults;
    }
  }

  /** A `DXFViewer`: D is the parsed data of a file, F a loaded font. */
  class DxfViewer<D, F> {
    /** `_cache`, by normalised path. */
    var cache: map<string, D>
    var useCache: bool
    var font: Option<F>
    /** `_lastDXF`. */
    var lastDxf: Option<D>
    /** Whether `onBeforeTextDraw` is set. */
    var textHook: bool

    constructor()
      ensures cache == map[] && useCache && font.None? && lastDxf.None? && !textHook
    {
      cache := map[];
      useCache := true;
      font := None;
      lastDxf := None;
      textHook := false;
    }

    /** `_toCache(path, data)`. */
    method ToCache(path: string, data: D)
      modifies this
      ensures cache == old(cache)[ReplaceSpecialChars(path) := data]
      ensures useCache == old(useCache) && font == old(font) && lastDxf == old(lastDxf) && textHook == old(textHook)
    {
      cache := cache[ReplaceSpecialChars(path) := data];
    }

    /** `_fromCache(path)`: the entry under the path's key, or null. Parsed data is
        an object, so a stored entry is never falsy. */
    method FromCache(path: string) returns (r: Option<D>)
      ensures r.Some? <==> ReplaceSpecialChars(path) in cache
      ensures r.Some? ==> r.value == cache[ReplaceSpecialChars(path)]
    {
      var key := ReplaceSpecialChars(path);
      if key in cache {
        r := Some(cache[key]);
      } else {
        r := None;
      }
    }

    /** `_loadFont(fontPath)` with `loaded` the loader's outcome (`None` when it
        rejects): a font already loaded is kept. */
    method LoadFont(loaded: Option<F>)
      modifies this
      ensures old(font).Some? ==> font == old(font)
      ensures old(font).None? ==> font == loaded
      ensures cache == old(cache) && useCache == old(useCache) && lastDxf == old(lastDxf) && textHook == old(textHook)
    {
      if font.Some? {
        return;
      }
      font := loaded;
    }

    /** The settings `_drawDXF(data)` leaves before the drawers run: the cache
        switch is turned off when this viewer does not use the cache, and the
        text hook is this viewer's. */
    method DrawSettings(settings: Settings)
      modifies settings
      ensures settings.config == old(settings.config).(cache := CacheSwitchAfter(old(settings.config.cache), useCache),
                                                       textHook := textHook)
    {
      if !useCache {
        settings.config := settings.config.(cache := false);
      }
      settings.config := settings.config.(textHook := textHook);
    }

    /** `_drawDXF(data)` on what it changes outside the drawers: the settings, and
        the new group's rotation from the layouts and vports of the data. */
    method DrawDxf(settings: Settings, layouts: Option<seq<Layout>>, vports: seq<VPort>) returns (group: SceneGroup)
      modifies settings
      ensures fresh(group)
      ensures settings.config == old(settings.config).(cache := CacheSwitchAfter(old(settings.config.cache), useCache),
                                                       textHook := textHook)
      ensures group.turns == (if ViewRotation(layouts, vports).Some? then [ViewRotation(layouts, vports).value] else [])
    {
      group := new SceneGroup();
      DrawSettings(settings);
      RotateByView(group, layouts, vports);
    }

    /** `getFromPath(path, fontPath)` with the font loader's outcome and the fetch
        as parameters; a drawing is represented by the data drawn. Without a font
        it resolves to null; a cache hit draws the cached data; otherwise the
        fetched data is cached, remembered and drawn. On a status other than 200
        this is the corrected step `AfterFetch`, which resolves to null; the code
        as written never settles there (`AfterFetchAsWritten`). */
    method GetFromPath(path: string, loaded: Option<F>, fetched: Fetched<D>) returns (r: Settled<Option<D>>)
      modifies this
      ensures font == (if old(font).Some? then old(font) else loaded)
      ensures r.Resolved?
      ensures font.None? ==> r == Resolved(None) && cache == old(cache) && lastDxf == old(lastDxf)
      ensures font.Some? && ReplaceSpecialChars(path) in old(cache) ==>
        r == Resolved(Some(old(cache)[ReplaceSpecialChars(path)])) && cache == old(cache) && lastDxf == old(lastDxf)
      ensures font.Some? && ReplaceSpecialChars(path) !in old(cache) ==>
        r == AfterFetch(fetched)
        && (fetched.status == 200 ==> cache == old(cache)[ReplaceSpecialChars(path) := fetched.data] && lastDxf == Some(fetched.data))
        && (fetched.status != 200 ==> cache == old(cache) && lastDxf == old(lastDxf))
      ensures useCache == old(useCache) && textHook == old(textHook)
    {
      LoadFont(loaded);
      if font.None? {
        return Resolved(None);
      }
      var cached := FromCache(path);
      if cached.Some? {
        return Resolved(Some(cached.value));
      }
      if fetched.status != 200 {
        return Resolved(None);
      }
      ToCache(path, fetched.data);
      lastDxf := Some(fetched.data);
      return Resolved(Some(fetched.data));
    }
  }
}
