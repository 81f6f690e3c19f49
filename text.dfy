/** TEXT, MTEXT and ATTRIB entities (src/entities/textEntity.js): which record an
    ATTRIB draws, the text height, how the formatted runs of the MTEXT parser are
    flattened into one string, the scale factors, the attachment-point offsets,
    the special-character substitutions and the cache rule. The MTEXT parser, the
    font shaper and the bounding-box computation of three.js are not part of this
    model: their results are inputs here. */
module TextEntity {
  import opened Js
  import opened BaseEntity
  import opened BaseCache

  // ---------------------------------------------------------------- ATTRIB dispatch

  /** A text record. An ATTRIB carries an `mtext` and a `text` part; any other
      record is drawn itself, and `keys` is the number of its own properties. */
  datatype TextRecord =
    | Attrib(mtext: Part, text: Part)
    | Drawable(keys: nat, kind: string)

  /** A property that holds a record or is undefined. */
  datatype Part = Undefined | Present(record: TextRecord)

  /** `Object.keys(record).length`: an ATTRIB has at least its type and parts. */
  function KeyCount(r: TextRecord): nat
  {
    match r
    case Attrib(_, _) => 3
    case Drawable(k, _) => k
  }

  /** The record `drawText` ends up drawing: an ATTRIB draws its `mtext` when that
      object has properties and its `text` otherwise. `Object.keys(undefined)` and
      reading the type of an undefined `text` both throw. */
  function Resolve(r: TextRecord): (d: Result<TextRecord>)
    ensures d.Ok? ==> d.value.Drawable?
    ensures r.Drawable? ==> d == Ok(r)
  {
    match r
    case Drawable(_, _) => Ok(r)
    case Attrib(m, t) =>
      if m.Undefined? then Err("TypeError")
      else if KeyCount(m.record) != 0 then Resolve(m.record)
      else if t.Undefined? then Err("TypeError")
      else Resolve(t.record)
  }

  /** An ATTRIB with a non-empty `mtext` draws what that record draws, and its
      `text` is not read; with an empty `mtext` it draws what its `text` draws. */
  lemma AttribDispatch(m: TextRecord, t: Part)
    ensures KeyCount(m) != 0 ==> Resolve(Attrib(Present(m), t)) == Resolve(m)
    ensures KeyCount(m) == 0 && t.Present? ==> Resolve(Attrib(Present(m), t)) == Resolve(t.record)
    ensures Resolve(Attrib(Undefined, t)).Err?
  {
  }

  // ---------------------------------------------------------------- height and scale

  /** `_getTextHeight(entity)`: the nominal height if defined, else the text height
      if defined, else 12. */
  function TextHeight(nominalTextHeight: Option<real>, textHeight: Option<real>): (h: real)
    ensures nominalTextHeight.Some? ==> h == nominalTextHeight.value
    ensures nominalTextHeight.None? && textHeight.Some? ==> h == textHeight.value
    ensures nominalTextHeight.None? && textHeight.None? ==> h == 12.0
  {
    if nominalTextHeight.Some? then nominalTextHeight.value
    else if textHeight.Some? then textHeight.value
    else 12.0
  }

  /** One factor of `_scaleText`: `target / size` when the target is defined, else
      1. `None` is the non-finite factor of a zero size (Infinity or NaN). */
  function ScaleFactor(target: Option<real>, size: real): (f: Option<real>)
    ensures target.None? ==> f == Some(1.0)
    ensures target.Some? ==> (f.None? <==> size == 0.0)
  {
    if target.None? then Some(1.0)
    else if size == 0.0 then None
    else Some(target.value / size)
  }

  /** Scaling by the factor brings a non-empty extent to the requested size. */
  lemma ScaleFactorReachesTarget(target: real, size: real)
    requires size != 0.0
    ensures ScaleFactor(Some(target), size).Some?
    ensures size * ScaleFactor(Some(target), size).value == target
  {
  }

  // ---------------------------------------------------------------- text strings

  datatype ContentKind = Paragraph | ParagraphAlignment | OtherKind

  /** A run of the MTEXT parser's output: its type and its `content`, which is a
      string, an array of nested runs, or something else. */
  datatype Content = Content(kind: ContentKind, body: Body)
  datatype Body = Text(s: string) | Group(runs: seq<Content>) | NoText

  /** An element of the array `getContent` returns: a string or a nested array. */
  datatype Piece = Str(s: string) | List(items: seq<Piece>)

  /** What `getContent` pushes for one run: a newline for a paragraph marker, then
      the string, or the array built from the nested runs. */
  function RunPieces(c: Content): seq<Piece>
    decreases c, 1
  {
    (if c.kind == Paragraph || c.kind == ParagraphAlignment then [Str("\n")] else [])
    + (match c.body
       case Text(s) => [Str(s)]
       case Group(runs) => [List(ContentPieces(runs))]
       case NoText => [])
  }

  /** `getContent(entities)` as a value. */
  function ContentPieces(cs: seq<Content>): seq<Piece>
    decreases cs, 0
  {
    if cs == [] then [] else ContentPieces(cs[..|cs| - 1]) + RunPieces(cs[|cs| - 1])
  }

  /** `getContent(entities)`: one pass over the runs, recursing into nested arrays. */
  method GetContent(cs: seq<Content>) returns (strs: seq<Piece>)
    ensures strs == ContentPieces(cs)
    decreases cs, 0
  {
    strs := [];
    for i := 0 to |cs|
      invariant strs == ContentPieces(cs[..i])
    {
      assert cs[..i + 1][..i] == cs[..i];
      var pushed := PushRun(cs[i]);
      strs := strs + pushed;
    }
    assert cs[..|cs|] == cs;
  }

  /** The body of the `getContent` loop for one run. */
  method PushRun(c: Content) returns (pushed: seq<Piece>)
    ensures pushed == RunPieces(c)
    decreases c, 1
  {
    pushed := [];
    if c.kind == Paragraph || c.kind == ParagraphAlignment {
      pushed := pushed + [Str("\n")];
    }
    match c.body {
      case Text(s) =>
        pushed := pushed + [Str(s)];
      case Group(runs) =>
        var temp := GetContent(runs);
        pushed := pushed + [List(temp)];
      case NoText =>
    }
  }

  /** `Array.prototype.join(sep)`: each element as a string, separated by `sep`. */
  function Join(ps: seq<Piece>, sep: string): string
    decreases ps, 1
  {
    if ps == [] then ""
    else if |ps| == 1 then PieceString(ps[0])
    else Join(ps[..|ps| - 1], sep) + sep + PieceString(ps[|ps| - 1])
  }

  /** String conversion of an element: a nested array converts with `join(',')`. */
  function PieceString(p: Piece): string
    decreases p, 0
  {
    match p
    case Str(s) => s
    case List(items) => Join(items, ",")
  }

  /** `strings.join('')` in `_getTextGeometry`, on the result of `_getTextStrings`. */
  function TextAsWritten(cs: seq<Content>): string
  {
    Join(ContentPieces(cs), "")
  }

  /** The evidently intended text: every string of every run, nested or not, and a
      newline for each paragraph marker, in document order, with nothing between. */
  function RunText(c: Content): string
    decreases c, 1
  {
    (if c.kind == Paragraph || c.kind == ParagraphAlignment then "\n" else "")
    + (match c.body
       case Text(s) => s
       case Group(runs) => FlatText(runs)
       case NoText => "")
  }

  function FlatText(cs: seq<Content>): string
    decreases cs, 0
  {
    if cs == [] then "" else FlatText(cs[..|cs| - 1]) + RunText(cs[|cs| - 1])
  }

  /** A plain run holding the string s. */
  function Run(s: string): Content
  {
    Content(OtherKind, Text(s))
  }

  /** Two plain runs give two strings, and their concatenation as intended text. */
  lemma TwoRuns(x: string, y: string)
    ensures ContentPieces([Run(x), Run(y)]) == [Str(x), Str(y)]
    ensures FlatText([Run(x), Run(y)]) == x + y
  {
    var cs := [Run(x), Run(y)];
    assert cs[..1] == [Run(x)];
    OneRun(x);
    OneRun(y);
    assert ContentPieces(cs) == ContentPieces([Run(x)]) + RunPieces(Run(y));
    assert FlatText(cs) == FlatText([Run(x)]) + RunText(Run(y));
  }

  lemma OneRun(x: string)
    ensures RunPieces(Run(x)) == [Str(x)] && RunText(Run(x)) == x
    ensures ContentPieces([Run(x)]) == [Str(x)] && FlatText([Run(x)]) == x
  {
    assert [Run(x)][..0] == [];
    assert RunPieces(Run(x)) == [] + [Str(x)];
    assert RunText(Run(x)) == "" + x;
    assert ContentPieces([Run(x)]) == ContentPieces([]) + RunPieces(Run(x));
    assert FlatText([Run(x)]) == FlatText([]) + RunText(Run(x));
  }

  /** A nested group `{b}{c}` after `a` comes out as "ab,c": the nested array is
      converted with commas. The intended text is "abc". */
  lemma NestedRunsGetCommas()
    ensures TextAsWritten([Run("a"), Content(OtherKind, Group([Run("b"), Run("c")]))]) == "ab,c"
    ensures FlatText([Run("a"), Content(OtherKind, Group([Run("b"), Run("c")]))]) == "abc"
  {
    var g := Content(OtherKind, Group([Run("b"), Run("c")]));
    var cs := [Run("a"), g];
    TwoRuns("b", "c");
    var bc := [Str("b"), Str("c")];
    assert bc[..1] == [Str("b")];
    assert Join(bc, ",") == "b,c";
    assert RunPieces(g) == [List(bc)];
    assert cs[..1] == [Run("a")];
    assert [Run("a")][..0] == [];
    assert ContentPieces([Run("a")]) == [Str("a")];
    var ps := ContentPieces(cs);
    assert ps == [Str("a"), List(bc)];
    assert ps[..1] == [Str("a")];
    assert Join(ps, "") == "a" + "" + "b,c";
    assert RunText(g) == "bc";
    assert FlatText([Run("a")]) == "a";
  }

  /** Runs without nested arrays. */
  predicate Flat(cs: seq<Content>)
  {
    forall i :: 0 <= i < |cs| ==> !cs[i].body.Group?
  }

  /** Joining with "" concatenates: the join of a longer array extends the join of
      its prefix by the last element's string. */
  lemma JoinEmptySnoc(ps: seq<Piece>, p: Piece)
    ensures Join(ps + [p], "") == Join(ps, "") + PieceString(p)
  {
    var qs := ps + [p];
    assert qs[..|qs| - 1] == ps;
  }

  lemma {:induction false} JoinEmptyAppend(ps: seq<Piece>, qs: seq<Piece>)
    ensures Join(ps + qs, "") == Join(ps, "") + Join(qs, "")
    decreases |qs|
  {
    if qs == [] {
      assert ps + qs == ps;
    } else {
      var last := qs[|qs| - 1];
      var init := qs[..|qs| - 1];
      assert qs == init + [last];
      assert ps + qs == (ps + init) + [last];
      JoinEmptyAppend(ps, init);
      JoinEmptySnoc(ps + init, last);
      JoinEmptySnoc(init, last);
    }
  }

  /** Without nested arrays the written code produces the intended text. */
  lemma {:induction false} FlatRunsAgree(cs: seq<Content>)
    requires Flat(cs)
    ensures TextAsWritten(cs) == FlatText(cs)
  {
    if cs != [] {
      var init := cs[..|cs| - 1];
      var c := cs[|cs| - 1];
      assert Flat(init);
      FlatRunsAgree(init);
      JoinEmptyAppend(ContentPieces(init), RunPieces(c));
      var nl: seq<Piece> := if c.kind == Paragraph || c.kind == ParagraphAlignment then [Str("\n")] else [];
      var body: seq<Piece> := match c.body case Text(s) => [Str(s)] case Group(_) => [] case NoText => [];
      assert RunPieces(c) == nl + body;
      JoinEmptyAppend(nl, body);
      if nl != [] { assert Join(nl, "") == "\n"; }
      if c.body.Text? { assert Join(body, "") == c.body.s; }
    }
  }

  /** `_getTextStrings` followed by the join, corrected: nested arrays are
      flattened before joining, so the result is the intended text. */
  method GetTextString(cs: seq<Content>) returns (text: string)
    ensures text == FlatText(cs)
    decreases cs, 0
  {
    text := "";
    for i := 0 to |cs|
      invariant text == FlatText(cs[..i])
    {
      assert cs[..i + 1][..i] == cs[..i];
      var piece := GetRunText(cs[i]);
      text := text + piece;
    }
    assert cs[..|cs|] == cs;
  }

  /** The text of one run, nested groups included. */
  method GetRunText(c: Content) returns (text: string)
    ensures text == RunText(c)
    decreases c, 1
  {
    text := if c.kind == Paragraph || c.kind == ParagraphAlignment then "\n" else "";
    match c.body {
      case Text(s) =>
        text := text + s;
      case Group(runs) =>
        var inner := GetTextString(runs);
        text := text + inner;
      case NoText =>
    }
  }

  // ---------------------------------------------------------------- attachment point

  datatype Box = Box(minX: real, minY: real, minZ: real, maxX: real, maxY: real, maxZ: real)

  datatype Offset = Offset(dx: real, dy: real, dz: real)

  /** The horizontal part of attachment points 1..9: left, centre, right. */
  function AnchorX(ap: int, b: Box, cx: real): real
  {
    if ap % 3 == 1 then cx - b.minX
    else if ap % 3 == 2 then cx - (b.minX + (b.maxX - b.minX) / 2.0)
    else cx - b.maxX
  }

  /** `_translateCenter(geometry, entity, center)` as written: no translation for a
      falsy or unknown attachment point; for 8 and 9 the y offset is the box's
      bottom itself rather than its distance to the centre. */
  function TranslateCenterAsWritten(ap: Option<int>, b: Box, cx: real, cy: real): (t: Option<Offset>)
    ensures t.Some? <==> ap.Some? && 1 <= ap.value <= 9
  {
    if ap.None? || !(1 <= ap.value <= 9) then None
    else
      var a := ap.value;
      var dy := if a <= 3 then cy - b.maxY
                else if a <= 6 then cy - (b.minY + (b.maxY - b.minY) / 2.0)
                else if a == 7 then cy - b.minY
                else b.minY;
      Some(Offset(AnchorX(a, b, cx), dy, -0.5 * (b.maxZ - b.minZ)))
  }

  /** The offsets with the bottom row anchored like the others. */
  function TranslateCenter(ap: Option<int>, b: Box, cx: real, cy: real): (t: Option<Offset>)
    ensures t.Some? <==> ap.Some? && 1 <= ap.value <= 9
  {
    if ap.None? || !(1 <= ap.value <= 9) then None
    else
      var a := ap.value;
      var dy := if a <= 3 then cy - b.maxY
                else if a <= 6 then cy - (b.minY + (b.maxY - b.minY) / 2.0)
                else cy - b.minY;
      Some(Offset(AnchorX(a, b, cx), dy, -0.5 * (b.maxZ - b.minZ)))
  }

  /** The box point an attachment point names: left/centre/right by column,
      top/middle/bottom by row. */
  function AnchorOf(ap: int, b: Box): (real, real)
    requires 1 <= ap <= 9
  {
    var x := if ap % 3 == 1 then b.minX else if ap % 3 == 2 then b.minX + (b.maxX - b.minX) / 2.0 else b.maxX;
    var y := if ap <= 3 then b.maxY else if ap <= 6 then b.minY + (b.maxY - b.minY) / 2.0 else b.minY;
    (x, y)
  }

  /** After the corrected translation the named point of the box lands on the
      insertion point, for every attachment point. */
  lemma TranslateCenterAnchors(ap: int, b: Box, cx: real, cy: real)
    requires 1 <= ap <= 9
    ensures var t := TranslateCenter(Some(ap), b, cx, cy).value;
      AnchorOf(ap, b).0 + t.dx == cx && AnchorOf(ap, b).1 + t.dy == cy
  {
  }

  /** As written, for attachment points 1..7 the same holds, but a bottom-centre
      text whose box starts at y = 10 under an insertion point at y = 10 moves up
      to 20. */
  lemma TranslateCenterBottomAsWritten()
    ensures forall ap, b, cx, cy :: 1 <= ap <= 7 ==>
      TranslateCenterAsWritten(Some(ap), b, cx, cy) == TranslateCenter(Some(ap), b, cx, cy)
    ensures var b := Box(0.0, 10.0, 0.0, 5.0, 12.0, 0.0);
      AnchorOf(8, b).1 + TranslateCenterAsWritten(Some(8), b, 2.5, 10.0).value.dy == 20.0
  {
  }

  // ---------------------------------------------------------------- special characters

  /** `_replaceSpecialChars(str)`: paragraph and column codes become newlines, the
      degree, plus-minus and diameter codes their signs, and `%%%` a percent sign. */
  function ReplaceSpecialChars(s: string): (r: string)
    ensures |r| <= |s|
  {
    var r1 := ReplaceAll(s, "\\P", "\n");
    var r2 := ReplaceAll(r1, "\\X", "\n");
    var r3 := ReplaceAll(r2, "%%d", "°");
    var r4 := ReplaceAll(r3, "%%p", "±");
    var r5 := ReplaceAll(r4, "%%c", "∅");
    ReplaceAllNotLonger(s, "\\P", "\n");
    ReplaceAllNotLonger(r1, "\\X", "\n");
    ReplaceAllNotLonger(r2, "%%d", "°");
    ReplaceAllNotLonger(r3, "%%p", "±");
    ReplaceAllNotLonger(r4, "%%c", "∅");
    ReplaceAllNotLonger(r5, "%%%", "%");
    ReplaceAll(r5, "%%%", "%")
  }

  /** A string without backslashes and percent signs is left alone. */
  lemma PlainTextUnchanged(s: string)
    requires '\\' !in s && '%' !in s
    ensures ReplaceSpecialChars(s) == s
  {
    ReplaceAllAbsent(s, "\\P", "\n");
    ReplaceAllAbsent(s, "\\X", "\n");
    ReplaceAllAbsent(s, "%%d", "°");
    ReplaceAllAbsent(s, "%%p", "±");
    ReplaceAllAbsent(s, "%%c", "∅");
    ReplaceAllAbsent(s, "%%%", "%");
  }

  /** No paragraph or column code survives: the later substitutions only put in
      characters foreign to those codes. */
  lemma NoBreakCodesLeft(s: string)
    ensures !Contains(ReplaceSpecialChars(s), "\\P") && !Contains(ReplaceSpecialChars(s), "\\X")
  {
    var r1 := ReplaceAll(s, "\\P", "\n");
    var r2 := ReplaceAll(r1, "\\X", "\n");
    var r3 := ReplaceAll(r2, "%%d", "°");
    var r4 := ReplaceAll(r3, "%%p", "±");
    var r5 := ReplaceAll(r4, "%%c", "∅");
    NoNewOccurrence(s, "\\P", "\\P", '\n');
    NoNewOccurrence(r1, "\\P", "\\X", '\n');
    NoNewOccurrence(r1, "\\X", "\\X", '\n');
    NoNewOccurrence(r2, "\\P", "%%d", '°');
    NoNewOccurrence(r2, "\\X", "%%d", '°');
    NoNewOccurrence(r3, "\\P", "%%p", '±');
    NoNewOccurrence(r3, "\\X", "%%p", '±');
    NoNewOccurrence(r4, "\\P", "%%c", '∅');
    NoNewOccurrence(r4, "\\X", "%%c", '∅');
    NoNewOccurrence(r5, "\\P", "%%%", '%');
    NoNewOccurrence(r5, "\\X", "%%%", '%');
  }

  /** A pattern whose first character is missing is never replaced. */
  lemma {:induction false} ReplaceAllAbsent(s: string, pat: string, rep: string)
    requires |pat| > 0 && pat[0] !in s
    ensures ReplaceAll(s, pat, rep) == s
    decreases |s|
  {
    if |s| >= |pat| {
      assert s[..|pat|][0] == s[0];
      ReplaceAllAbsent(s[1..], pat, rep);
    }
  }

  /** A prefix of the output either copies the input or holds the replacement. */
  lemma {:induction false} ReplaceAllPrefix(t: string, pat: string, c: char, m: nat)
    requires |pat| > 0 && m <= |ReplaceAll(t, pat, [c])|
    ensures c in ReplaceAll(t, pat, [c])[..m] || (m <= |t| && ReplaceAll(t, pat, [c])[..m] == t[..m])
    decreases |t|
  {
    var r := ReplaceAll(t, pat, [c]);
    if |t| < |pat| || m == 0 {
    } else if t[..|pat|] == pat {
      assert r[..m][0] == c;
    } else {
      var r1 := ReplaceAll(t[1..], pat, [c]);
      assert r == [t[0]] + r1;
      ReplaceAllPrefix(t[1..], pat, c, m - 1);
      assert r[..m] == [t[0]] + r1[..m - 1];
      if c in r1[..m - 1] {
        assert c in r[..m];
      } else {
        assert t[..m] == [t[0]] + t[1..][..m - 1];
      }
    }
  }

  lemma {:induction false} NotContainsSuffix(s: string, pat: string, k: nat)
    requires k <= |s| && !Contains(s, pat)
    ensures !Contains(s[k..], pat)
    decreases k
  {
    if k > 0 {
      NotContainsSuffix(s, pat, k - 1);
      if |pat| <= |s[k - 1..]| {
        assert s[k - 1..][1..] == s[k..];
      } else {
        assert |pat| > |s[k..]|;
      }
    }
  }

  /** Replacing `pat2` by a character foreign to `pat1` creates no occurrence of
      `pat1`, and leaves none of `pat1` when `pat1` is `pat2` itself. */
  lemma {:induction false} NoNewOccurrence(s: string, pat1: string, pat2: string, c: char)
    requires |pat1| > 0 && |pat2| > 0 && c !in pat1
    requires pat1 == pat2 || !Contains(s, pat1)
    ensures !Contains(ReplaceAll(s, pat2, [c]), pat1)
    decreases |s|
  {
    var r := ReplaceAll(s, pat2, [c]);
    if |s| < |pat2| {
    } else if s[..|pat2|] == pat2 {
      var rest := s[|pat2|..];
      if pat1 != pat2 { NotContainsSuffix(s, pat1, |pat2|); }
      NoNewOccurrence(rest, pat1, pat2, c);
      assert r == [c] + ReplaceAll(rest, pat2, [c]);
      if |pat1| <= |r| {
        assert r[..|pat1|][0] == c;
        assert r[1..] == ReplaceAll(rest, pat2, [c]);
      }
    } else {
      var s1 := s[1..];
      var r1 := ReplaceAll(s1, pat2, [c]);
      assert r == [s[0]] + r1;
      if pat1 != pat2 { NotContainsSuffix(s, pat1, 1); }
      NoNewOccurrence(s1, pat1, pat2, c);
      if |pat1| <= |r| {
        assert r[1..] == r1;
        var m := |pat1| - 1;
        ReplaceAllPrefix(s1, pat2, c, m);
        assert r[..|pat1|] == [s[0]] + r1[..m];
        if c in r1[..m] {
          assert c in r[..|pat1|];
          assert r[..|pat1|] != pat1;
        } else {
          assert r[..|pat1|] == s[..|pat1|];
          if pat1 == pat2 {
          } else {
            assert s[..|pat1|] != pat1;
          }
        }
      }
    }
  }

  // ---------------------------------------------------------------- cache rule

  /** The cache rule of `draw`: a cached drawing is reused, and a new one is stored
      only when no `onBeforeTextDraw` hook is set, since the hook may change the
      text from one draw to the next. */
  method DrawCached<M>(c: Cache<M>, e: CachedEntity, cfg: Config, drawn: M) returns (m: M)
    requires c.Valid()
    modifies c, e
    ensures c.Valid()
    ensures old(c.GetCached(e, cfg.cache)).Some? ==> m == old(c.GetCached(e, cfg.cache)).value
    ensures old(c.GetCached(e, cfg.cache)).Some? || cfg.textHook ==>
      c.store == old(c.store) && c.index == old(c.index) && e.stamp == old(e.stamp)
    ensures old(c.GetCached(e, cfg.cache)).None? ==> m == drawn
    ensures old(c.GetCached(e, cfg.cache)).None? && !cfg.textHook ==>
      c.store == old(c.store)[CacheKey(old(c.index)) := drawn] && e.stamp == Some(CacheKey(old(c.index)))
  {
    var cached := c.GetCached(e, cfg.cache);
    if cached.Some? {
      return cached.value;
    }
    m := drawn;
    if !cfg.textHook {
      c.SetCache(e, drawn);
    }
  }
}
