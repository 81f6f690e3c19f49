/** The embedded-preview sniffer of OLE2FRAME entities
    (src/entities/ole2FrameCFBHelpers.js). Given the decoded payload, it looks
    for a compound-file header ([MS-CFB] section 2.2), and inside such a
    container scans for the first JPEG, GIF, BMP, WMF, PNG, EMF or DIB image
    and returns its byte range.

    Each scanner is a method with the source's loop, proved equal to a
    recursive specification function; the lemmas state what those functions
    promise: the result is a slice of the buffer with the format's markers at
    its ends. */
module Ole2FrameCfb {
  import opened Js
  import opened Bytes

  datatype Preview = Preview(kind: string, start: int, end: int, content: seq<byte>)

  /** A preview is a non-empty slice `[start, end)` of the buffer it was found in. */
  predicate SliceOf(p: Preview, b: seq<byte>)
  {
    0 <= p.start < p.end <= |b| && p.content == b[p.start..p.end]
  }

  function MakePreview(kind: string, b: seq<byte>, start: int, end: int): (p: Preview)
    requires 0 <= start < end <= |b|
    ensures SliceOf(p, b) && p.kind == kind && p.start == start && p.end == end
  {
    Preview(kind, start, end, b[start..end])
  }

  const CfbSig: seq<byte> := [0xD0, 0xCF, 0x11, 0xE0, 0xA1, 0xB1, 0x1A, 0xE1]
  const PngSig: seq<byte> := [0x89, 0x50, 0x4E, 0x47, 0x0D, 0x0A, 0x1A, 0x0A]
  const JpegSoi: seq<byte> := [0xFF, 0xD8, 0xFF]
  const Gif89a: seq<byte> := [0x47, 0x49, 0x46, 0x38, 0x39, 0x61]
  const Gif87a: seq<byte> := [0x47, 0x49, 0x46, 0x38, 0x37, 0x61]
  const BmpMagic: seq<byte> := [0x42, 0x4D]
  const WmfKey: seq<byte> := [0xD7, 0xCD, 0xC6, 0x9A]

  /** `_isCFB`: the eight header bytes compared one by one. */
  function IsCfb(bytes: seq<byte>): (r: bool)
    ensures r <==> MatchAt(bytes, CfbSig, 0)
  {
    && |bytes| >= 8
    && bytes[0] == CfbSig[0] && bytes[1] == CfbSig[1] && bytes[2] == CfbSig[2] && bytes[3] == CfbSig[3]
    && bytes[4] == CfbSig[4] && bytes[5] == CfbSig[5] && bytes[6] == CfbSig[6] && bytes[7] == CfbSig[7]
  }

  // ---------------------------------------------------------------- PNG

  /** One step of the PNG chunk walk at offset `p`, reading the chunk length as the
      source does (`_readU32BE`, signed). Kept to state the findings below; the
      model's walk uses `PngStepAt`. */
  datatype ChunkStep = Overrun | Iend(next: int) | Advance(next: int)

  predicate IsIendTag(b: seq<byte>, p: int)
    requires 0 <= p && p + 8 <= |b|
  {
    b[p + 4] == 0x49 && b[p + 5] == 0x45 && b[p + 6] == 0x4E && b[p + 7] == 0x44
  }

  function PngStepAsWritten(b: seq<byte>, p: int): ChunkStep
    requires 0 <= p
  {
    if p + 12 > |b| then Overrun
    else
      var next := p + 12 + ReadU32BE(b, p);
      if next > |b| then Overrun
      else if IsIendTag(b, p) then Iend(next)
      else Advance(next)
  }

  /** The same step with the chunk length read unsigned, as W3C PNG section 5.3 defines it. */
  function PngStepAt(b: seq<byte>, p: int): (r: ChunkStep)
    requires 0 <= p
    ensures r.Iend? || r.Advance? ==> p + 12 <= r.next <= |b|
  {
    if p + 12 > |b| then Overrun
    else
      var next := p + 12 + U32BE(b, p);
      if next > |b| then Overrun
      else if IsIendTag(b, p) then Iend(next)
      else Advance(next)
  }

  /** The chunk walk from `p`: the end of the first IEND chunk, or -1. */
  function PngEndFrom(b: seq<byte>, p: nat): (e: int)
    ensures e == -1 || p + 12 <= e <= |b|
    decreases |b| - p
  {
    match PngStepAt(b, p)
    case Overrun => -1
    case Iend(next) => next
    case Advance(next) => PngEndFrom(b, next)
  }

  function PngSpec(b: seq<byte>): Option<Preview>
  {
    var s := IndexOf(b, PngSig);
    if s < 0 then None
    else
      var e := PngEndFrom(b, s + 8);
      if e < 0 then None else Some(MakePreview("image/png", b, s, e))
  }

  /** `_findPng`: the `p = next` walk, with chunk lengths read unsigned (see Findings). */
  method FindPng(b: seq<byte>) returns (r: Option<Preview>)
    ensures r == PngSpec(b)
  {
    var s := IndexOfSeq(b, PngSig);
    if s < 0 { return None; }
    var p := s + 8;
    while p + 12 <= |b|
      invariant p >= s + 8
      invariant PngEndFrom(b, s + 8) == PngEndFrom(b, p)
      decreases |b| - p
    {
      var len := U32BE(b, p);
      var next := p + 12 + len;
      if next > |b| { break; }
      if IsIendTag(b, p) {
        return Some(Preview("image/png", s, next, b[s..next]));
      }
      p := next;
    }
    return None;
  }

  /** A PNG preview starts at the first signature and its walk ends within the buffer. */
  lemma PngPreviewShape(b: seq<byte>)
    requires PngSpec(b).Some?
    ensures var p := PngSpec(b).value;
      SliceOf(p, b) && p.kind == "image/png" && p.start == IndexOf(b, PngSig)
      && p.content[..8] == PngSig && p.end >= p.start + 20
  {
    IndexOfIsLeast(b, PngSig);
  }

  /** The walk returns the end just past the first IEND chunk it reaches: a chunk
      that would overrun the buffer, before any IEND, ends the search with none. */
  lemma {:induction false} PngWalkStopsAtFirstIend(b: seq<byte>, p: nat)
    ensures PngStepAt(b, p).Iend? ==> PngEndFrom(b, p) == PngStepAt(b, p).next
    ensures PngStepAt(b, p).Overrun? ==> PngEndFrom(b, p) == -1
    ensures PngStepAt(b, p).Advance? ==> PngEndFrom(b, p) == PngEndFrom(b, PngStepAt(b, p).next)
    ensures p + 12 > |b| ==> PngEndFrom(b, p) == -1
  {
  }

  // ---------------------------------------------------------------- JPEG

  /** The first EOI marker (FF D9) starting at or after `i`, or -1. */
  function EoiFrom(b: seq<byte>, i: nat): (k: int)
    ensures k == -1 || (i <= k && k + 1 < |b| && b[k] == 0xFF && b[k + 1] == 0xD9)
    decreases |b| - i
  {
    if i + 1 >= |b| then -1
    else if b[i] == 0xFF && b[i + 1] == 0xD9 then i
    else EoiFrom(b, i + 1)
  }

  function JpegSpec(b: seq<byte>): Option<Preview>
  {
    var s := IndexOf(b, JpegSoi);
    if s < 0 then None
    else
      var k := EoiFrom(b, s + 2);
      if k < 0 then None else Some(MakePreview("image/jpeg", b, s, k + 2))
  }

  method FindJpeg(b: seq<byte>) returns (r: Option<Preview>)
    ensures r == JpegSpec(b)
  {
    var s := IndexOfSeq(b, JpegSoi);
    if s < 0 { return None; }
    var i := s + 2;
    while i < |b| - 1
      invariant i >= s + 2
      invariant EoiFrom(b, s + 2) == EoiFrom(b, i)
      decreases |b| - i
    {
      if b[i] == 0xFF && b[i + 1] == 0xD9 {
        var end := i + 2;
        return Some(Preview("image/jpeg", s, end, b[s..end]));
      }
      i := i + 1;
    }
    return None;
  }

  /** A JPEG preview runs from the first SOI marker to the first EOI marker after it
      (ITU-T T.81 Table B.1), inclusive. */
  lemma {:induction false} JpegPreviewShape(b: seq<byte>)
    requires JpegSpec(b).Some?
    ensures var p := JpegSpec(b).value;
      SliceOf(p, b) && p.kind == "image/jpeg" && p.start == IndexOf(b, JpegSoi)
      && p.content[..3] == JpegSoi && p.content[|p.content| - 2..] == [0xFF, 0xD9]
  {
    IndexOfIsLeast(b, JpegSoi);
    var p := JpegSpec(b).value;
    assert p.content[|p.content| - 2..] == b[p.end - 2..p.end];
  }

  // ---------------------------------------------------------------- GIF

  /** The first trailer byte 0x3B (GIF89a section 27) at or after `i`, or -1. */
  function TrailerFrom(b: seq<byte>, i: nat): (k: int)
    ensures k == -1 || (i <= k < |b| && b[k] == 0x3B)
    decreases |b| - i
  {
    if i >= |b| then -1
    else if b[i] == 0x3B then i
    else TrailerFrom(b, i + 1)
  }

  /** The GIF89a header is searched first; GIF87a only when there is none. */
  function GifStart(b: seq<byte>): int
  {
    var s := IndexOf(b, Gif89a);
    if s < 0 then IndexOf(b, Gif87a) else s
  }

  function GifSpec(b: seq<byte>): Option<Preview>
  {
    var s := GifStart(b);
    if s < 0 then None
    else
      var k := TrailerFrom(b, s + 6);
      if k < 0 then None else Some(MakePreview("image/gif", b, s, k + 1))
  }

  method FindGif(b: seq<byte>) returns (r: Option<Preview>)
    ensures r == GifSpec(b)
  {
    var s := IndexOfSeq(b, Gif89a);
    if s < 0 { s := IndexOfSeq(b, Gif87a); }
    if s < 0 { return None; }
    var i := s + 6;
    while i < |b|
      invariant i >= s + 6
      invariant TrailerFrom(b, s + 6) == TrailerFrom(b, i)
      decreases |b| - i
    {
      if b[i] == 0x3B {
        var end := i + 1;
        return Some(Preview("image/gif", s, end, b[s..end]));
      }
      i := i + 1;
    }
    return None;
  }

  lemma {:induction false} GifPreviewShape(b: seq<byte>)
    requires GifSpec(b).Some?
    ensures var p := GifSpec(b).value;
      SliceOf(p, b) && p.kind == "image/gif"
      && (p.content[..6] == Gif89a || p.content[..6] == Gif87a)
      && p.content[|p.content| - 1] == 0x3B
  {
    IndexOfIsLeast(b, Gif89a);
    IndexOfIsLeast(b, Gif87a);
    var s := GifStart(b);
    var k := TrailerFrom(b, s + 6);
    var p := GifSpec(b).value;
    assert p.content == b[s..k + 1];
    assert p.content[..6] == b[s..s + 6];
    assert MatchAt(b, Gif89a, s) || MatchAt(b, Gif87a, s);
  }

  // ---------------------------------------------------------------- BMP

  function BmpSpec(b: seq<byte>): Option<Preview>
  {
    var s := IndexOf(b, BmpMagic);
    if s < 0 || s + 6 > |b| then None
    else
      var size := ReadU32LE(b, s + 2);
      if size > 0 && s + size <= |b| then Some(MakePreview("image/bmp", b, s, s + size)) else None
  }

  method FindBmp(b: seq<byte>) returns (r: Option<Preview>)
    ensures r == BmpSpec(b)
  {
    var s := IndexOfSeq(b, BmpMagic);
    if s < 0 || s + 6 > |b| { return None; }
    var size := ReadU32LE(b, s + 2);
    if size > 0 && s + size <= |b| {
      var end := s + size;
      return Some(Preview("image/bmp", s, end, b[s..end]));
    }
    return None;
  }

  /** BITMAPFILEHEADER.bfSize gives the length, but a size whose top byte is 0x80 or
      more reads negative and the image is rejected. */
  lemma BmpSizeRule(b: seq<byte>)
    requires var s := IndexOf(b, BmpMagic); s >= 0 && s + 6 <= |b|
    ensures var s := IndexOf(b, BmpMagic);
      && (b[s + 5] >= 0x80 ==> BmpSpec(b).None?)
      && (BmpSpec(b).Some? ==> SliceOf(BmpSpec(b).value, b) && BmpSpec(b).value.end == s + U32LE(b, s + 2))
  {
  }

  // ---------------------------------------------------------------- WMF

  /** The word count read at META_HEADER offset 4 (the source's offset; [MS-WMF]
      section 2.3.2.2 puts Size at offset 6, after Version). */
  function WmfSizeWords(b: seq<byte>, s: int): int
    requires 0 <= s && s + 30 <= |b|
  {
    ReadU32LE(b, s + 22 + 4)
  }

  function WmfSpec(b: seq<byte>): Option<Preview>
  {
    var s := IndexOf(b, WmfKey);
    if s < 0 || s + 22 + 8 > |b| then None
    else
      var total := WmfSizeWords(b, s) * 2;
      if total <= 0 then None
      else if s + total <= |b| then Some(MakePreview("wmf", b, s, s + total))
      else Some(MakePreview("wmf", b, s, |b|))
  }

  method FindWmf(b: seq<byte>) returns (r: Option<Preview>)
    ensures r == WmfSpec(b)
  {
    var s := IndexOfSeq(b, WmfKey);
    if s < 0 { return None; }
    var meta := s + 22;
    if meta + 8 > |b| { return None; }
    var fileSizeWords := ReadU32LE(b, meta + 4);
    var total := fileSizeWords * 2;
    if total <= 0 { return None; }
    var end := s + total;
    if end <= |b| {
      return Some(Preview("wmf", s, end, b[s..end]));
    }
    return Some(Preview("wmf", s, |b|, b[s..|b|]));
  }

  /** WMF total size is twice the 32-bit word at META_HEADER+4; a size of zero or less
      gives nothing, and an overrunning size is clamped to the buffer end. */
  lemma WmfSizeRule(b: seq<byte>)
    requires var s := IndexOf(b, WmfKey); s >= 0 && s + 30 <= |b|
    ensures var s := IndexOf(b, WmfKey);
      var total := 2 * WmfSizeWords(b, s);
      && (total <= 0 <==> WmfSpec(b).None?)
      && (WmfSpec(b).Some? ==>
            (SliceOf(WmfSpec(b).value, b) && WmfSpec(b).value.start == s
             && WmfSpec(b).value.end == (if s + total <= |b| then s + total else |b|)))
  {
  }

  // ---------------------------------------------------------------- EMF

  predicate EmfSignatureAt(b: seq<byte>, i: int)
    requires 0 <= i && i + 44 <= |b|
  {
    b[i + 40] == 0x20 && b[i + 41] == 0x45 && b[i + 42] == 0x4D && b[i + 43] == 0x46
  }

  /** A record at `i` is taken when " EMF" sits at i+40, i >= 40, the header's nBytes
      (at i+48) is positive and the record fits in the buffer. */
  predicate EmfAcceptedAt(b: seq<byte>, i: int)
  {
    0 <= i && i + 44 <= |b| && EmfSignatureAt(b, i) && i >= 40 && i + 52 <= |b|
    && ReadU32LE(b, i + 48) > 0 && i + ReadU32LE(b, i + 48) <= |b|
  }

  function EmfFrom(b: seq<byte>, i: nat): (r: Option<Preview>)
    ensures r.Some? ==> SliceOf(r.value, b) && r.value.kind == "emf" && i <= r.value.start
    decreases |b| - i
  {
    if i + 44 > |b| then None
    else if EmfAcceptedAt(b, i) then Some(MakePreview("emf", b, i, i + ReadU32LE(b, i + 48)))
    else EmfFrom(b, i + 1)
  }

  /** A record found is an accepted EMR_HEADER and ends nBytes after its start. */
  lemma {:induction false} EmfFromAccepted(b: seq<byte>, i: nat)
    ensures var r := EmfFrom(b, i);
      r.Some? ==> EmfAcceptedAt(b, r.value.start) && r.value.end == r.value.start + ReadU32LE(b, r.value.start + 48)
    decreases |b| - i
  {
    if i + 44 <= |b| {
      if EmfAcceptedAt(b, i) {
        assert EmfFrom(b, i).value.start == i;
      } else {
        EmfFromAccepted(b, i + 1);
      }
    }
  }

  function EmfSpec(b: seq<byte>): Option<Preview>
  {
    EmfFrom(b, 0)
  }

  /** One step of the EMF scan: take the record at `i` or move on. */
  lemma EmfFromStep(b: seq<byte>, i: nat)
    requires i + 44 <= |b|
    ensures EmfAcceptedAt(b, i) ==> EmfFrom(b, i) == Some(MakePreview("emf", b, i, i + ReadU32LE(b, i + 48)))
    ensures !EmfAcceptedAt(b, i) ==> EmfFrom(b, i) == EmfFrom(b, i + 1)
  {
  }

  method FindEmf(b: seq<byte>) returns (r: Option<Preview>)
    ensures r == EmfSpec(b)
  {
    var i := 0;
    while i + 44 <= |b|
      invariant EmfFrom(b, 0) == EmfFrom(b, i)
      decreases |b| - i
    {
      EmfFromStep(b, i);
      if EmfSignatureAt(b, i) && i >= 40 && i + 52 <= |b| {
        var nBytes := ReadU32LE(b, i + 48);
        if nBytes > 0 && i + nBytes <= |b| {
          return Some(MakePreview("emf", b, i, i + nBytes));
        }
      }
      i := i + 1;
    }
    return None;
  }

  /** EMF: the first accepted EMR_HEADER ([MS-EMF] section 2.3.4.2); no earlier offset is accepted. */
  lemma {:induction false} EmfIsFirstAccepted(b: seq<byte>, i: nat)
    ensures EmfFrom(b, i).Some? ==>
      forall k :: i <= k < EmfFrom(b, i).value.start ==> !EmfAcceptedAt(b, k)
    ensures EmfFrom(b, i).None? ==> forall k :: i <= k && k + 44 <= |b| ==> !EmfAcceptedAt(b, k)
    decreases |b| - i
  {
    if i + 44 <= |b| && !EmfAcceptedAt(b, i) {
      EmfIsFirstAccepted(b, i + 1);
    }
  }

  // ---------------------------------------------------------------- DIB

  function Abs(x: int): nat { if x < 0 then -x else x }

  /** `Math.ceil(width * bpp / 8 / 4) * 4` for a positive width: rows padded to 4 bytes. */
  function RowBytes(width: int, bpp: int): (r: int)
    requires width > 0 && bpp > 0
    ensures r >= 4 && r % 4 == 0 && 8 * r >= width * bpp
  {
    ((width * bpp + 31) / 32) * 4
  }

  predicate ValidBitCount(bpp: int)
  {
    bpp == 1 || bpp == 4 || bpp == 8 || bpp == 16 || bpp == 24 || bpp == 32
  }

  /** The total size `40 + palette + pixels` that a BITMAPINFOHEADER at `i`
      announces, or None when the header is not one the scanner accepts. */
  function DibTotal(b: seq<byte>, i: nat): Option<int>
    requires i + 40 <= |b|
  {
    if ReadU32LE(b, i) != 40 then None
    else
      var width := ReadS32LE(b, i + 4);
      var height := ReadS32LE(b, i + 8);
      var planes := ReadU16LE(b, i + 12);
      var bpp := ReadU16LE(b, i + 14);
      var comp := ReadU32LE(b, i + 16);
      var sizeImage := ReadU32LE(b, i + 20);
      if planes != 1 || width <= 0 || Abs(height) <= 0 then None
      else if !ValidBitCount(bpp) then None
      else
        var palette :=
          if bpp <= 8 then
            var used := ReadU32LE(b, i + 32);
            (if used != 0 then used else Pow2(bpp)) * 4
          else if comp == 3 then 12
          else 0;
        var pixels := if sizeImage == 0 && comp == 0 then RowBytes(width, bpp) * Abs(height) else sizeImage;
        Some(40 + palette + pixels)
  }

  predicate DibAcceptedAt(b: seq<byte>, i: nat)
  {
    i + 40 <= |b| && DibTotal(b, i).Some? && DibTotal(b, i).value > 40 && i + DibTotal(b, i).value <= |b|
  }

  function DibFrom(b: seq<byte>, i: nat): (r: Option<Preview>)
    ensures r.Some? ==>
      (SliceOf(r.value, b) && r.value.kind == "image/dib" && i <= r.value.start && DibAcceptedAt(b, r.value.start)
       && r.value.end == r.value.start + DibTotal(b, r.value.start).value)
    decreases |b| - i
  {
    if i + 40 > |b| then None
    else if DibAcceptedAt(b, i) then Some(MakePreview("image/dib", b, i, i + DibTotal(b, i).value))
    else DibFrom(b, i + 1)
  }

  function DibSpec(b: seq<byte>): Option<Preview>
  {
    DibFrom(b, 0)
  }

  method FindDib(b: seq<byte>) returns (r: Option<Preview>)
    ensures r == DibSpec(b)
  {
    var i := 0;
    while i + 40 <= |b|
      invariant DibFrom(b, 0) == DibFrom(b, i)
      decreases |b| - i
    {
      var total := DibTotal(b, i);
      if total.Some? && total.value > 40 && i + total.value <= |b| {
        var end := i + total.value;
        return Some(Preview("image/dib", i, end, b[i..end]));
      }
      i := i + 1;
    }
    return None;
  }

  // ---------------------------------------------------------------- dispatch

  /** `_findEmbeddedPreview`: JPEG, GIF, BMP, WMF, PNG, EMF, DIB, first hit wins. */
  function EmbeddedPreview(b: seq<byte>): Option<Preview>
  {
    if JpegSpec(b).Some? then JpegSpec(b)
    else if GifSpec(b).Some? then GifSpec(b)
    else if BmpSpec(b).Some? then BmpSpec(b)
    else if WmfSpec(b).Some? then WmfSpec(b)
    else if PngSpec(b).Some? then PngSpec(b)
    else if EmfSpec(b).Some? then EmfSpec(b)
    else DibSpec(b)
  }

  method FindEmbeddedPreview(b: seq<byte>) returns (r: Option<Preview>)
    ensures r == EmbeddedPreview(b)
  {
    r := FindJpeg(b); if r.Some? { return; }
    r := FindGif(b); if r.Some? { return; }
    r := FindBmp(b); if r.Some? { return; }
    r := FindWmf(b); if r.Some? { return; }
    r := FindPng(b); if r.Some? { return; }
    r := FindEmf(b); if r.Some? { return; }
    r := FindDib(b);
  }

  /** Every preview returned satisfies 0 <= start < end <= |b| and content == b[start..end),
      and its kind names the scanner that found it. */
  lemma EmbeddedPreviewIsSlice(b: seq<byte>)
    requires EmbeddedPreview(b).Some?
    ensures SliceOf(EmbeddedPreview(b).value, b)
    ensures EmbeddedPreview(b).value.kind in
      {"image/jpeg", "image/gif", "image/bmp", "wmf", "image/png", "emf", "image/dib"}
  {
  }

  /** The order is a priority: a later format is reported only when every earlier scanner failed. */
  lemma EmbeddedPreviewOrder(b: seq<byte>)
    ensures JpegSpec(b).Some? ==> EmbeddedPreview(b) == JpegSpec(b)
    ensures EmbeddedPreview(b).Some? && EmbeddedPreview(b).value.kind == "image/png" ==>
      JpegSpec(b).None? && GifSpec(b).None? && BmpSpec(b).None? && WmfSpec(b).None?
    ensures EmbeddedPreview(b).None? <==>
      JpegSpec(b).None? && GifSpec(b).None? && BmpSpec(b).None? && WmfSpec(b).None?
      && PngSpec(b).None? && EmfSpec(b).None? && DibSpec(b).None?
  {
  }

  // ---------------------------------------------------------------- getImageData

  datatype ImageData = ImageData(
    kind: string,
    content: Option<seq<byte>>,
    start: Option<int>,
    end: Option<int>,
    error: Option<string>)

  const NoPreviewError := "OLE container found, but no recognizable image/metafile stream was located."

  /** The bytes from the first compound-file signature on, or all bytes when there is none. */
  function FromContainer(bytes: seq<byte>): seq<byte>
  {
    var k := IndexOf(bytes, CfbSig);
    if k >= 0 then bytes[k..] else bytes
  }

  function ImageDataOf(bytes: seq<byte>): ImageData
  {
    var b := FromContainer(bytes);
    if !IsCfb(b) then ImageData("", None, None, None, None)
    else match EmbeddedPreview(b)
      case None => ImageData("", None, None, None, Some(NoPreviewError))
      case Some(p) => ImageData(p.kind, Some(p.content), Some(p.start), Some(p.end), None)
  }

  method GetImageData(bytes: seq<byte>) returns (r: ImageData)
    ensures r == ImageDataOf(bytes)
  {
    r := ImageData("", None, None, None, None);
    var b := bytes;
    var cfbStart := IndexOfSeq(b, CfbSig);
    if cfbStart >= 0 {
      b := b[cfbStart..];
    }
    if IsCfb(b) {
      var preview := FindEmbeddedPreview(b);
      if preview.None? {
        r := r.(error := Some(NoPreviewError));
      } else {
        var p := preview.value;
        r := r.(kind := p.kind, content := Some(p.content), start := Some(p.start), end := Some(p.end));
      }
    }
  }

  /** After cutting at the first signature the buffer is a container exactly when the
      signature occurs at all. */
  lemma ContainerIffSignature(bytes: seq<byte>)
    ensures IsCfb(FromContainer(bytes)) <==> IndexOf(bytes, CfbSig) >= 0
  {
    IndexOfIsLeast(bytes, CfbSig);
    var k := IndexOf(bytes, CfbSig);
    if k >= 0 {
      assert bytes[k..][..8] == bytes[k..k + 8];
    }
  }

  /** Outside a container the result is type '' with no content and no error; in a
      container without a preview the error is set and the type stays ''; otherwise the
      preview's fields are copied and its content is the slice of the container it names. */
  lemma ImageDataCases(bytes: seq<byte>)
    ensures IndexOf(bytes, CfbSig) < 0 ==> ImageDataOf(bytes) == ImageData("", None, None, None, None)
    ensures IndexOf(bytes, CfbSig) >= 0 && EmbeddedPreview(FromContainer(bytes)).None? ==>
      ImageDataOf(bytes).kind == "" && ImageDataOf(bytes).content.None?
      && ImageDataOf(bytes).error == Some(NoPreviewError)
    ensures ImageDataOf(bytes).content.Some? ==>
      var b := FromContainer(bytes);
      var r := ImageDataOf(bytes);
      && r.error.None? && r.start.Some? && r.end.Some?
      && 0 <= r.start.value < r.end.value <= |b| && r.content.value == b[r.start.value..r.end.value]
  {
    ContainerIffSignature(bytes);
    var b := FromContainer(bytes);
    if EmbeddedPreview(b).Some? {
      EmbeddedPreviewIsSlice(b);
    }
  }

  // ---------------------------------------------------------------- findings

  /** As written, an IEND chunk whose length field reads negative ends the preview at
      or before its start: here the walk reports end 0 for a PNG that starts at 0. */
  lemma PngNegativeIendLength()
    ensures var b: seq<byte> := PngSig + [0xFF, 0xFF, 0xFF, 0xEC, 0x49, 0x45, 0x4E, 0x44, 0, 0, 0, 0];
      && IndexOf(b, PngSig) == 0
      && PngStepAsWritten(b, 8) == Iend(0)
      && PngStepAt(b, 8) == Overrun
      && PngSpec(b) == None
  {
    var b: seq<byte> := PngSig + [0xFF, 0xFF, 0xFF, 0xEC, 0x49, 0x45, 0x4E, 0x44, 0, 0, 0, 0];
    assert MatchAt(b, PngSig, 0) by { assert b[0..8] == PngSig; }
  }

  /** As written, a non-IEND chunk of length 0xFFFFFFF4 (-12 when read signed) steps
      back to its own offset, so `p = next` never changes and the loop does not end. */
  lemma PngStallingChunk()
    ensures var b: seq<byte> := PngSig + [0xFF, 0xFF, 0xFF, 0xF4, 0x61, 0x62, 0x63, 0x64, 0, 0, 0, 0];
      && IndexOf(b, PngSig) == 0
      && PngStepAsWritten(b, 8) == Advance(8)
      && PngSpec(b) == None
  {
    var b: seq<byte> := PngSig + [0xFF, 0xFF, 0xFF, 0xF4, 0x61, 0x62, 0x63, 0x64, 0, 0, 0, 0];
    assert MatchAt(b, PngSig, 0) by { assert b[0..8] == PngSig; }
  }
}
