/** The renderer settings derived from a WMF payload
    (`getIRendererSettingsFromWMF` in src/entities/ole2FrameWMFRenderer.js):
    a short scan for the Aldus placeable header ([MS-WMF] section 2.3.2.3),
    then the logical extents and the CSS pixel size computed from its
    bounding box and units per inch. The rasterising of the metafile itself
    is not part of this model. */
module Ole2FrameWmf {
  import opened Js
  import opened Bytes

  const PlaceableKey: int := 0x9AC6CDD7
  const MM_ANISOTROPIC: int := 8
  const DefaultDpi: real := 96.0
  const DefaultFallbackPx: int := 512

  /** A pixel count as JavaScript computes it: an integer, or Infinity / NaN when the
      header's units per inch is 0. */
  datatype PixelCount = Px(n: int) | PxInfinity | PxNaN

  datatype Settings = Settings(width: string, height: string, xExt: int, yExt: int, mapMode: int)

  /** `${n}` for an integral Number. */
  function IntString(n: int): (s: string)
    ensures |s| >= 1
  {
    if n < 0 then "-" + DecimalString(-n) else DecimalString(n)
  }

  function PixelString(p: PixelCount): string
  {
    match p
    case Px(n) => IntString(n) + "px"
    case PxInfinity => "Infinitypx"
    case PxNaN => "NaNpx"
  }

  // ---------------------------------------------------------------- header scan

  /** The largest offset tried: `Math.min(byteLength - 22, 256)`. */
  function MaxScan(len: int): int
  {
    if len - 22 < 256 then len - 22 else 256
  }

  predicate KeyAt(buf: seq<byte>, i: int)
    requires 0 <= i && i + 4 <= |buf|
  {
    U32LE(buf, i) == PlaceableKey
  }

  /** The first even offset from `i` (itself even) up to `MaxScan` holding the key. */
  function KeyOffsetFrom(buf: seq<byte>, i: nat): (r: Option<nat>)
    requires i % 2 == 0
    ensures r.Some? ==> i <= r.value <= MaxScan(|buf|) && r.value % 2 == 0 && KeyAt(buf, r.value)
    decreases |buf| - i
  {
    if i > MaxScan(|buf|) then None
    else if KeyAt(buf, i) then Some(i)
    else KeyOffsetFrom(buf, i + 2)
  }

  function KeyOffset(buf: seq<byte>): Option<nat>
  {
    KeyOffsetFrom(buf, 0)
  }

  lemma {:induction false} KeyOffsetFromIsFirst(buf: seq<byte>, i: nat)
    requires i % 2 == 0
    ensures forall k :: (i <= k <= MaxScan(|buf|) && k % 2 == 0
      && (KeyOffsetFrom(buf, i).None? || k < KeyOffsetFrom(buf, i).value)) ==> !KeyAt(buf, k)
    decreases |buf| - i
  {
    if i <= MaxScan(|buf|) && !KeyAt(buf, i) {
      KeyOffsetFromIsFirst(buf, i + 2);
    }
  }

  /** The key is looked for only at even offsets 0..min(|buf| - 22, 256), and the first
      hit is used; a buffer shorter than 22 bytes never has one. */
  lemma KeyOffsetIsFirstEven(buf: seq<byte>)
    ensures KeyOffset(buf).Some? ==>
      var off := KeyOffset(buf).value;
      off % 2 == 0 && off <= 256 && off + 22 <= |buf| && U32LE(buf, off) == PlaceableKey
    ensures forall k :: (0 <= k <= MaxScan(|buf|) && k % 2 == 0
      && (KeyOffset(buf).None? || k < KeyOffset(buf).value)) ==> !KeyAt(buf, k)
    ensures |buf| < 22 ==> KeyOffset(buf).None?
  {
    KeyOffsetFromIsFirst(buf, 0);
  }

  // ---------------------------------------------------------------- sizes

  function Max(a: int, b: int): int { if a < b then b else a }

  /** `Math.round` on a finite value: the integer nearest, halves rounded up. */
  function Round(x: real): (r: int)
    ensures r as real - 0.5 <= x < r as real + 0.5
  {
    (x + 0.5).Floor
  }

  /** `Math.max(1, Math.round(ext / unitsPerInch * dpi))`. */
  function PixelSize(ext: int, unitsPerInch: int, dpi: real): (p: PixelCount)
    requires ext >= 1
    ensures p.Px? ==> p.n >= 1
    ensures unitsPerInch == 0 ==> (p == PxInfinity <==> dpi > 0.0) && (p == PxNaN <==> dpi == 0.0)
  {
    if unitsPerInch == 0 then
      if dpi > 0.0 then PxInfinity else if dpi < 0.0 then Px(1) else PxNaN
    else Px(Max(1, Round(ext as real / unitsPerInch as real * dpi)))
  }

  /** With a positive resolution and units per inch, the size is the nearest integer to
      `ext / unitsPerInch * dpi` once that reaches half a pixel, and 1 below it. */
  lemma PixelSizeRounds(ext: int, unitsPerInch: int, dpi: real)
    requires ext >= 1 && unitsPerInch > 0 && dpi > 0.0
    ensures var x := ext as real / unitsPerInch as real * dpi;
      && PixelSize(ext, unitsPerInch, dpi).Px?
      && (x >= 0.5 ==> PixelSize(ext, unitsPerInch, dpi).n as real - 0.5 <= x < PixelSize(ext, unitsPerInch, dpi).n as real + 0.5)
      && (x < 0.5 ==> PixelSize(ext, unitsPerInch, dpi).n == 1)
  {
  }

  /** The settings computed from a placeable header at `off`. */
  function HeaderSettings(buf: seq<byte>, off: nat, dpi: real): Settings
    requires off + 22 <= |buf|
  {
    var left := ReadI16LE(buf, off + 6);
    var top := ReadI16LE(buf, off + 8);
    var right := ReadI16LE(buf, off + 10);
    var bottom := ReadI16LE(buf, off + 12);
    var unitsPerInch := ReadI16LE(buf, off + 14);
    var xExt := Max(1, right - left);
    var yExt := Max(1, bottom - top);
    Settings(PixelString(PixelSize(xExt, unitsPerInch, dpi)), PixelString(PixelSize(yExt, unitsPerInch, dpi)),
             xExt, yExt, MM_ANISOTROPIC)
  }

  function FallbackSettings(fallbackW: Option<int>, fallbackH: Option<int>): Settings
  {
    var w := if fallbackW.Some? then fallbackW.value else DefaultFallbackPx;
    var h := if fallbackH.Some? then fallbackH.value else DefaultFallbackPx;
    Settings(IntString(w) + "px", IntString(h) + "px", w, h, MM_ANISOTROPIC)
  }

  /** The settings `getIRendererSettingsFromWMF` returns. `dpi` is `opts?.dpi` and the
      fallback sizes `opts?.fallbackPx?.width/height`, None when absent. */
  function SettingsOf(buf: seq<byte>, dpi: Option<real>, fallbackW: Option<int>, fallbackH: Option<int>): Settings
  {
    match KeyOffset(buf)
    case Some(off) => HeaderSettings(buf, off, if dpi.Some? then dpi.value else DefaultDpi)
    case None => FallbackSettings(fallbackW, fallbackH)
  }

  method GetIRendererSettingsFromWmf(buf: seq<byte>, dpi: Option<real>, fallbackW: Option<int>, fallbackH: Option<int>)
    returns (s: Settings)
    ensures s == SettingsOf(buf, dpi, fallbackW, fallbackH)
  {
    var d := if dpi.Some? then dpi.value else DefaultDpi;
    var off := 0;
    var found := false;
    var maxScan := if |buf| - 22 < 256 then |buf| - 22 else 256;
    var i := 0;
    while i <= maxScan
      invariant 0 <= i && i % 2 == 0
      invariant KeyOffset(buf) == KeyOffsetFrom(buf, i)
      invariant !found
      decreases maxScan - i
    {
      if U32LE(buf, i) == PlaceableKey {
        assert KeyOffset(buf) == Some(i);
        off, found := i, true;
        break;
      }
      i := i + 2;
    }
    if found {
      return HeaderSettings(buf, off, d);
    }
    var fbW := if fallbackW.Some? then fallbackW.value else DefaultFallbackPx;
    var fbH := if fallbackH.Some? then fallbackH.value else DefaultFallbackPx;
    s := Settings(IntString(fbW) + "px", IntString(fbH) + "px", fbW, fbH, MM_ANISOTROPIC);
    assert s == FallbackSettings(fallbackW, fallbackH);
  }

  /** With a header, the extents are the bounding-box sizes clamped to at least 1, read
      from the signed 16-bit fields at offsets 6..12; without one, the fallback size
      (512 unless overridden) gives both the pixel size and the extents. The map mode
      is MM_ANISOTROPIC either way. */
  lemma SettingsRules(buf: seq<byte>, dpi: Option<real>, fallbackW: Option<int>, fallbackH: Option<int>)
    ensures var s := SettingsOf(buf, dpi, fallbackW, fallbackH);
      && s.mapMode == 8
      && (KeyOffset(buf).Some? ==>
            var off := KeyOffset(buf).value;
            && s.xExt >= 1 && s.yExt >= 1
            && s.xExt == Max(1, ReadI16LE(buf, off + 10) - ReadI16LE(buf, off + 6))
            && s.yExt == Max(1, ReadI16LE(buf, off + 12) - ReadI16LE(buf, off + 8)))
      && (KeyOffset(buf).None? && fallbackW.None? && fallbackH.None? ==>
            s == Settings("512px", "512px", 512, 512, 8))
      && (KeyOffset(buf).None? ==>
            s.xExt == (if fallbackW.Some? then fallbackW.value else 512)
            && s.yExt == (if fallbackH.Some? then fallbackH.value else 512))
  {
    if KeyOffset(buf).None? && fallbackW.None? {
      assert DecimalString(512) == "512" by {
        assert DecimalString(51) == "51" by { assert DecimalString(5) == "5"; }
      }
    }
  }
}
