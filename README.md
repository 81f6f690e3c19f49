# three-dxf-viewer core, modelled in Dafny

three-dxf-viewer turns a parsed DXF drawing into a three.js scene. This project
models the deterministic routines behind that conversion and proves what they
promise:

- **OLE2FRAME images.** The hex payload of an OLE2FRAME entity is decoded and
  truncated to its declared length. Inside a compound-file container ([MS-CFB]
  section 2.2) the first JPEG, GIF, BMP, WMF, PNG, EMF or DIB preview is found as
  a byte range. The renderer settings of a WMF preview come from its Aldus
  placeable header ([MS-WMF] section 2.3.2.3). The plane that shows the image is
  sized from the entity's corners.
- **Hatches.** The boundary edges of a HATCH get their points, the loops' point
  chains are merged into shapes with holes, and hatch lines are clipped against
  the loops by scanline crossings, with odd-parity pairing or midpoint depth.
- **Entity drawers.** LINE/POLYLINE points and segment index arrays, B-spline
  sampling, SOLID corner order and mirroring, TEXT/MTEXT/ATTRIB height, text
  flattening, scale, anchoring and special characters, and block and INSERT
  drawing with its dispatch by entity type.
- **Shared rules.** Entity visibility from entity and layer flags, the layer
  table parser, the 256-entry colour-index table, dashed-material sizes and the
  material memo, and the drawn-entity cache with its counter-stamped keys.
- **Scene tools.** The batch merger that collects meshes and lines per material
  and prunes empty groups, the voxel snap index, the nearest-snap search of the
  mouse, and the event registry.
- **The viewer.** The parsed-file cache keyed by a normalised path, the global
  cache switch, the view rotation taken from the model layout, and the steps of
  `getFromPath`.

Each module corresponds to one source file, and the module comment names it.
Where the source updates objects in place, the model does too: the event registry,
the snap index and helper, the entity cache, the viewer and the hatch boundary
edges are classes whose methods are proved against specification functions.
Byte scanners and index-array builders are methods with the source's loops,
proved equal to recursive functions. The pure rules are functions with lemmas.

Coordinates are mathematical reals, not IEEE doubles. A JavaScript NaN is
`None` where the source can produce one. Foreign code is a function-typed
parameter: three.js, the dxf library's bulge-arc and B-spline routines, the MTEXT
parser and the font shaper.

## Model

| member | source | states |
|---|---|---|
| Js.ToInt32 | src/entities/ole2FrameCFBHelpers.js:207-209 | `x \| 0` gives the 32-bit two's-complement value congruent to x modulo 2^32, unchanged below 2^31 and shifted by 2^32 above |
| Js.ToUint32 | src/entities/ole2FrameCFBHelpers.js:207-209 | ToUint32 lands in [0, 2^32) and is congruent to its argument modulo 2^32 |
| Js.DecimalString | src/entities/baseEntity/baseCache.js:31 | `String(n)` is a non-empty run of decimal digits, one digit exactly below 10, ending in the last digit of n |
| Js.DecimalStringInjective | src/entities/baseEntity/baseCache.js:31 | different counters print as different digit strings |
| Js.ReplaceAllNotLonger | src/dxfViewer.js:152-155 | `replaceAll` with a replacement no longer than the pattern never lengthens a string |
| Js.Without | src/dxfViewer.js:152-155 | deleting a character leaves no occurrence of it and never lengthens the string |
| Js.ReplaceAllDeletes | src/dxfViewer.js:152-155 | `replaceAll(c, '')` for a one-character pattern is exactly the deletion of that character |
| Js.AsciiLower | src/dxfViewer.js:183 | `toLowerCase` keeps the length and maps each character on its own |
| Bytes.ReadU16LE | src/entities/ole2FrameCFBHelpers.js:206 | the value is in [0, 65536) with b[o] as low byte and b[o+1] as high byte |
| Bytes.ReadI16LE | src/entities/ole2FrameWMFRenderer.js:122-126 | a signed 16-bit read: negative exactly when the high byte has its top bit set, and congruent to the unsigned read modulo 2^16 |
| Bytes.ReadU32LE | src/entities/ole2FrameCFBHelpers.js:207 | the `<< 24` makes the result signed: it is the unsigned little-endian value when byte 3 is below 0x80 and that value minus 2^32 otherwise |
| Bytes.ReadS32LE | src/entities/ole2FrameCFBHelpers.js:208 | `u \| 0` of the already signed read changes nothing |
| Bytes.ReadU32BE | src/entities/ole2FrameCFBHelpers.js:209 | the big-endian read is signed as well: negative exactly when the first byte is 0x80 or more |
| Bytes.IndexFromIsLeast | src/entities/ole2FrameCFBHelpers.js:32-38 | the search from i returns the least match at or after i, or -1 when there is none |
| Bytes.IndexOfIsLeast | src/entities/ole2FrameCFBHelpers.js:32-38 | `_indexOfSeq` returns the least index where the pattern occurs, and -1 exactly when it occurs nowhere |
| Bytes.IndexOfSeq | src/entities/ole2FrameCFBHelpers.js:32-38 | the labelled double loop computes that least index |
| Ole2FrameCfb.MakePreview | src/entities/ole2FrameCFBHelpers.js:83 | a preview record is the slice [start, end) of the buffer with its type |
| Ole2FrameCfb.IsCfb | src/entities/ole2FrameCFBHelpers.js:40-45 | true exactly when the buffer starts with the eight compound-file signature bytes of [MS-CFB] section 2.2 |
| Ole2FrameCfb.PngStepAt | src/entities/ole2FrameCFBHelpers.js:78-84 | a chunk step that is not an overrun ends at least 12 bytes further on and within the buffer |
| Ole2FrameCfb.PngEndFrom | src/entities/ole2FrameCFBHelpers.js:77-86 | the chunk walk gives -1 or an end at least one chunk header past the start and within the buffer |
| Ole2FrameCfb.PngSpec | src/entities/ole2FrameCFBHelpers.js:73-87 | `_findPng` as a value: from the first PNG signature, the chunk walk to the end of the first IEND chunk, or no preview on an overrun; PngPreviewShape and PngWalkStopsAtFirstIend state its meaning |
| Ole2FrameCfb.FindPng | src/entities/ole2FrameCFBHelpers.js:73-87 | the `while` walk computes the PNG preview of the specification function |
| Ole2FrameCfb.PngPreviewShape | src/entities/ole2FrameCFBHelpers.js:73-87 | a PNG preview starts at the first signature, begins with the 8 signature bytes and holds at least one chunk |
| Ole2FrameCfb.PngWalkStopsAtFirstIend | src/entities/ole2FrameCFBHelpers.js:78-85 | the walk ends just past the first IEND chunk, fails on an overrun, and otherwise continues at the next chunk |
| Ole2FrameCfb.EoiFrom | src/entities/ole2FrameCFBHelpers.js:92-97 | the position found holds the EOI marker FF D9 at or after the start |
| Ole2FrameCfb.JpegSpec | src/entities/ole2FrameCFBHelpers.js:89-99 | `_findJpeg` as a value: the first SOI through the first EOI after it, or none; JpegPreviewShape states its meaning |
| Ole2FrameCfb.FindJpeg | src/entities/ole2FrameCFBHelpers.js:89-99 | the loop computes the JPEG preview of the specification function |
| Ole2FrameCfb.JpegPreviewShape | src/entities/ole2FrameCFBHelpers.js:89-99 | a JPEG preview starts at the first SOI marker and ends with the first EOI marker after it |
| Ole2FrameCfb.TrailerFrom | src/entities/ole2FrameCFBHelpers.js:105-110 | the position found holds the GIF trailer byte 0x3B |
| Ole2FrameCfb.GifSpec | src/entities/ole2FrameCFBHelpers.js:101-112 | `_findGif` as a value: the first GIF89a header, else the first GIF87a, through the next trailer byte 0x3B, or none; GifPreviewShape states its meaning |
| Ole2FrameCfb.FindGif | src/entities/ole2FrameCFBHelpers.js:101-112 | the loop computes the GIF preview of the specification function, GIF89a searched before GIF87a |
| Ole2FrameCfb.GifPreviewShape | src/entities/ole2FrameCFBHelpers.js:101-112 | a GIF preview starts with a GIF89a or GIF87a header and ends with the trailer byte |
| Ole2FrameCfb.BmpSpec | src/entities/ole2FrameCFBHelpers.js:114-123 | `_findBmp` as a value: the first 'BM' with bfSize bytes after it, or none; BmpSizeRule states its meaning |
| Ole2FrameCfb.FindBmp | src/entities/ole2FrameCFBHelpers.js:114-123 | the method computes the BMP preview of the specification function |
| Ole2FrameCfb.BmpSizeRule | src/entities/ole2FrameCFBHelpers.js:115-122 | the preview ends bfSize bytes after 'BM'; a bfSize whose top byte is 0x80 or more reads negative and gives no preview |
| Ole2FrameCfb.WmfSpec | src/entities/ole2FrameCFBHelpers.js:125-145 | `_findWmf` as a value: from the placeable key, the header and the doubled word size clamped to the buffer, or none; WmfSizeRule states its meaning |
| Ole2FrameCfb.FindWmf | src/entities/ole2FrameCFBHelpers.js:125-145 | the method computes the WMF preview of the specification function |
| Ole2FrameCfb.WmfSizeRule | src/entities/ole2FrameCFBHelpers.js:129-144 | no preview exactly when twice the word at META_HEADER offset 4 is not positive; otherwise the slice is clamped to the buffer end |
| Ole2FrameCfb.EmfSpec | src/entities/ole2FrameCFBHelpers.js:147-162 | `_findEmf` as a value: the first acceptable EMR_HEADER from offset 0; EmfFrom, EmfFromAccepted and EmfIsFirstAccepted state its meaning |
| Ole2FrameCfb.EmfFrom | src/entities/ole2FrameCFBHelpers.js:148-161 | a record found from offset i is a slice of the buffer starting at i or later |
| Ole2FrameCfb.EmfFromAccepted | src/entities/ole2FrameCFBHelpers.js:148-161 | a record found has " EMF" at offset 40, starts at 40 or later, has a positive nBytes that fits the buffer, and ends nBytes after its start |
| Ole2FrameCfb.FindEmf | src/entities/ole2FrameCFBHelpers.js:147-162 | the loop with its `continue`s computes the EMF preview of the specification function |
| Ole2FrameCfb.EmfIsFirstAccepted | src/entities/ole2FrameCFBHelpers.js:148-161 | the EMR_HEADER taken ([MS-EMF] section 2.3.4.2) is the first acceptable one, and none is taken when no offset is acceptable |
| Ole2FrameCfb.RowBytes | src/entities/ole2FrameCFBHelpers.js:192-193 | a row of an uncompressed DIB is a positive multiple of 4 bytes and holds all its pixel bits |
| Ole2FrameCfb.DibSpec | src/entities/ole2FrameCFBHelpers.js:164-204 | `_findDib` as a value: the first acceptable BITMAPINFOHEADER from offset 0; DibFrom states its meaning |
| Ole2FrameCfb.DibFrom | src/entities/ole2FrameCFBHelpers.js:165-202 | a DIB found is an acceptable BITMAPINFOHEADER and ends 40 + palette + pixel bytes after it |
| Ole2FrameCfb.FindDib | src/entities/ole2FrameCFBHelpers.js:164-204 | the loop computes the DIB preview of the specification function |
| Ole2FrameCfb.EmbeddedPreview | src/entities/ole2FrameCFBHelpers.js:47-71 | `_findEmbeddedPreview` as a value: the first preview found by the scanners in the order JPEG, GIF, BMP, WMF, PNG, EMF, DIB |
| Ole2FrameCfb.FindEmbeddedPreview | src/entities/ole2FrameCFBHelpers.js:47-71 | the scanners are tried in the order JPEG, GIF, BMP, WMF, PNG, EMF, DIB |
| Ole2FrameCfb.EmbeddedPreviewIsSlice | src/entities/ole2FrameCFBHelpers.js:47-71 | every preview returned is a non-empty slice of the buffer with one of the seven types |
| Ole2FrameCfb.EmbeddedPreviewOrder | src/entities/ole2FrameCFBHelpers.js:47-71 | a JPEG always wins, a PNG is reported only when the four scanners before it fail, and nothing is found exactly when all seven fail |
| Ole2FrameCfb.ImageDataOf | src/entities/ole2FrameCFBHelpers.js:6-30 | `getImageData` as a value: empty outside a container, the error message without a preview, else the preview's type and slice; ImageDataCases states its meaning |
| Ole2FrameCfb.GetImageData | src/entities/ole2FrameCFBHelpers.js:6-30 | the method computes the image data of the specification function |
| Ole2FrameCfb.ContainerIffSignature | src/entities/ole2FrameCFBHelpers.js:12-17 | after cutting at the first signature, the buffer is a container exactly when the signature occurs |
| Ole2FrameCfb.ImageDataCases | src/entities/ole2FrameCFBHelpers.js:6-30 | outside a container the result is empty without error; a container without a preview gives the error message; content is always the slice [start, end) |
| Ole2FrameCfb.PngNegativeIendLength | src/entities/ole2FrameCFBHelpers.js:79-83 | as written, an IEND chunk with length FF FF FF EC is accepted with a preview that ends at its start, where an unsigned read overruns |
| Ole2FrameCfb.PngStallingChunk | src/entities/ole2FrameCFBHelpers.js:79-84 | as written, a chunk with length FF FF FF F4 steps back to its own offset, so the walk makes no progress |
| BaseCache.CacheKeyInjective | src/entities/baseEntity/baseCache.js:31-32 | the keys 'e' + n of different counters differ |
| BaseCache.Cache.GetCached | src/entities/baseEntity/baseCache.js:21-23 | a model comes back exactly when caching is on and the entity carries a non-empty stored key, and it is the stored model |
| BaseCache.Cache.SetCache | src/entities/baseEntity/baseCache.js:30-34 | the entity gets the key of the current counter, which was unused; the counter advances and only that key is stored |
| BaseCache.Cache.KeyIsNew | src/entities/baseEntity/baseCache.js:31-33 | the next key is none of the keys handed out before |
| BaseCache.SetThenGet | src/entities/baseEntity/baseCache.js:21-34 | storing and reading back with caching on returns the model, and another entity's entry is untouched |
| GeometryHelper.PointIndex | src/entities/baseEntity/geometryHelper.js:21-30 | the index has 2(n-1) entries for n points, none for no points |
| GeometryHelper.PointIndexShape | src/entities/baseEntity/geometryHelper.js:21-30 | segment k joins points k and k+1, every index names a point, and consecutive segments share their point |
| GeometryHelper.GeneratePointIndex | src/entities/baseEntity/geometryHelper.js:21-30 | the loop builds that index |
| BaseGeometry.GenerateBasePointIndex | src/entities/baseEntity/baseGeometry.js:16-25 | the same loop builds the same index |
| Ole2FrameWmf.IntString | src/entities/ole2FrameWMFRenderer.js:136-137 | the decimal text of a pixel count is never empty |
| Ole2FrameWmf.KeyOffsetFrom | src/entities/ole2FrameWMFRenderer.js:109-112 | an offset found is even, within the scan limit and holds the placeable key |
| Ole2FrameWmf.KeyOffsetFromIsFirst | src/entities/ole2FrameWMFRenderer.js:110-112 | no even offset before the one found (or anywhere in range when none is found) holds the key |
| Ole2FrameWmf.KeyOffsetIsFirstEven | src/entities/ole2FrameWMFRenderer.js:106-112 | the header is looked for at even offsets up to min(length - 22, 256), the first hit is taken, and a buffer shorter than 22 bytes has none |
| Ole2FrameWmf.Round | src/entities/ole2FrameWMFRenderer.js:132-133 | `Math.round` gives the integer within half a unit, halves rounded up |
| Ole2FrameWmf.PixelSize | src/entities/ole2FrameWMFRenderer.js:132-133 | a finite size is at least 1 pixel; zero units per inch gives Infinity for a positive resolution and NaN for a zero one |
| Ole2FrameWmf.PixelSizeRounds | src/entities/ole2FrameWMFRenderer.js:132-133 | with positive units and resolution the size is ext / unitsPerInch * dpi rounded, and 1 below one half |
| Ole2FrameWmf.SettingsOf | src/entities/ole2FrameWMFRenderer.js:99-156 | `getIRendererSettingsFromWMF` as a value: the header's settings when the placeable key is found, the fallback size otherwise; SettingsRules states its meaning |
| Ole2FrameWmf.GetIRendererSettingsFromWmf | src/entities/ole2FrameWMFRenderer.js:99-156 | the method computes the settings of the specification function |
| Ole2FrameWmf.SettingsRules | src/entities/ole2FrameWMFRenderer.js:114-155 | the map mode is always anisotropic; with a header the extents are the bounding-box sizes clamped to at least 1; without one the fallback sizes, 512 by default, are used |
| Ole2FrameEntity.StripWhitespace | src/entities/ole2frameEntity.js:149 | no whitespace is left and the string never grows |
| Ole2FrameEntity.StripWhitespaceAppend | src/entities/ole2frameEntity.js:149 | stripping distributes over concatenation |
| Ole2FrameEntity.StripWhitespaceKeeps | src/entities/ole2frameEntity.js:149 | a string without whitespace is unchanged |
| Ole2FrameEntity.HexDigitValue | src/entities/ole2frameEntity.js:152 | a hex digit has a value below 16 |
| Ole2FrameEntity.ParseHexPair | src/entities/ole2frameEntity.js:152 | `parseInt` of two characters in base 16 lies in [-15, 256) when it is a number |
| Ole2FrameEntity.ToUint8 | src/entities/ole2frameEntity.js:151-152 | storing into a Uint8Array turns NaN into 0 and wraps other integers modulo 256 |
| Ole2FrameEntity.DecodePairs | src/entities/ole2frameEntity.js:151-152 | the output has half the characters and byte j comes from characters 2j and 2j+1 |
| Ole2FrameEntity.HexToUint8Array | src/entities/ole2frameEntity.js:148-154 | the loop computes the decoding of the specification function |
| Ole2FrameEntity.HexToBytesMeaning | src/entities/ole2frameEntity.js:148-154 | an odd cleaned length throws the odd-length error; otherwise byte j is the base-16 value of its two digits |
| Ole2FrameEntity.WhitespaceIgnored | src/entities/ole2frameEntity.js:149 | a whitespace character anywhere in the payload changes nothing |
| Ole2FrameEntity.HexDigit | src/entities/ole2frameEntity.js:152 | the digit written for d reads back as d and is not whitespace or a sign |
| Ole2FrameEntity.HexEncode | src/entities/ole2frameEntity.js:148-154 | the encoding has two digits per byte, high digit first, without whitespace |
| Ole2FrameEntity.PairOfDigits | src/entities/ole2frameEntity.js:152 | two written digits read back as 16 * hi + lo |
| Ole2FrameEntity.HexRoundTrip | src/entities/ole2frameEntity.js:148-154 | decoding the hex encoding of any bytes gives those bytes |
| Ole2FrameEntity.TruncateToLength | src/entities/ole2frameEntity.js:101-103 | the result is a prefix: cut to floor(length) when a positive finite length is shorter than the buffer, else the whole buffer |
| Ole2FrameEntity.Dispatch | src/entities/ole2frameEntity.js:109-145 | a type containing "wmf" goes to the renderer; images are decoded only for an "image/" type without "emf"; otherwise the unsupported-type message is logged |
| Ole2FrameEntity.CreateTextureSource | src/entities/ole2frameEntity.js:95-146 | the method computes the texture path of the specification function, decoding errors included |
| Ole2FrameEntity.NoEmfInImageKind | src/entities/ole2frameEntity.js:113 | "emf" cannot occur in an "image/" type whose subtype lacks one of its letters |
| Ole2FrameEntity.ImageKindDecoded | src/entities/ole2frameEntity.js:109-125 | an "image/" type without 'w' and lacking a letter of "emf" is decoded as an image |
| Ole2FrameEntity.DispatchOfSniffedKinds | src/entities/ole2frameEntity.js:109-125 | WMF goes to the renderer, the five image types are decoded, EMF and an empty type are logged with their messages |
| Ole2FrameEntity.FramePlane | src/entities/ole2frameEntity.js:78-83 | the plane has the frame's width and height and its corners land on the upper-left and lower-right points |
| HatchClip.CloseLoop | src/entities/hatchCalculator.js:32-39 | the copy extends the loop by at most one point |
| HatchClip.CloseLoopCloses | src/entities/hatchCalculator.js:33-37 | a loop of two or more points ends within EPS of its start once closed; the loop is left as is exactly when it is short or already closed |
| HatchClip.CloseLoopIdempotent | src/entities/hatchCalculator.js:33-37 | closing a closed loop changes nothing |
| HatchClip.CloseLoops | src/entities/hatchCalculator.js:32-39 | every loop is closed on its own, and none is added or dropped |
| HatchClip.CrossingCount | src/entities/hatchCalculator.js:46-52 | at most one crossing per edge examined |
| HatchClip.ShortLoopContainsNothing | src/entities/hatchCalculator.js:44-54 | a loop of fewer than two points contains no point |
| HatchClip.Depth | src/entities/hatchCalculator.js:57-61 | the depth is at most the number of loops |
| HatchClip.DepthPositive | src/entities/hatchCalculator.js:57-61 | the depth is at least 1 exactly when some loop contains the point |
| HatchClip.EdgeCrossing | src/entities/hatchCalculator.js:84-90 | an edge yields a crossing exactly when it is not horizontal and straddles the line by the half-open rule |
| HatchClip.CrossingOnEdge | src/entities/hatchCalculator.js:88-89 | the crossing lies on the edge at parameter t in [0, 1], on the line, between the edge's x-coordinates |
| HatchClip.EdgeXs | src/entities/hatchCalculator.js:82-91 | at most one crossing per edge |
| HatchClip.Insert | src/entities/hatchCalculator.js:95 | inserting into a sorted list keeps it sorted and adds exactly the element |
| HatchClip.SortReals | src/entities/hatchCalculator.js:95 | the sort is ascending and a permutation of the crossings |
| HatchClip.SortedPermutationUnique | src/entities/hatchCalculator.js:95 | any ascending arrangement of the crossings is the same sequence, so the sort used does not matter |
| HatchClip.Dedup | src/entities/hatchCalculator.js:96-101 | de-duplication never lengthens the list and keeps the first crossing |
| HatchClip.DedupOfSorted | src/entities/hatchCalculator.js:96-101 | on sorted input the kept crossings increase strictly with gaps above 1e-7, each is a crossing, and the last does not exceed the largest |
| HatchClip.DedupMembers | src/entities/hatchCalculator.js:98-100 | every kept crossing is one of the crossings |
| HatchClip.DedupGaps | src/entities/hatchCalculator.js:96-101 | on sorted input the kept crossings increase strictly with wide gaps |
| HatchClip.Cuts | src/entities/hatchCalculator.js:114-116 | the cut list holds at least the two ends |
| HatchClip.OddSpans | src/entities/hatchCalculator.js:105-109 | the ODD_PARITY spans as a value: consecutive crossing pairs clamped to the line and kept when longer than EPS; OddSpansWellFormed states its meaning |
| HatchClip.OddSpansWellFormed | src/entities/hatchCalculator.js:105-109 | ODD_PARITY spans lie in [0, 1], are non-empty and come in order without overlap |
| HatchClip.InnerCutsSorted | src/entities/hatchCalculator.js:115 | the inner cuts keep the crossings' order and lie strictly inside (EPS, L - EPS) |
| HatchClip.CutsSorted | src/entities/hatchCalculator.js:114-116 | the cuts are sorted from 0 to L |
| HatchClip.DepthSpans | src/entities/hatchCalculator.js:117-130 | the OUTERMOST and THROUGH_ENTIRE_AREA spans as a value: the sub-intervals longer than EPS whose midpoint lies in some loop; DepthSpansWellFormed and DepthSpansKeepInside state its meaning |
| HatchClip.DepthSpansWellFormed | src/entities/hatchCalculator.js:117-130 | depth-rule spans lie in [0, 1], are non-empty and come in order without overlap |
| HatchClip.SpansOfWellFormed | src/entities/hatchCalculator.js:103-131 | whatever the style, the spans chosen are well formed |
| HatchClip.ClipSpans | src/entities/hatchCalculator.js:64-132 | `ClipLine` as a value: no spans for a line shorter than EPS or without crossings, else the spans of the style's rule; ClipSpansWellFormed states its meaning |
| HatchClip.ClipSpansWellFormed | src/entities/hatchCalculator.js:64-132 | every result satisfies 0 <= t0 < t1 <= 1 in order; a line shorter than EPS or without crossings gives no span |
| HatchClip.DepthSpansKeepInside | src/entities/hatchCalculator.js:117-130 | a sub-interval is kept exactly when it is longer than EPS and its midpoint lies in some loop, for OUTERMOST and THROUGH_ENTIRE_AREA alike |
| HatchClip.HatchCalculator.constructor | src/entities/hatchCalculator.js:30-41 | the loops are `loops \|\| []` with every loop closed, and the style defaults to ODD_PARITY |
| HatchClip.InLoop | src/entities/hatchCalculator.js:44-54 | `_pointInLoop` as a value: an odd number of edge crossings |
| HatchClip.HatchCalculator.PointInLoop | src/entities/hatchCalculator.js:44-54 | the toggling loop computes the even-odd test |
| HatchClip.HatchCalculator.DepthAt | src/entities/hatchCalculator.js:57-61 | the counting loop computes the depth |
| HatchClip.HatchCalculator.GatherCrossings | src/entities/hatchCalculator.js:80-92 | the crossings of all loops, loop by loop and edge by edge |
| HatchClip.HatchCalculator.LoopCrossings | src/entities/hatchCalculator.js:82-91 | the crossings of one loop's edges in edge order |
| HatchClip.HatchCalculator.DedupSorted | src/entities/hatchCalculator.js:96-101 | the `last`/`uniq` pass computes the de-duplication |
| HatchClip.HatchCalculator.PairSpans | src/entities/hatchCalculator.js:104-111 | the pairing loop computes the ODD_PARITY spans |
| HatchClip.HatchCalculator.DepthRuleSpans | src/entities/hatchCalculator.js:113-131 | the cut points, then each sub-interval kept by the depth at its midpoint |
| HatchClip.HatchCalculator.CutPoints | src/entities/hatchCalculator.js:114-116 | 0, the crossings strictly inside, then L |
| HatchClip.HatchCalculator.DepthTest | src/entities/hatchCalculator.js:117-130 | the sub-intervals are examined in order |
| HatchClip.HatchCalculator.ClipLine | src/entities/hatchCalculator.js:65-132 | the method computes the spans of the specification function, and they are well formed |
| HatchEntity.Edge.constructor | src/entities/hatchEntity.js:119-135 | a boundary edge holds its type, ends, curve, vertices, closed flag and points as given |
| HatchEntity.Plane | src/entities/hatchEntity.js:178-179 | each sampled curve point becomes the point (x, y, 0), one for one |
| HatchEntity.VisitedCount | src/entities/hatchEntity.js:120-121 | the loops visited never exceed the loops present |
| HatchEntity.EdgesOfPrefix | src/entities/hatchEntity.js:120-134 | the edges of the loops visited are edges of the boundary |
| HatchEntity.ConvertEdge | src/entities/hatchEntity.js:126-132 | an edge of a handled type gets its converted points; any other keeps its points |
| HatchEntity.ConvertLoop | src/entities/hatchEntity.js:122-133 | after one loop every edge of it is converted and earlier edges keep their conversion |
| HatchEntity.GetBoundaryPoints | src/entities/hatchEntity.js:119-135 | it throws exactly when `boundary.count` exceeds the loops present; the edges of the loops visited are converted and all others keep their points |
| HatchEntity.ConvertedRules | src/entities/hatchEntity.js:154-205 | a LINE gets its two end points at z = 0, a SPLINE an empty list, ARC and ELLIPSE their samples at z = 0, and any other type is left alone |
| HatchEntity.Slots | src/entities/hatchEntity.js:285-286 | a polyline's points are taken one for one |
| HatchEntity.Merged | src/entities/hatchEntity.js:277-301 | `_mergeLoopPoints` as a value: polyline points appended, other edges' points appended without a first point repeating the last one |
| HatchEntity.MergeLoopPoints | src/entities/hatchEntity.js:277-301 | the loop computes the merged chain of the specification function |
| HatchEntity.PushPoints | src/entities/hatchEntity.js:292-297 | an edge's points are appended, except a first point equal in x and y to the last one so far |
| HatchEntity.LineChainMerges | src/entities/hatchEntity.js:277-301 | a loop of LINE edges P0→P1, P1→P2, … merges into P0, P1, …, each shared corner once |
| HatchEntity.HolesOf | src/entities/hatchEntity.js:214-224 | the first pass of `_generateBoundary` as a value: the non-empty chains of the hole loops among the first k; HolesOfMeaning states its meaning |
| HatchEntity.HolesOfMeaning | src/entities/hatchEntity.js:214-224 | the holes are the non-empty chains of the loops with bit 16, one per such loop |
| HatchEntity.OuterPass | src/entities/hatchEntity.js:225-246 | the second pass of `_generateBoundary` as a value: a shape per outer loop with points, holding the holes not yet given out; OuterPassShape states its meaning |
| HatchEntity.OuterPassShape | src/entities/hatchEntity.js:225-246 | one shape per outer loop with points; the first takes every hole collected and later ones none |
| HatchEntity.BoundaryOf | src/entities/hatchEntity.js:207-261 | `_generateBoundary` as a value: the shapes of the two passes, or null when there are none; BoundaryOfShape states its meaning |
| HatchEntity.BoundaryOfShape | src/entities/hatchEntity.js:207-261 | the boundary is null exactly when no outer loop has points; otherwise the first shape holds all the holes |
| HatchEntity.TypesOf | src/entities/hatchEntity.js:217-228 | the loop types, in loop order |
| HatchEntity.ChainsOf | src/entities/hatchEntity.js:218-229 | each loop's merged chain, in loop order |
| HatchEntity.GenerateBoundary | src/entities/hatchEntity.js:207-261 | the two passes compute the boundary of the specification function |
| HatchEntity.CollectHoles | src/entities/hatchEntity.js:214-224 | the hole pass computes the holes of the specification function |
| HatchEntity.CollectShapes | src/entities/hatchEntity.js:225-246 | the outer pass computes the shapes of the specification function |
| HatchEntity.Mirrored | src/entities/hatchEntity.js:303-307 | the geometry is mirrored exactly when there is one and the extrusion z is negative |
| HatchEntity.DrawHatch | src/entities/hatchEntity.js:83-117 | it throws exactly when the loop count is too large; SOLID and PATTERN fills get the boundary, with the shape or the pattern material; other fills get neither |
| HatchEntity.RenderFlags | src/entities/hatchEntity.js:68-69 | a SOLID fill is drawn first at z = -0.1; every other fill at order 0 and z = 0 |
| LineEntity.Lift | src/entities/lineEntity.js:124-127 | every arc point of the generator becomes one Vector3 (x, y, 0), in order |
| LineEntity.PushArc | src/entities/lineEntity.js:125-127 | the arc loop appends exactly the lifted arc points after the points so far |
| LineEntity.PushSegment | src/entities/lineEntity.js:114-133 | one pass of the vertex loop appends the start vertex, the arc of a non-zero bulge and, on the last segment, the end vertex |
| LineEntity.PolyLinePointsSpec | src/entities/lineEntity.js:111-138 | `_getPolyLinePoints` as a value: the points of each vertex and bulge arc, and the first point again when closed |
| LineEntity.PolyLinePoints | src/entities/lineEntity.js:111-138 | `_getPolyLinePoints` yields the polyline point list of the specification function, closing it with the first point when closed |
| LineEntity.BodyLength | src/entities/lineEntity.js:114-133 | after k segments the list holds k start vertices, all arc points and the final vertex once the last segment is done |
| LineEntity.PolyLineLength | src/entities/lineEntity.js:111-138 | the point count is the vertex count plus all arc points plus one when closed; fewer than two vertices give no points, or the single missing first point when closed |
| LineEntity.AllFlatAppend | src/entities/lineEntity.js:119-126 | joining two lists of z = 0 points keeps every point at z = 0 |
| LineEntity.BodyFlat | src/entities/lineEntity.js:119-126 | every point emitted by the segment loop lies in the plane z = 0 |
| LineEntity.PolyLineEnds | src/entities/lineEntity.js:111-138 | the polyline starts at the first vertex and ends at the last vertex, or back at the first when closed, all at z = 0 |
| LineEntity.BodyFacts | src/entities/lineEntity.js:114-133 | the open point list starts at the first vertex, ends at the last and is flat |
| LineEntity.BodyEnd | src/entities/lineEntity.js:130-132 | the last point pushed is the last vertex |
| LineEntity.BodyStart | src/entities/lineEntity.js:122 | the first point pushed is the first vertex |
| LineEntity.BodyNoBulge | src/entities/lineEntity.js:114-133 | without bulges the segment loop emits exactly the vertices in order |
| LineEntity.PolyLineNoBulge | src/entities/lineEntity.js:111-138 | an open polyline without bulges is exactly its vertex list at z = 0 |
| LineEntity.BodyIgnoresLastBulge | src/entities/lineEntity.js:118 | the segment loop reads the bulge only of vertices that start a segment |
| LineEntity.LastBulgeIgnored | src/entities/lineEntity.js:114-118 | changing the bulge of the last vertex never changes the points |
| LineEntity.LineTypeFor | src/entities/lineEntity.js:95-100 | the line type is dashed exactly when a non-empty line type name names a table entry with a non-empty pattern, else plain |
| LineEntity.DrawLinePoints | src/entities/lineEntity.js:67-86 | a LINE is the two points start and end with the index [0, 1] |
| LineEntity.DrawPolyLine | src/entities/lineEntity.js:93-109 | a polyline's geometry is its point list with the consecutive-pair index of its length |
| SplineEntity.Breaks | src/entities/splineEntity.js:91-98 | the segment breakpoints start with the knot at the degree |
| SplineEntity.BreaksShape | src/entities/splineEntity.js:94-98 | consecutive breakpoints differ, each is one of the knots scanned and the last is the last knot scanned |
| SplineEntity.BreaksIncrease | src/entities/splineEntity.js:94-98 | over a non-decreasing knot vector the breakpoints strictly increase |
| SplineEntity.IncreasingAppend | src/entities/splineEntity.js:95-96 | pushing a knot greater than the last breakpoint keeps the breakpoints strictly increasing |
| SplineEntity.SegmentTsSpanDomain | src/entities/splineEntity.js:91-98 | the breakpoints run strictly increasing from the start of the domain to its end |
| SplineEntity.Param | src/entities/splineEntity.js:107-109 | the clamped parameter lies in [0, 1], equals the plain quotient inside the domain, and is NaN only for a zero-width domain hit exactly |
| SplineEntity.UnitQuotient | src/entities/splineEntity.js:107-109 | a quotient of a value in [0, d] by d lies in [0, 1] |
| SplineEntity.Interpolations | src/entities/splineEntity.js:100 | the samples per segment default to 25 and are always positive; a positive argument is kept |
| SplineEntity.RowLength | src/entities/splineEntity.js:104-112 | the inner loop emits k points after k passes |
| SplineEntity.RowsLength | src/entities/splineEntity.js:101-113 | m breakpoints give (m - 1)(n + 1) points |
| SplineEntity.PolylineLength | src/entities/splineEntity.js:85-115 | the polyline has (breakpoints - 1) times (samples + 1) points |
| SplineEntity.RowSamples | src/entities/splineEntity.js:104-112 | each point of a segment is the curve at the clamped parameter of its sample, and the samples run from uMin to uMax |
| SplineEntity.SampleEnds | src/entities/splineEntity.js:105 | the first sample of a segment is uMin and the last is uMax |
| SplineEntity.RowSamplesAt | src/entities/splineEntity.js:104-112 | the j-th point of a segment is the curve evaluated at the clamped parameter of sample j, lifted to z = 0 |
| SplineEntity.BSplinePolylineSpec | src/entities/splineEntity.js:85-115 | `_getBSplinePolyline` as a value: per breakpoint segment, the curve at the clamped parameter of each sample; PolylineLength and RowSamplesAt state its meaning |
| SplineEntity.GetBSplinePolyline | src/entities/splineEntity.js:85-115 | `_getBSplinePolyline` builds the polyline of the specification function |
| SplineEntity.DrawSpline | src/entities/splineEntity.js:66-83 | a spline's geometry is its polyline with 25 samples per segment, the consecutive-pair index and the line type of its name |
| SolidEntity.RotateLast | src/entities/solidEntity.js:69-70 | moving the last corner to the front keeps the corner count; no corners give one missing point |
| SolidEntity.Slots | src/entities/solidEntity.js:69 | each corner maps to one point, in order |
| SolidEntity.RotateLastMeaning | src/entities/solidEntity.js:69-70 | the outline is the corners rotated right by one: it starts at the last corner, holds the others in order, and is a permutation of the corners |
| SolidEntity.ReorderCorners | src/entities/solidEntity.js:69-70 | the splice of the popped corner at the front gives the rotated corner list |
| SolidEntity.MirrorX | src/entities/solidEntity.js:83 | scaling by (-1, 1, 1) negates x of every point and keeps y and z |
| SolidEntity.MirrorXInvolution | src/entities/solidEntity.js:83 | mirroring twice gives back the outline |
| SolidEntity.ExtrusionTransform | src/entities/solidEntity.js:81-85 | a negative extrusion z mirrors the outline; otherwise it is unchanged |
| SolidEntity.DrawSolid | src/entities/solidEntity.js:65-79 | a solid's outline is its rotated corners, mirrored when the extrusion z is negative |
| BaseColor.ColorRowsShape | src/entities/baseEntity/baseColor.js:59-316 | the colour table has the 256 entries of the switch, 32 rows of 8 |
| BaseColor.IndexColor | src/entities/baseEntity/baseColor.js:59-319 | a colour number outside 0..255 gives white (the fall-through default) |
| BaseColor.GetColorHex | src/entities/baseEntity/baseColor.js:53-320 | the colour is always a 24-bit RGB value |
| BaseColor.ColorTableExamples | src/entities/baseEntity/baseColor.js:59-319 | index 0 is black, 1 red, 7 white, 250 is 0x333333, 255 white, and 256 and -1 fall back to white |
| BaseColor.FillColorWins | src/entities/baseEntity/baseColor.js:54 | a non-zero fill colour decides the colour |
| BaseColor.ByLayerColor | src/entities/baseEntity/baseColor.js:54-58 | with neither a fill colour nor an own colour number the entity takes its layer's colour number, white when the layer has none |
| BaseColor.OwnColor | src/entities/baseEntity/baseColor.js:54-59 | without a fill colour a non-zero own colour number decides the colour |
| BaseColor.ByLayerOnParsedTable | src/entities/baseEntity/baseColor.js:55-57 | on the layer table as the layer helper rewrites it (no colorNumber field) a BYLAYER entity always comes out white |
| BaseColor.MaxLength | src/entities/baseEntity/baseColor.js:45 | `Math.max` of the pattern lengths is NaN exactly when a length is missing, and otherwise is an element no less than every element |
| BaseColor.DashedSizes | src/entities/baseEntity/baseColor.js:39-51 | an unknown or empty line type name throws; a non-empty pattern gives gap = element count and dash = the greatest length (never 0, which becomes 4); otherwise 4 and 4 |
| BaseColor.GapIsElementCount | src/entities/baseEntity/baseColor.js:46 | the gap size counts pattern elements, not the negative (gap) ones |
| BaseColor.Material.constructor | src/entities/baseEntity/baseColor.js:28-33 | a material holds its kind, colour and name |
| BaseColor.MaterialKeySeparatesColors | src/entities/baseEntity/baseColor.js:25 | equal keys under the same line type name and material type mean equal colours |
| BaseColor.MaterialCache.constructor | src/entities/baseEntity/baseColor.js:4 | the material cache starts empty |
| BaseColor.MaterialCache.GetMaterial | src/entities/baseEntity/baseColor.js:23-37 | a key present returns the stored material and changes nothing; a failing dashed material throws and stores nothing; else a fresh material of the kind the type names, with the entity's colour and the key as name, is stored under the key |
| LayerHelper.ParseFlags | src/entities/baseEntity/layerHelper.js:37-57 | frozen exactly for an odd (or non-numeric) flag other than 0, locked exactly for 4..15, 20, 36 and 52, dependent exactly for 16..63, each at most once and in that order |
| LayerHelper.FlagsAreRangesNotBits | src/entities/baseEntity/layerHelper.js:52-54 | 68 has bit 4 set yet yields no flags, and 28 yields only dependent |
| LayerHelper.FlagExamples | src/entities/baseEntity/layerHelper.js:48-56 | 5 is frozen and locked, 64 and 0 give no flags, an undefined flag is frozen |
| LayerHelper.IsVisible | src/entities/baseEntity/layerHelper.js:65-70 | a layer is hidden exactly when its colour number is negative or its plot field is present and false |
| LayerHelper.Parse | src/entities/baseEntity/layerHelper.js:11-30 | every layer key is kept and nothing is added; each record keeps name, line type and weight, and gets the colour, visibility and flags of the rules above |
| BaseEntity.ParseLayerFlags | src/entities/baseEntity/baseEntity.js:40-60 | the same three flag rules over JavaScript values, where a non-numeric flag is NaN |
| BaseEntity.ParseFlagsAgree | src/entities/baseEntity/baseEntity.js:40-60 | on numbers and undefined the entity's flag parser and the layer helper's agree |
| BaseEntity.HideEntity | src/entities/baseEntity/baseEntity.js:20-38 | hidden exactly when the entity itself is invisible, in another space or of line type HIDDEN, or its layer is present and has a negative colour, plot false, or a frozen or locked flag that the settings do not show |
| BaseEntity.NumericPaperSpaceHides | src/entities/baseEntity/baseEntity.js:24 | a numeric paperSpace never equals the boolean setting, so the entity is hidden |
| BaseEntity.HideOnParsedLayers | src/entities/baseEntity/baseEntity.js:27-35 | on the parsed layer table the layer hides an entity only when it has some flag and frozen layers are not shown |
| BaseEntity.HideEntityParsedMeaning | src/entities/baseEntity/baseEntity.js:27-35 | the corrected test reading the parsed flags list hides by the raw layer's frozen and locked rules |
| BaseEntity.LockedLayerHidden | src/entities/baseEntity/baseEntity.js:33-35 | a locked layer (flag 4) in the parsed table hides its entities under the default settings, because its flags list, read as a number, is NaN and so counts as frozen; the corrected test shows them |
| BaseEntity.FirstNamed | src/entities/baseEntity/baseEntity.js:63-68 | the index found names the block and no earlier block does; none when no block has the name |
| BaseEntity.GetBlock | src/entities/baseEntity/baseEntity.js:63-68 | `_getBlock` returns the first block with the name, or null when there is none |
| TextEntity.Resolve | src/entities/textEntity.js:71-76 | the record drawn is never an ATTRIB; a TEXT or MTEXT record draws itself; a missing part throws |
| TextEntity.AttribDispatch | src/entities/textEntity.js:71-76 | an ATTRIB whose `mtext` has properties draws it; with an empty `mtext` it draws its `text`; an undefined `mtext` throws |
| TextEntity.TextHeight | src/entities/textEntity.js:116-124 | the nominal height when defined, else the text height when defined, else 12 |
| TextEntity.ScaleFactor | src/entities/textEntity.js:132-133 | no target size gives factor 1; a target over a zero extent gives no finite factor |
| TextEntity.ScaleFactorReachesTarget | src/entities/textEntity.js:132-135 | scaling the measured extent by the factor gives exactly the target width or height |
| TextEntity.GetContent | src/entities/textEntity.js:140-156 | `getContent` returns the pieces of the specification function: a newline before each paragraph run, each string, and a nested array for each nested run list |
| TextEntity.PushRun | src/entities/textEntity.js:144-152 | one pass of the loop pushes the pieces of that run |
| TextEntity.TwoRuns | src/entities/textEntity.js:140-156 | two plain runs give their two strings, whose intended text is their concatenation |
| TextEntity.OneRun | src/entities/textEntity.js:147-148 | a plain run gives its string alone |
| TextEntity.NestedRunsGetCommas | src/entities/textEntity.js:100 | joining with '' turns a nested array into comma-separated text: runs a, {b, c} give "ab,c" where "abc" is meant |
| TextEntity.JoinEmptySnoc | src/entities/textEntity.js:100 | joining with '' extends the join of a prefix by the last piece's text |
| TextEntity.JoinEmptyAppend | src/entities/textEntity.js:100 | joining with '' distributes over concatenation |
| TextEntity.FlatRunsAgree | src/entities/textEntity.js:97-100 | without nested runs the string as written equals the intended flat text |
| TextEntity.TextAsWritten | src/entities/textEntity.js:97-100 | `strings.join('')` on the strings as the code builds them, nested arrays printed with commas; NestedRunsGetCommas shows where it differs from GetTextString |
| TextEntity.GetTextString | src/entities/textEntity.js:97-100 | the corrected string builder yields the flat text of all runs, nested ones included, in document order |
| TextEntity.GetRunText | src/entities/textEntity.js:144-152 | one run contributes its newline (for paragraphs) and its text, nested runs flattened |
| TextEntity.TranslateCenterAsWritten | src/entities/textEntity.js:201-255 | the text is moved exactly for attachment points 1 to 9; for 8 and 9 the y offset is the box bottom itself |
| TextEntity.TranslateCenter | src/entities/textEntity.js:201-255 | the corrected translation also applies exactly for attachment points 1 to 9 |
| TextEntity.TranslateCenterAnchors | src/entities/textEntity.js:217-254 | after the corrected translation the box point the attachment point names (left/centre/right, top/middle/bottom) lies on the insertion point |
| TextEntity.TranslateCenterBottomAsWritten | src/entities/textEntity.js:246-253 | points 1 to 7 agree with the corrected rule, but a bottom-centre text whose bottom is at y = 10 under an insertion point at y = 10 ends at y = 20 |
| TextEntity.ReplaceSpecialChars | src/entities/textEntity.js:257-264 | the substitutions never lengthen the string |
| TextEntity.PlainTextUnchanged | src/entities/textEntity.js:257-264 | a string without backslash or percent sign is unchanged |
| TextEntity.NoBreakCodesLeft | src/entities/textEntity.js:258-259 | no paragraph or column code survives |
| TextEntity.ReplaceAllAbsent | src/entities/textEntity.js:257-264 | replacing a pattern whose first character does not occur changes nothing |
| TextEntity.ReplaceAllPrefix | src/entities/textEntity.js:258-259 | a prefix of a replaced string either holds the replacement character or is the original prefix |
| TextEntity.NotContainsSuffix | src/entities/textEntity.js:258-259 | a string without the pattern has no suffix with it |
| TextEntity.NoNewOccurrence | src/entities/textEntity.js:258-259 | replacing a pattern by a character that a code does not contain never creates that code, and removes it when it is the pattern |
| TextEntity.DrawCached | src/entities/textEntity.js:39-51 | a cached drawing is reused and nothing is stored; a new drawing is stored under the next key only when no text hook is set |
| BlockEntity.LookupBlock | src/entities/blockEntity.js:112 | a nested INSERT uses its attached block when there is one, else a block of the drawing carrying the INSERT's block name |
| BlockEntity.ChildSpec | src/entities/blockEntity.js:40-158 | one entity adds at most one object; a hidden entity and POINT, ATTDEF, DIMENSION or unknown types add none; a visible entity whose own drawer (`drawLine`, `drawText`, `drawHatch`, …) throws makes the child throw that error |
| BlockEntity.ChildrenSpec | src/entities/blockEntity.js:40-159 | the children the first k entities add, in order, or the first error a child throws; ChildrenErrStays, ChildrenAtMostOnePerEntity and PlainBlockChildren state its meaning |
| BlockEntity.DrawBlockSpec | src/entities/blockEntity.js:33-162 | `drawBlock` as a value: the group placed at the negated base point holding the children of all entities, or the first error; ChildErrorAbortsBlock and SelfInsertOverflows state its meaning |
| BlockEntity.DrawBlock | src/entities/blockEntity.js:33-162 | `drawBlock` builds the group of the specification function: placed at the negated base point, with the children of the entities in order, or the first error a child throws, a drawer's exception or the stack overflow of a nested block |
| BlockEntity.DrawChild | src/entities/blockEntity.js:41-158 | the switch over one entity's type adds what the per-entity rule says: the error its drawer throws, a line object, a mesh, a scaled and rotated nested group for a found, non-empty, visible block, a hatch object with its render order and z only when its geometry exists |
| BlockEntity.ChildErrorAbortsBlock | src/entities/blockEntity.js:40-159 | an entity whose drawing throws, at any position, makes the whole block drawing throw |
| BlockEntity.DrawerErrorPropagates | src/entities/blockEntity.js:40-159 | a visible entity whose own drawer throws makes the block throw that error when nothing before it failed |
| BlockEntity.TextDrawn | src/entities/textEntity.js:69-93 | the outcome of `drawText` for one record throws exactly when the record cannot be resolved |
| BlockEntity.AttribWithoutTextAbortsBlock | src/entities/blockEntity.js:101-110 | a visible ATTRIB without its `mtext` inside a block makes the whole block throw |
| BlockEntity.ChildrenErrStays | src/entities/blockEntity.js:40-159 | once a child throws, the whole block drawing throws with that error |
| BlockEntity.ChildrenAtMostOnePerEntity | src/entities/blockEntity.js:40-159 | a block never has more children than entities |
| BlockEntity.PlainBlockChildren | src/entities/blockEntity.js:46-110 | a block of visible line and mesh entities gets exactly one object per entity, in order and of the matching kind |
| BlockEntity.PaperSpaceNotInserted | src/entities/blockEntity.js:171-174 | an INSERT of a block whose name starts with "*paper_space" in any case adds nothing |
| BlockEntity.NestedZeroScaleIsOne | src/entities/blockEntity.js:118-120 | inside a block a zero scale factor is falsy and becomes 1 |
| BlockEntity.SelfInsertOverflows | src/entities/blockEntity.js:111-115 | a visible block whose only entity inserts the block itself never finishes drawing: it always ends in a stack overflow |
| InsertEntity.InsertRecord.constructor | src/entities/insertEntity.js:28 | an INSERT record holds its attached block, block name, scale, rotation, position, visibility fields and cache stamp as given |
| InsertEntity.BlockNamed | src/entities/insertEntity.js:36 | a block found by name has that name and is one of the drawing's blocks |
| InsertEntity.Attached | src/entities/insertEntity.js:32-38 | an attached block is kept; otherwise the block found by name is attached, or nothing |
| InsertEntity.AttachedIdempotent | src/entities/insertEntity.js:32-38 | attaching blocks a second time changes nothing |
| InsertEntity.AttachBlocks | src/entities/insertEntity.js:31-38 | after the first loop every INSERT holds the block attachment gives it |
| InsertEntity.InsertSpec | src/entities/insertEntity.js:58-88 | a drawn INSERT keeps every defined scale factor (0 included, 1 when undefined) and its position; a missing or hidden block gives null |
| InsertEntity.TopLevelZeroScaleKept | src/entities/insertEntity.js:63-65 | a zero scale factor stays 0 at the top level although it becomes 1 inside a block |
| InsertEntity.DrawInsert | src/entities/insertEntity.js:58-88 | a cached group is returned and nothing changes; otherwise the group (or null) of the specification function is returned and, unless it throws, stored under the next cache key and stamped on the entity |
| InsertEntity.InsertSpecOf | src/entities/insertEntity.js:58-88 | what `drawInsert` gives for one INSERT record, from its attached block, scale, rotation and position |
| InsertEntity.GroupsStep | src/entities/insertEntity.js:42-48 | one pass of the second loop of `draw` as a value: a hidden INSERT or a null drawing leaves the groups, a group is appended, a throw ends the loop |
| InsertEntity.GroupsOf | src/entities/insertEntity.js:40-48 | the second loop of `draw` as a value over the first k INSERTs: hidden ones skipped, null results skipped, the rest in order, or the first error |
| InsertEntity.GroupsOfMeaning | src/entities/insertEntity.js:40-48 | the loop throws exactly when some visible INSERT's drawing throws; otherwise it holds at most one group per INSERT, each the drawing of a visible INSERT |
| InsertEntity.GroupsOfErrStays | src/entities/insertEntity.js:40-48 | once an INSERT throws, the loop's result is that error whatever follows |
| InsertEntity.DrawStep | src/entities/insertEntity.js:42-48 | one pass draws a visible INSERT through `drawInsert`: the groups so far are kept as a prefix and grow by at most one; a throw comes only from a visible INSERT whose drawing throws; without the cache the pass is the specification `GroupsStep` |
| InsertEntity.DrawVisible | src/entities/insertEntity.js:40-48 | the second loop computes the groups of the specification `GroupsOf` without a cache; a throw comes from a visible INSERT whose drawing throws |
| InsertEntity.Draw | src/entities/insertEntity.js:23-51 | no INSERTs give null; otherwise every INSERT gets its block attached; without the cache the result is the specification `GroupsOf`: the drawings of the visible INSERTs that are not null, in order, or the first error one of them throws; any error comes from a visible INSERT whose drawing throws |
| Merger.KeptMeaning | src/utils/merger.js:131-132 | the children that stay are not mergeable and hold nothing mergeable below them |
| Merger.PrunedMeaning | src/utils/merger.js:61-133 | after the traversal nothing below the root is mergeable: every merged node has left its parent |
| Merger.OrderVisitsAll | src/utils/merger.js:196-204 | `_removableTraverse` calls the callback once per node of the tree |
| Merger.OrderRevVisitsAll | src/utils/merger.js:199-201 | walking a child list from its end visits every node of every child once |
| Merger.Zeros | src/utils/merger.js:80 | a fresh Float32Array of n entries holds n zeros |
| Merger.SlotInRange | src/utils/merger.js:87-90 | the x and y of uv i lie inside the attribute's array |
| Merger.XYPrefixMeaning | src/utils/merger.js:86-90 | after n passes the new uv holds, at 2i and 2i+1, the x and y of the old uv i |
| Merger.XY | src/utils/merger.js:85-93 | the narrowed uv has two numbers per vertex: the x and y of each old uv, in order |
| Merger.FixedUv | src/utils/merger.js:78-93 | a missing uv becomes zeros, two per vertex; a uv with more than two components is narrowed to its x and y; any other is kept |
| Merger.FixUv | src/utils/merger.js:78-93 | the uv fix-up produces the uv of the specification function |
| Merger.CopyXY | src/utils/merger.js:86-90 | the copy loop builds the narrowed uv |
| Merger.LinePairs | src/utils/merger.js:176-186 | n positions give 2(n - 1) indices, the pairs (i - 1, i) in order, stored as 16-bit unsigned values |
| Merger.LinePairsChain | src/utils/merger.js:179-184 | up to 65536 positions every index is a position and each pair joins consecutive positions |
| Merger.SmallMod | src/utils/merger.js:185 | an index below 65536 survives the Uint16Array unchanged |
| Merger.IndexLineGeometry | src/utils/merger.js:176-186 | `_indexLineGeometry` builds the segment index of the specification function |
| Merger.FindGroupSpec | src/utils/merger.js:189-194 | the group found is the first with the material; none when no group has it |
| Merger.FindGroup | src/utils/merger.js:189-194 | the search loop finds that first group |
| Merger.GeomCountAppend | src/utils/merger.js:119-128 | the geometries of two group lists add up |
| Merger.GeomCountUpdate | src/utils/merger.js:128 | replacing one group changes the geometry count by the difference of its sizes |
| Merger.AddToGroupsMeaning | src/utils/merger.js:119-128 | adding a geometry keeps the groups' materials distinct and in place, puts the geometry into the group of its material, and adds exactly one geometry |
| Merger.Step | src/utils/merger.js:61-133 | one call of the traverse callback on the lists: a mergeable mesh or line adds its record, its geometry to the group of its material and its uuid to the changed ones; FoldMeaning states its meaning |
| Merger.Fold | src/utils/merger.js:61-133 | the callback run over the nodes in visiting order; FoldAppend, FoldMeaning, FoldGroups and FoldLists state its meaning |
| Merger.FoldAppend | src/utils/merger.js:61-133 | running the callback over two visit sequences is running it over their concatenation |
| Merger.FoldMeaning | src/utils/merger.js:61-133 | every merged node adds its record to its family's list in visiting order and one geometry to its family's groups, whose materials stay distinct |
| Merger.FoldGroups | src/utils/merger.js:116-128 | the groups keep distinct materials and gain one geometry per record |
| Merger.FoldLists | src/utils/merger.js:95-116 | the record lists and the changed geometries grow by the merged nodes in visiting order |
| Merger.CloneStillTouchesLines | src/utils/merger.js:67-105 | with clone on, the own geometry of exactly the merged lines is still changed |
| Merger.Batch.constructor | src/utils/merger.js:49-52 | the lists start empty |
| Merger.Batch.Visit | src/utils/merger.js:61-133 | one call of the callback updates the lists by one step of the specification and detaches the node exactly when it is mergeable |
| Merger.RemovableTraverse | src/utils/merger.js:196-204 | the traversal visits the nodes in the order of the specification, leaves the pruned tree and reports whether the root itself is mergeable |
| Merger.Cleaned | src/utils/merger.js:168-174 | `_removeEmptyGroups` as a value: children cleaned first, then dropped when they are groups left empty; CleanedMeaning states its meaning |
| Merger.CleanedAllMeaning | src/utils/merger.js:168-174 | no child left is an empty group or holds one, and the cleaning brings back nothing mergeable |
| Merger.CleanedMeaning | src/utils/merger.js:168-174 | after `_removeEmptyGroups` no group below the root is empty, the root is kept, and nothing mergeable reappears |
| Merger.RemoveEmptyGroups | src/utils/merger.js:168-174 | the backwards recursive loop yields the cleaned tree |
| Merger.MaterialsOf | src/utils/merger.js:154 | the material list has one material per group, in group order |
| Merger.PartsOf | src/utils/merger.js:158 | each group's geometries form one part of the merged geometry, in group order |
| Merger.Merge | src/utils/merger.js:20-33 | `merge` returns the pruned and cleaned tree, a merged mesh and a merged line built from the callback's final lists (absent when a family collected nothing), and the nodes whose own geometry changed |
| Merger.MergeMeaning | src/utils/merger.js:20-33 | after a merge nothing mergeable and no empty group is left below the root; each family's records are its merged nodes in visiting order and its groups hold one geometry per record under distinct materials; with clone only the lines' own geometries change |
| SnapsIndex.AllVertices | src/tools/snaps.js:95-102 | a mesh contributes one snap per vertex, in order, each naming the mesh |
| SnapsIndex.TwoSnapsPerLine | src/tools/snaps.js:69-106 | as `process` calls it, the collection gives exactly two snaps per line or line-segments object and none for meshes |
| SnapsIndex.TwoSnapsPerLineOne | src/tools/snaps.js:74-91 | a line's own snaps are its first and last vertex, taken before its children's; any other object only passes on its children's snaps |
| SnapsIndex.Union | src/tools/snaps.js:146-148 | one size step: an empty box changes nothing, and two finite boxes give a finite box |
| SnapsIndex.SizeOfMeaning | src/tools/snaps.js:144-150 | the size holds the starting box and every object's box, and is empty only when all of them are |
| SnapsIndex.WithinTrans | src/tools/snaps.js:144-150 | box containment is transitive |
| SnapsIndex.VHShape | src/tools/snaps.js:115-125 | the innermost loop makes one voxel per h, each cut again at the next count |
| SnapsIndex.VJShape | src/tools/snaps.js:114-126 | the middle loop makes count voxels per j |
| SnapsIndex.VIShape | src/tools/snaps.js:113-127 | the outer loop makes count² voxels per i, each cut again at the next count |
| SnapsIndex.Voxels | src/tools/snaps.js:108-129 | `_generateVoxels` as a value: the count³ sub-boxes in (i, j, h) order, each cut again, or none at count 5; VoxelsShape states its meaning |
| SnapsIndex.VoxelsShape | src/tools/snaps.js:108-129 | count 5 gives no voxels; below it count³ voxels, one for every (i, j, h), each cut again at count + 1 |
| SnapsIndex.GenerateVoxels | src/tools/snaps.js:108-129 | `_generateVoxels` builds the voxel list of the specification function |
| SnapsIndex.CutRow | src/tools/snaps.js:114-126 | the j-loop for one i builds that row of voxels |
| SnapsIndex.CutColumn | src/tools/snaps.js:115-125 | the h-loop for one i and j builds that column of voxels |
| SnapsIndex.MulMono | src/tools/snaps.js:118-119 | scaling by a non-negative step keeps order |
| SnapsIndex.FloorBounds | src/tools/snaps.js:118-119 | a real lies between its floor and the floor plus one |
| SnapsIndex.ScaleBetween | src/tools/snaps.js:118-119 | a scaled value between a and b lies between the scaled a and b |
| SnapsIndex.CoverUnit | src/tools/snaps.js:113-119 | every offset in [0, w] lies in one of the count steps of width w/count |
| SnapsIndex.Cover1D | src/tools/snaps.js:118-119 | every coordinate in [lo, hi] lies in one of the cuts along that axis |
| SnapsIndex.CutsCover | src/tools/snaps.js:113-127 | the cuts of a box cover it: every point of the box lies in some voxel (i, j, h) |
| SnapsIndex.CutsInside | src/tools/snaps.js:118-119 | every voxel lies inside the box it was cut from |
| SnapsIndex.Inside1D | src/tools/snaps.js:118-119 | every cut along an axis lies inside [lo, hi] |
| SnapsIndex.FirstContaining | src/tools/snaps.js:132-140 | the voxel chosen is the first whose closed box contains the point; none when no box does |
| SnapsIndex.FramesOfAt | src/tools/snaps.js:131-142 | the frame of a voxel list is the frame of each voxel |
| SnapsIndex.FramesEqual | src/tools/snaps.js:131-142 | lists with equal frames have equal frame lists |
| SnapsIndex.SnapCountUpdate | src/tools/snaps.js:137 | replacing one voxel changes the snap count by the difference |
| SnapsIndex.AddPoint | src/tools/snaps.js:131-142 | `_addPointToVoxel` as a value: the snap goes into the first containing voxel, down to a leaf, or is dropped; AddPointMeaning, AddPointKeepsRoutes and AddThenFind state its meaning |
| SnapsIndex.AddPointMeaning | src/tools/snaps.js:131-142 | adding a point never changes the voxel tree's shape, names or boxes, and adds exactly one snap when the point reaches a leaf and none otherwise |
| SnapsIndex.AddPointKeepsRoutes | src/tools/snaps.js:131-142 | adding a point does not change where any later point goes |
| SnapsIndex.SameBoxesSameFirst | src/tools/snaps.js:132-136 | the voxel chosen depends only on the boxes |
| SnapsIndex.InsideIsStored | src/tools/snaps.js:131-142 | a point inside a freshly cut box always reaches a leaf |
| SnapsIndex.Round6 | src/tools/snaps.js:48-52 | `Number(x.toFixed(6))` as exact decimal rounding, halves away from zero, the number itself from 1e21 on; Round6Idempotent states its meaning |
| SnapsIndex.Round6Idempotent | src/tools/snaps.js:48-52 | rounding to six decimals twice is rounding once |
| SnapsIndex.FindVoxelIn | src/tools/snaps.js:46-67 | a voxel found is a leaf whose box contains the rounded point |
| SnapsIndex.AddThenFind | src/tools/snaps.js:46-67 | a point with at most six decimals, once added, is found in the leaf it went to, holding what that leaf held before plus the new snap |
| SnapsIndex.Snaps.constructor | src/tools/snaps.js:9-19 | a new index has no snaps, an empty size and no voxel |
| SnapsIndex.Snaps.Process | src/tools/snaps.js:25-40 | `process` appends the lines' snaps, grows the size to the objects' boxes, rebuilds the root voxel and adds every snap collected so far; after `clear` it throws once the snaps are collected |
| SnapsIndex.Snaps.FindVoxel | src/tools/snaps.js:46-67 | `findVoxel` returns the leaf of the specification function, and throws before any `process` |
| SnapsIndex.Snaps.Clear | src/tools/snaps.js:155-160 | `clear` empties the snaps and drops the size and the voxel |
| SnapsHelperTool.SqDist | src/utils/snapsHelper.js:83 | a squared distance is never negative |
| SnapsHelperTool.SquaresKeepOrder | src/utils/snapsHelper.js:84 | comparing two distances decides the same as comparing their squares |
| SnapsHelperTool.SquareSteps | src/utils/snapsHelper.js:84 | squaring is increasing on non-negative reals |
| SnapsHelperTool.WithinRadiusBySquares | src/utils/snapsHelper.js:61 | a distance is below 5 exactly when its square is below 25 |
| SnapsHelperTool.NearestIdx | src/utils/snapsHelper.js:81-88 | the running minimum is one of the snaps seen so far and has a point |
| SnapsHelperTool.NearestIdxMeaning | src/utils/snapsHelper.js:81-88 | no snap is taken exactly when none has a point; the one taken is no farther than any snap seen and strictly nearer than every earlier one |
| SnapsHelperTool.NearestOf | src/utils/snapsHelper.js:79-90 | `_findNearestSnapPoint` as a value: the first snap of least distance among those with a point, or none at infinite distance; NearestOfMeaning states its meaning |
| SnapsHelperTool.NearestOfMeaning | src/utils/snapsHelper.js:79-90 | `_findNearestSnapPoint` gives no snap and infinite distance when no snap has a point, else a snap of the voxel at least distance, the earliest on ties |
| SnapsHelperTool.FindNearestSnapPoint | src/utils/snapsHelper.js:79-90 | the loop keeping the running minimum returns the nearest snap of the specification function |
| SnapsHelperTool.MoveActionOf | src/utils/snapsHelper.js:55-67 | what `_mouseMove` does once the voxel lookup answers: nothing, hide the marker, or snap to a point within 5 units; MoveActionMeaning states its meaning |
| SnapsHelperTool.MoveActionMeaning | src/utils/snapsHelper.js:55-67 | nothing happens exactly when no voxel is found; the mouse snaps exactly when the voxel holds a point closer than 5, and then to the nearest |
| SnapsHelperTool.SnapsHelper.constructor | src/utils/snapsHelper.js:19-43 | the helper holds the processed index and no marker yet |
| SnapsHelperTool.SnapsHelper.HideSnapSquare | src/utils/snapsHelper.js:92-94 | hiding keeps the marker's position and makes it invisible; no marker stays no marker |
| SnapsHelperTool.SnapsHelper.ShowSnapSquare | src/utils/snapsHelper.js:96-109 | showing leaves a visible marker at the snap point, creating it on first use |
| SnapsHelperTool.SnapsHelper.MouseMove | src/utils/snapsHelper.js:50-69 | without an index the position is unchanged; before a `process` the lookup throws; otherwise no voxel leaves everything, no near snap hides the marker, and a snap within 5 moves the position and the marker to the nearest snap point |
| EventRegistry.FindRecord | src/tools/eventEmitter.js:8-10 | `find` returns the first record with the event name, or none when no record has it |
| EventRegistry.IndexOf | src/tools/eventEmitter.js:25 | `indexOf` gives the first position of the callback, or -1 exactly when it is absent |
| EventRegistry.RemoveFirst | src/tools/eventEmitter.js:25-28 | `indexOf` then `splice(index, 1)` as a value; RemoveFirstMeaning states its meaning |
| EventRegistry.RemoveFirstMeaning | src/tools/eventEmitter.js:25-28 | removing a callback absent from the list changes nothing; otherwise exactly its first occurrence goes and the rest keep their order |
| EventRegistry.LookupAfterUpdate | src/tools/eventEmitter.js:13 | replacing one record's list changes the callbacks of that name only |
| EventRegistry.FindSameNames | src/tools/eventEmitter.js:8-10 | the record found for a name is the same in two registries that agree on the records of that name |
| EventRegistry.LookupAfterDelete | src/tools/eventEmitter.js:30-33 | deleting a record leaves its name with no callbacks and the other names unchanged |
| EventRegistry.LookupAfterAppend | src/tools/eventEmitter.js:15 | appending a record for a new name gives that name its callbacks and leaves the others unchanged |
| EventRegistry.Subscribed | src/tools/eventEmitter.js:7-17 | the registry after `subscribe`: the callback joins the end of the name's list, or a new record for the name joins the end; SubscribedMeaning states its meaning |
| EventRegistry.SubscribedMeaning | src/tools/eventEmitter.js:7-17 | subscribing keeps one record per name and none empty, appends the callback to that name's list, leaves the other names alone, and adds a record exactly when the name was new |
| EventRegistry.Unsubscribed | src/tools/eventEmitter.js:19-36 | the registry after `unSubscribe`: the first occurrence of the callback leaves the name's list, and an emptied list takes its record with it; UnsubscribedMeaning states its meaning |
| EventRegistry.UnsubscribedMeaning | src/tools/eventEmitter.js:19-36 | unsubscribing keeps the registry valid, removes the first occurrence of the callback from that name's list only, changes nothing for an absent callback, and drops the record exactly when its list was empty or only that callback |
| EventRegistry.UnsubscribeLast | src/tools/eventEmitter.js:29-33 | a list emptied by the removal held just that callback, and deleting its record leaves a valid registry without the name |
| EventRegistry.FirstUncallable | src/tools/eventEmitter.js:51-54 | the callbacks before the first one that is not a function are all functions |
| EventRegistry.EventEmitter.constructor | src/tools/eventEmitter.js:3-5 | a new emitter has no records |
| EventRegistry.EventEmitter.Subscribe | src/tools/eventEmitter.js:7-17 | `subscribe` leaves the registry of the specification function: the name's list gains the callback at its end, duplicates included, and no other name changes |
| EventRegistry.EventEmitter.UnSubscribe | src/tools/eventEmitter.js:19-36 | `unSubscribe` leaves the registry of the specification function: the first occurrence goes, an unknown name or callback changes nothing, and an emptied record is deleted |
| EventRegistry.EventEmitter.HasSubscribers | src/tools/eventEmitter.js:38-43 | a name has subscribers exactly when it has at least one callback |
| EventRegistry.EventEmitter.Trigger | src/tools/eventEmitter.js:45-56 | `trigger` calls the name's callbacks in list order up to the first one that is not a function, and throws exactly when there is such a one |
| Viewer.FourDeletions | src/dxfViewer.js:151-156 | the four single-character deletions together keep exactly the characters that are not '/', '.', '_' or '-', in order |
| Viewer.DeleteFourOne | src/dxfViewer.js:151-156 | one character survives the deletions exactly when it is not special |
| Viewer.DeleteFourAppend | src/dxfViewer.js:151-156 | the deletions distribute over concatenation |
| Viewer.WithoutAppend | src/dxfViewer.js:152 | deleting one character distributes over concatenation |
| Viewer.ReplaceSpecialChars | src/dxfViewer.js:151-156 | `_replaceEspecialChars` as a value: the four `replaceAll` deletions of '/', '.', '_' and '-' in the source's order; ReplaceSpecialCharsMeaning states its meaning |
| Viewer.ReplaceSpecialCharsMeaning | src/dxfViewer.js:151-156 | `_replaceEspecialChars` keeps exactly the plain characters of the path, in order |
| Viewer.KeepPlainCounts | src/dxfViewer.js:151-156 | the key holds no special character and every other character as often as the path does |
| Viewer.KeepPlainAppend | src/dxfViewer.js:151-156 | the key of a concatenation is the concatenation of the keys |
| Viewer.KeepPlainOfPlain | src/dxfViewer.js:151-156 | a path without special characters is its own key |
| Viewer.ReplaceSpecialCharsIdempotent | src/dxfViewer.js:151-156 | normalising a key again changes nothing |
| Viewer.KeysCollide | src/dxfViewer.js:142-149 | the distinct paths "a_b.dxf" and "ab.dxf" share one cache entry |
| Viewer.LastStore | src/dxfViewer.js:142-144 | the store found is the last one whose path has the key; none when no path has it |
| Viewer.LastStoreWins | src/dxfViewer.js:142-149 | after a series of stores a path's key holds the data of the last store under that key, and is absent when there was none |
| Viewer.CacheSwitchNeverRestored | src/dxfViewer.js:100 | after a series of draws the global cache switch is on exactly when it started on and every viewer that drew used the cache: nothing turns it back on |
| Viewer.ModelLayout | src/dxfViewer.js:183 | the model layout is the first layout whose name lower-cases to "model"; none when there is no such layout |
| Viewer.FirstTurning | src/dxfViewer.js:186-191 | the vport used is the first, in key order, with the model's last active handle and a non-zero angle |
| Viewer.ViewRotation | src/dxfViewer.js:182-193 | the angle `_rotateByView` turns the group by, if any; ViewRotationMeaning states its meaning |
| Viewer.ViewRotationMeaning | src/dxfViewer.js:182-193 | the view turns exactly when there are layouts, one is the model, and some vport has its last active handle with a non-zero angle; it turns by the non-zero angle of the first such vport |
| Viewer.SceneGroup.constructor | src/dxfViewer.js:96-97 | a new group is not rotated |
| Viewer.RotateByView | src/dxfViewer.js:182-193 | `_rotateByView` rotates the group once, by the view rotation, or not at all when there is none |
| Viewer.AfterFetchAsWritten | src/dxfViewer.js:69-70 | as written, the promise never settles exactly when the status is not 200 |
| Viewer.FailedFetchNeverSettles | src/dxfViewer.js:70 | a 404 leaves the promise of `getFromPath` pending for ever |
| Viewer.AfterFetch | src/dxfViewer.js:69-91 | the corrected step always settles: with the data on status 200, with null otherwise |
| Viewer.AfterFetchAgrees | src/dxfViewer.js:69-91 | where the code as written settles, the corrected step settles the same way; where it hangs, the corrected one resolves null |
| Viewer.Settings.constructor | src/dxfViewer.js:100 | the global settings start at their defaults |
| Viewer.DxfViewer.constructor | src/dxfViewer.js:26-33 | a new viewer has an empty cache, uses the cache, and has no font, no last file and no text hook |
| Viewer.DxfViewer.ToCache | src/dxfViewer.js:142-144 | `_toCache` stores the data under the path's key and changes nothing else |
| Viewer.DxfViewer.FromCache | src/dxfViewer.js:146-149 | `_fromCache` finds an entry exactly when the path's key is stored, and returns that entry |
| Viewer.DxfViewer.LoadFont | src/dxfViewer.js:158-170 | a font already loaded is kept; otherwise the loader's outcome (none when it fails) becomes the font |
| Viewer.DxfViewer.DrawSettings | src/dxfViewer.js:99-113 | `_drawDXF` turns the global cache switch off when the viewer does not use the cache, never on, and installs the viewer's text hook |
| Viewer.DxfViewer.DrawDxf | src/dxfViewer.js:95-140 | `_drawDXF` returns a new group rotated by the view rotation, after setting the global switches |
| Viewer.DxfViewer.GetFromPath | src/dxfViewer.js:53-93 | the corrected `getFromPath` (see Findings) always settles: null without a font; the cached data on a hit; otherwise the fetched data, cached and remembered, on status 200, and null with nothing changed otherwise, where the code as written leaves the promise pending |

## Left out

- I/O is outside the model. Fetching, `getFromFile`, `FontLoader`, the DXF parser, Blob/Image texture loading, the rtf.js wrapper and the WMF rasteriser are either parameters whose outcome is given or not modelled at all.
- three.js is not modelled: ShapeGeometry triangulation, ArcCurve/EllipseCurve sampling, `applyMatrix4`, `toNonIndexed`, `computeVertexNormals`, `mergeGeometries` and material construction. Where a rule depends on their result, the result is a parameter. Otherwise the model records what would be handed to them.
- The dxf library's `bSpline` and `createArcForLWPolyline`, the MTEXT format parser and `font.generateShapes` are function parameters. They are not reimplemented.
- Floating point is not modelled. Coordinates are reals, so IEEE rounding, `Infinity` arithmetic and `-0` are not captured. `Math.hypot` and `distanceTo` are a given length, and snap distances are compared squared.
- The merged Float32 attribute buffers and the Uint16/Uint32 index-width choice are not modelled: index values are unbounded naturals.
- `_getPosAndRotation` in src/entities/textEntity.js (`toFixed` axis tests and quaternions) is not part of this model.
- `toFixed(6)` in `findVoxel` is modelled as exact decimal rounding, halves away from zero. The binary rounding of doubles is not modelled.
- The bounding boxes `Box3.setFromObject` computes are inputs to the snap index.
- Async drawing and `await` in `trigger` are not modelled. `trigger` is modelled as sequential calls in list order. Reentrant subscription from inside a callback is not modelled.
- Scene-group assembly inside `_drawDXF` is left out: Group/Mesh/Line objects, `userData` and names. Each entity drawer is modelled in its own module, and a drawing is represented by the data it is drawn from.
- Dashed-line fixing (`fixMeshToDrawDashedLines`) and the conversion of a colour number to a three.js colour object are left out. The colour and the dash and gap sizes are modelled.
- The merger's world matrices, normal computation and geometry merge are recorded, not computed. `mergeGeometries` returning null on incompatible attributes is not modelled.
- The DOM listeners, the ray cast behind `_getMousePosInScene` and `console.log` are left out. The ray cast is the mouse position passed to `MouseMove`.
- `resetSnaps` reads a `__cache` field that nothing sets, so it is not modelled, and neither is `_clearSnapSquare` (scene removal of the marker).
- src/entities/circleEntity.js is not part of this model: its content is trigonometric sampling over three.js curve classes.
- src/entities/dimensionEntity.js and src/entities/baseEntity/blockMerger.js are not part of this model: they are thin three.js placement on top of the merger and the block drawer.
- The UI tools are not part of this model: cadControls.js, select.js, hover.js and the raycasting utilities.
- `getFromPath` also exports `layers` and `unit` and mutates `data.tables.layers` in place. This bookkeeping is not modelled, and neither is the `_writeCount` statistic.
- Viewer.DxfViewer.GetFromPath: models the corrected fetch step `AfterFetch`, which resolves null on a status other than 200. At src/dxfViewer.js:70 the code as written leaves the promise pending there (see Findings, `Viewer.AfterFetchAsWritten`).
- Viewer.DxfViewer.GetFromPath: returns the cached value as stored. The `cached.data ? cached.data : cached` unwrap is not modelled: stored data is drawn as is.
- Ole2FrameEntity.HexToUint8Array: strings are sequences of Unicode scalars, while JavaScript lengths count UTF-16 code units. The odd-length test can differ only for a string holding a character outside the Basic Multilingual Plane.
- `toLowerCase` is modelled on ASCII letters only.
- Ole2FrameCfb.FindPng: reads chunk lengths unsigned, as W3C PNG section 5.3 defines them, instead of through the signed `_readU32BE`. With the signed read the walk can stall (see Findings), so the as-written walk is modelled only for a single step, `Ole2FrameCfb.PngStepAsWritten`.
- Ole2FrameCfb.FindWmf: the total size is read at META_HEADER offset 4, as the code does. [MS-WMF] section 2.3.2.2 places the Size field at offset 6, after Version.
- BlockEntity.DrawBlock: nested INSERTs are bounded by `depth`, which stands for the call stack. A block that inserts itself ends in an error instead of a stack overflow.
- The INSERT rotation is recorded in degrees as read. Its conversion to radians and the rotation of the group are three.js transforms and are not modelled.

## Findings

| source | as written | input that shows it | evidently intended | confidence | as-written member | corrected member |
|---|---|---|---|---|---|---|
| src/entities/ole2FrameCFBHelpers.js:79-84 | the PNG chunk length is read with the signed `_readU32BE`, so a length of 0x80000000 or more is negative | PNG signature, then a chunk of length 0xFFFFFFF4 tagged `abcd`: `next` equals `p` and the walk never ends; with length 0xFFFFFFEC tagged IEND the preview ends at 0, before its start | an unsigned chunk length, so such a chunk overruns the buffer and no preview is found | not executed | Ole2FrameCfb.PngStallingChunk | Ole2FrameCfb.FindPng |
| src/entities/baseEntity/baseEntity.js:33-35 | at draw time the layer's `flags` is the array `parse` built, and `_parseLayerFlags` reads it as a number; an array reads as NaN, which counts as frozen and not as locked | a layer with raw flags 4 (locked only), default settings: its entities are hidden | the frozen/locked words already parsed decide, so with `showLocked` on a locked layer stays visible | not executed | BaseEntity.LockedLayerHidden | BaseEntity.HideEntityParsedMeaning |
| src/entities/textEntity.js:100 | nested MTEXT runs come back as nested arrays and `join('')` prints an inner array with commas | runs `a` followed by a group of `b` and `c`: the text is "ab,c" | the runs concatenated, "abc" | not executed | TextEntity.NestedRunsGetCommas | TextEntity.GetTextString |
| src/entities/textEntity.js:246-253 | attachment points 8 and 9 move the text up by `boundingBox.min.y` itself | box bottom y = 10 with the insertion point at y = 10: the text bottom ends at y = 20 | the offset `center.y - min.y` of the other bottom cases, so the box bottom sits on the insertion point | not executed | TextEntity.TranslateCenterBottomAsWritten | TextEntity.TranslateCenterAnchors |
| src/dxfViewer.js:70 | on a status other than 200 the promise of `getFromPath` is neither resolved nor rejected | a fetch that answers 404: the caller waits for ever | resolve null, as the other failure paths do | not executed | Viewer.FailedFetchNeverSettles | Viewer.AfterFetchAgrees |
