/** The OLE2FRAME entity (src/entities/ole2frameEntity.js): decoding the hex
    payload of the DXF record, truncating it to the declared length, choosing
    how the sniffed image is turned into a texture, and placing the plane that
    shows it. The WMF rasteriser, Blob/Image decoding and three.js materials are
    not part of this model; the dispatch says which of them would run. */
module Ole2FrameEntity {
  import opened Js
  import opened Bytes
  import opened Ole2FrameCfb

  // ---------------------------------------------------------------- hexToUint8Array

  /** The characters `\s` matches in a JavaScript regular expression (WhiteSpace and
      LineTerminator of ECMA-262). */
  predicate IsJsWhitespace(c: char)
  {
    c == '\t' || c == '\n' || c == '\U{000B}' || c == '\U{000C}' || c == '\r' || c == ' '
    || c == '\U{00A0}' || c == '\U{1680}' || ('\U{2000}' <= c <= '\U{200A}')
    || c == '\U{2028}' || c == '\U{2029}' || c == '\U{202F}' || c == '\U{205F}'
    || c == '\U{3000}' || c == '\U{FEFF}'
  }

  /** `s.replace(/\s+/g, '')`. */
  function StripWhitespace(s: string): (r: string)
    ensures |r| <= |s|
    ensures forall i :: 0 <= i < |r| ==> !IsJsWhitespace(r[i])
  {
    if s == [] then []
    else (if IsJsWhitespace(s[0]) then [] else [s[0]]) + StripWhitespace(s[1..])
  }

  lemma {:induction false} StripWhitespaceAppend(a: string, b: string)
    ensures StripWhitespace(a + b) == StripWhitespace(a) + StripWhitespace(b)
  {
    if a != [] {
      assert (a + b)[0] == a[0];
      assert (a + b)[1..] == a[1..] + b;
      StripWhitespaceAppend(a[1..], b);
    } else {
      assert a + b == b;
    }
  }

  lemma {:induction false} StripWhitespaceKeeps(s: string)
    requires forall i :: 0 <= i < |s| ==> !IsJsWhitespace(s[i])
    ensures StripWhitespace(s) == s
  {
    if s != [] {
      StripWhitespaceKeeps(s[1..]);
    }
  }

  /** The hexadecimal value of a digit, as `parseInt(_, 16)` reads it. */
  function HexDigitValue(c: char): (r: Option<int>)
    ensures r.Some? ==> 0 <= r.value < 16
  {
    if '0' <= c <= '9' then Some(c as int - '0' as int)
    else if 'a' <= c <= 'f' then Some(c as int - 'a' as int + 10)
    else if 'A' <= c <= 'F' then Some(c as int - 'A' as int + 10)
    else None
  }

  /** `parseInt(c1 c2, 16)` on two characters without whitespace; None is NaN. A sign
      is read first; digits are then taken while they are hexadecimal. (A "0x"
      prefix is removed, leaving no digits and NaN; the value written is 0 either way,
      as for a lone leading 0.) */
  function ParseHexPair(c1: char, c2: char): (r: Option<int>)
    ensures r.Some? ==> -15 <= r.value < 256
  {
    if c1 == '-' || c1 == '+' then
      match HexDigitValue(c2)
      case None => None
      case Some(v) => Some(if c1 == '-' then -v else v)
    else if c1 == '0' && (c2 == 'x' || c2 == 'X') then None
    else
      match HexDigitValue(c1)
      case None => None
      case Some(hi) =>
        match HexDigitValue(c2)
        case None => Some(hi)
        case Some(lo) => Some(16 * hi + lo)
  }

  /** Storing a Number into a Uint8Array: NaN becomes 0, other integers wrap modulo 256. */
  function ToUint8(v: Option<int>): (r: byte)
    ensures v.None? ==> r == 0
    ensures v.Some? ==> (r - v.value) % 256 == 0
  {
    match v
    case None => 0
    case Some(x) => x % 256
  }

  function PairByte(c1: char, c2: char): byte
  {
    ToUint8(ParseHexPair(c1, c2))
  }

  /** Byte j comes from characters 2j and 2j+1 of the cleaned string. */
  function DecodePairs(clean: string): (r: seq<byte>)
    requires |clean| % 2 == 0
    ensures |r| == |clean| / 2
    ensures forall j :: 0 <= j < |r| ==> r[j] == PairByte(clean[2 * j], clean[2 * j + 1])
  {
    seq(|clean| / 2, j requires 0 <= j < |clean| / 2 => PairByte(clean[2 * j], clean[2 * j + 1]))
  }

  const OddLengthError := "Hex string has odd length."

  function DecodeClean(clean: string): Result<seq<byte>>
  {
    if |clean| % 2 == 1 then Err(OddLengthError) else Ok(DecodePairs(clean))
  }

  /** `hexToUint8Array(hex)`, with an absent (undefined, null or empty) payload as None. */
  function HexToBytes(hex: Option<string>): Result<seq<byte>>
  {
    DecodeClean(StripWhitespace(if hex.Some? then hex.value else ""))
  }

  method HexToUint8Array(hex: Option<string>) returns (r: Result<seq<byte>>)
    ensures r == HexToBytes(hex)
  {
    var clean := StripWhitespace(if hex.Some? then hex.value else "");
    if |clean| % 2 == 1 {
      return Err(OddLengthError);
    }
    var out := new byte[|clean| / 2];
    var i, j := 0, 0;
    while i < |clean|
      invariant i == 2 * j && 0 <= j <= out.Length
      invariant forall k :: 0 <= k < j ==> out[k] == PairByte(clean[2 * k], clean[2 * k + 1])
    {
      out[j] := ToUint8(ParseHexPair(clean[i], clean[i + 1]));
      i, j := i + 2, j + 1;
    }
    assert out[..] == DecodePairs(clean);
    r := Ok(out[..]);
  }

  /** The decoded buffer is half the cleaned length and byte j is the base-16 value of
      characters 2j, 2j+1 whenever those are hex digits; an odd cleaned length throws. */
  lemma HexToBytesMeaning(hex: string)
    ensures var clean := StripWhitespace(hex);
      && (|clean| % 2 == 1 <==> HexToBytes(Some(hex)) == Err(OddLengthError))
      && (HexToBytes(Some(hex)).Ok? ==>
            && |HexToBytes(Some(hex)).value| == |clean| / 2
            && forall j :: 0 <= j < |clean| / 2 && HexDigitValue(clean[2 * j]).Some? && HexDigitValue(clean[2 * j + 1]).Some? ==>
                 HexToBytes(Some(hex)).value[j]
                   == 16 * HexDigitValue(clean[2 * j]).value + HexDigitValue(clean[2 * j + 1]).value)
  {
  }

  /** Whitespace anywhere in the payload is ignored. */
  lemma WhitespaceIgnored(a: string, w: char, b: string)
    requires IsJsWhitespace(w)
    ensures HexToBytes(Some(a + [w] + b)) == HexToBytes(Some(a + b))
  {
    StripWhitespaceAppend(a + [w], b);
    StripWhitespaceAppend(a, [w]);
    StripWhitespaceAppend(a, b);
    assert StripWhitespace([w]) == [];
    assert StripWhitespace(a + [w] + b) == StripWhitespace(a + b);
  }

  // ---------------------------------------------------------------- round trip

  function HexDigit(d: int): (c: char)
    requires 0 <= d < 16
    ensures HexDigitValue(c) == Some(d)
    ensures !IsJsWhitespace(c) && c != '-' && c != '+' && c != 'x' && c != 'X'
  {
    "0123456789abcdef"[d]
  }

  /** The two-digit lower-case hex encoding of a byte sequence. */
  function HexEncode(bytes: seq<byte>): (s: string)
    ensures |s| == 2 * |bytes|
    ensures forall j :: 0 <= j < |bytes| ==> s[2 * j] == HexDigit(bytes[j] / 16) && s[2 * j + 1] == HexDigit(bytes[j] % 16)
    ensures forall i :: 0 <= i < |s| ==> !IsJsWhitespace(s[i])
  {
    if bytes == [] then [] else [HexDigit(bytes[0] / 16), HexDigit(bytes[0] % 16)] + HexEncode(bytes[1..])
  }

  lemma PairOfDigits(hi: int, lo: int)
    requires 0 <= hi < 16 && 0 <= lo < 16
    ensures PairByte(HexDigit(hi), HexDigit(lo)) == 16 * hi + lo
  {
  }

  /** Decoding the two-digit hex encoding of any byte sequence returns that sequence. */
  lemma HexRoundTrip(bytes: seq<byte>)
    ensures HexToBytes(Some(HexEncode(bytes))) == Ok(bytes)
  {
    var s := HexEncode(bytes);
    StripWhitespaceKeeps(s);
    var d := DecodePairs(s);
    forall j | 0 <= j < |bytes| ensures d[j] == bytes[j] {
      PairOfDigits(bytes[j] / 16, bytes[j] % 16);
    }
    assert d == bytes;
  }

  // ---------------------------------------------------------------- truncation

  /** `bytes.slice(0, length)` when `length` is a finite Number (None otherwise) that is
      positive and smaller than the decoded length; `slice` truncates a fractional end. */
  function TruncateToLength(bytes: seq<byte>, length: Option<real>): (r: seq<byte>)
    ensures r <= bytes
    ensures length.Some? && length.value > 0.0 && (|bytes| as real) > length.value ==> |r| == length.value.Floor
    ensures !(length.Some? && length.value > 0.0 && (|bytes| as real) > length.value) ==> r == bytes
  {
    if length.Some? && length.value > 0.0 && (|bytes| as real) > length.value then bytes[..length.value.Floor]
    else bytes
  }

  // ---------------------------------------------------------------- texture dispatch

  /** What `_createTextureFromImageData` does with the sniffed image. */
  datatype TextureSource =
    | RenderWmf(content: Option<seq<byte>>)
    | LogUnsupported(message: string)
    | DecodeImage(mime: string, content: Option<seq<byte>>)

  function UnsupportedMessage(kind: string): string
  {
    "Unsupported image type (mime=" + kind + ")."
  }

  function Dispatch(img: ImageData): (r: TextureSource)
    ensures r.RenderWmf? <==> Contains(img.kind, "wmf")
    ensures r.DecodeImage? ==> StartsWith(img.kind, "image/") && !Contains(img.kind, "emf")
    ensures r.LogUnsupported? ==> r.message == UnsupportedMessage(img.kind)
  {
    if Contains(img.kind, "wmf") then RenderWmf(img.content)
    else if Contains(img.kind, "emf") then LogUnsupported(UnsupportedMessage(img.kind))
    else if !StartsWith(img.kind, "image/") then LogUnsupported(UnsupportedMessage(img.kind))
    else DecodeImage(img.kind, img.content)
  }

  /** The whole texture path from the DXF payload: a thrown decoding error, or the dispatch
      applied to the image found in the (possibly truncated) bytes. */
  function TextureSourceOf(hex: Option<string>, length: Option<real>): Result<TextureSource>
  {
    match HexToBytes(hex)
    case Err(m) => Err(m)
    case Ok(bytes) => Ok(Dispatch(ImageDataOf(TruncateToLength(bytes, length))))
  }

  method CreateTextureSource(hex: Option<string>, length: Option<real>) returns (r: Result<TextureSource>)
    ensures r == TextureSourceOf(hex, length)
  {
    var decoded := HexToUint8Array(hex);
    if decoded.Err? {
      return Err(decoded.message);
    }
    var bytes := decoded.value;
    if length.Some? && length.value > 0.0 && (|bytes| as real) > length.value {
      bytes := bytes[..length.value.Floor];
    }
    var imgData := GetImageData(bytes);
    r := Ok(Dispatch(imgData));
  }

  /** "emf" does not occur in an "image/" kind whose subtype lacks one of its letters. */
  lemma {:induction false} NoEmfInImageKind(t: string, k: nat)
    requires k < 3 && "emf"[k] !in t
    ensures !Contains("image/" + t, "emf")
  {
    var s := "image/" + t;
    NotContainsChar(t, "emf", k);
    assert s[6..] == t;
    assert s[5..][1..] == t;
    NotContainsSkip(s[5..], "emf", 1);
    assert s[4..][1..] == s[5..];
    if 3 <= |s[4..]| { assert s[4..][..3][1] == '/'; }
    NotContainsSkip(s, "emf", 4);
  }

  /** An "image/" kind whose subtype has no 'w' and lacks a letter of "emf" is decoded. */
  lemma ImageKindDecoded(img: ImageData, t: string, k: nat)
    requires img.kind == "image/" + t && 'w' !in t && k < 3 && "emf"[k] !in t
    ensures Dispatch(img) == DecodeImage(img.kind, img.content)
  {
    assert img.kind[..6] == "image/";
    NotContainsChar(img.kind, "wmf", 0);
    NoEmfInImageKind(t, k);
  }

  /** The kinds the sniffer reports route as follows: WMF to the renderer, the five
      raster kinds to image decoding, and EMF and '' (no container, or no preview) to
      a 'log' event. */
  lemma DispatchOfSniffedKinds(img: ImageData)
    ensures img.kind == "wmf" ==> Dispatch(img) == RenderWmf(img.content)
    ensures (img.kind == "image/jpeg" || img.kind == "image/gif" || img.kind == "image/bmp"
             || img.kind == "image/png" || img.kind == "image/dib") ==>
      Dispatch(img) == DecodeImage(img.kind, img.content)
    ensures img.kind == "emf" ==> Dispatch(img) == LogUnsupported("Unsupported image type (mime=emf).")
    ensures img.kind == "" ==> Dispatch(img) == LogUnsupported("Unsupported image type (mime=).")
  {
    if img.kind == "image/jpeg" {
      assert img.kind == "image/" + "jpeg";
      assert "emf"[1] == 'm' && 'w' !in "jpeg" && 'm' !in "jpeg";
      ImageKindDecoded(img, "jpeg", 1);
    } else if img.kind == "image/gif" {
      assert img.kind == "image/" + "gif";
      assert "emf"[0] == 'e' && 'w' !in "gif" && 'e' !in "gif";
      ImageKindDecoded(img, "gif", 0);
    } else if img.kind == "image/bmp" {
      assert img.kind == "image/" + "bmp";
      assert "emf"[2] == 'f' && 'w' !in "bmp" && 'f' !in "bmp";
      ImageKindDecoded(img, "bmp", 2);
    } else if img.kind == "image/png" {
      assert img.kind == "image/" + "png";
      assert "emf"[0] == 'e' && 'w' !in "png" && 'e' !in "png";
      ImageKindDecoded(img, "png", 0);
    } else if img.kind == "image/dib" {
      assert img.kind == "image/" + "dib";
      assert "emf"[0] == 'e' && 'w' !in "dib" && 'e' !in "dib";
      ImageKindDecoded(img, "dib", 0);
    } else if img.kind == "emf" {
      NotContainsChar(img.kind, "wmf", 0);
    }
  }

  // ---------------------------------------------------------------- plane sizing

  datatype Plane = Plane(width: real, height: real, centerX: real, centerY: real)

  /** `drawOle2Frame`: a plane of the frame's size, moved so that its corners land on
      the frame's upper-left and lower-right corners. */
  function FramePlane(upperLeftX: real, upperLeftY: real, lowerRightX: real, lowerRightY: real): (p: Plane)
    ensures p.width == lowerRightX - upperLeftX && p.height == upperLeftY - lowerRightY
    ensures p.centerX - p.width / 2.0 == upperLeftX && p.centerY + p.height / 2.0 == upperLeftY
    ensures p.centerX + p.width / 2.0 == lowerRightX && p.centerY - p.height / 2.0 == lowerRightY
  {
    var width := lowerRightX - upperLeftX;
    var height := upperLeftY - lowerRightY;
    Plane(width, height, upperLeftX + width / 2.0, upperLeftY - height / 2.0)
  }
}
