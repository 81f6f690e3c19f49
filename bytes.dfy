/** Byte-buffer primitives of the OLE2FRAME image sniffer
    (src/entities/ole2FrameCFBHelpers.js): sub-sequence search and the
    little-/big-endian integer reads. The reads are built from JavaScript's
    `|` and `<<`, which work on signed 32-bit integers, so a 32-bit read whose
    most significant byte is 0x80 or more comes out negative. */
module Bytes {
  import opened Js

  type byte = x: int | 0 <= x < 256

  /** `b[o] | (b[o+1] << 8)`: the two fields never reach bit 31, so no sign appears. */
  function ReadU16LE(b: seq<byte>, o: int): (r: int)
    requires 0 <= o && o + 2 <= |b|
    ensures 0 <= r < 0x1_0000
    ensures r % 256 == b[o] && r / 256 == b[o + 1]
  {
    b[o] as int + 256 * (b[o + 1] as int)
  }

  /** `DataView.getInt16(o, true)`: two bytes little-endian, two's complement. */
  function ReadI16LE(b: seq<byte>, o: int): (r: int)
    requires 0 <= o && o + 2 <= |b|
    ensures -0x8000 <= r < 0x8000
    ensures r < 0 <==> b[o + 1] >= 0x80
    ensures (r - ReadU16LE(b, o)) % 0x1_0000 == 0
  {
    var u := ReadU16LE(b, o);
    if u >= 0x8000 then u - 0x1_0000 else u
  }

  /** The unsigned little-endian value of four bytes (the mathematical number). */
  function U32LE(b: seq<byte>, o: int): (r: int)
    requires 0 <= o && o + 4 <= |b|
    ensures 0 <= r < Two32
  {
    b[o] as int + 0x100 * (b[o + 1] as int) + 0x1_0000 * (b[o + 2] as int) + 0x100_0000 * (b[o + 3] as int)
  }

  /** The unsigned big-endian value of four bytes. */
  function U32BE(b: seq<byte>, o: int): (r: int)
    requires 0 <= o && o + 4 <= |b|
    ensures 0 <= r < Two32
  {
    0x100_0000 * (b[o] as int) + 0x1_0000 * (b[o + 1] as int) + 0x100 * (b[o + 2] as int) + b[o + 3] as int
  }

  /** `_readU32LE`: the four byte fields are disjoint, so the `|` chain is their sum
      taken as a signed 32-bit integer. */
  function ReadU32LE(b: seq<byte>, o: int): (r: int)
    requires 0 <= o && o + 4 <= |b|
    ensures -Two31 <= r < Two31
    ensures r < 0 <==> b[o + 3] >= 0x80
    ensures r >= 0 ==> r == U32LE(b, o)
    ensures r < 0 ==> r == U32LE(b, o) - Two32
  {
    ToInt32(U32LE(b, o))
  }

  /** `_readS32LE`: `u | 0` of an already signed value changes nothing. */
  function ReadS32LE(b: seq<byte>, o: int): (r: int)
    requires 0 <= o && o + 4 <= |b|
    ensures r == ReadU32LE(b, o)
  {
    ToInt32(ReadU32LE(b, o))
  }

  /** `_readU32BE`: signed as well, negative exactly when the first byte is 0x80 or more. */
  function ReadU32BE(b: seq<byte>, o: int): (r: int)
    requires 0 <= o && o + 4 <= |b|
    ensures -Two31 <= r < Two31
    ensures r < 0 <==> b[o] >= 0x80
    ensures r >= 0 ==> r == U32BE(b, o)
    ensures r < 0 ==> r == U32BE(b, o) - Two32
  {
    ToInt32(U32BE(b, o))
  }

  // ---------------------------------------------------------------- sub-sequence search

  predicate MatchAt(b: seq<byte>, pat: seq<byte>, i: int)
  {
    0 <= i && i + |pat| <= |b| && b[i..i + |pat|] == pat
  }

  /** The first match at or after `i`, or -1. */
  function IndexFrom(b: seq<byte>, pat: seq<byte>, i: nat): (r: int)
    ensures r == -1 || (i <= r && MatchAt(b, pat, r))
    decreases |b| - i + 1
  {
    if i + |pat| > |b| then -1
    else if MatchAt(b, pat, i) then i
    else IndexFrom(b, pat, i + 1)
  }

  /** `_indexOfSeq(b, pat)` as a value. */
  function IndexOf(b: seq<byte>, pat: seq<byte>): (r: int)
    ensures r == -1 || MatchAt(b, pat, r)
  {
    IndexFrom(b, pat, 0)
  }

  /** What `IndexFrom` means: the least matching index at or after `i`, or -1 when none. */
  lemma {:induction false} IndexFromIsLeast(b: seq<byte>, pat: seq<byte>, i: nat)
    ensures var r := IndexFrom(b, pat, i);
      && (r == -1 || (i <= r && MatchAt(b, pat, r)))
      && (forall k :: i <= k && (r == -1 || k < r) ==> !MatchAt(b, pat, k))
    decreases |b| - i + 1
  {
    if i + |pat| > |b| {
    } else if MatchAt(b, pat, i) {
    } else {
      IndexFromIsLeast(b, pat, i + 1);
    }
  }

  /** `_indexOfSeq` returns the least i with b[i..i+|pat|) == pat, and -1 when there is none. */
  lemma IndexOfIsLeast(b: seq<byte>, pat: seq<byte>)
    ensures var r := IndexOf(b, pat);
      && (r == -1 || MatchAt(b, pat, r))
      && (forall k :: 0 <= k && (r == -1 || k < r) ==> !MatchAt(b, pat, k))
  {
    IndexFromIsLeast(b, pat, 0);
  }

  /** `_indexOfSeq`: the labelled `continue outer` loop. */
  method IndexOfSeq(b: seq<byte>, pat: seq<byte>) returns (r: int)
    ensures r == IndexOf(b, pat)
  {
    var i := 0;
    while i <= |b| - |pat|
      invariant 0 <= i
      invariant IndexOf(b, pat) == IndexFrom(b, pat, i)
      decreases |b| - |pat| - i
    {
      var j := 0;
      while j < |pat| && b[i + j] == pat[j]
        invariant 0 <= j <= |pat|
        invariant b[i..i + j] == pat[..j]
      {
        assert b[i..i + (j + 1)] == b[i..i + j] + [b[i + j]];
        assert pat[..j + 1] == pat[..j] + [pat[j]];
        j := j + 1;
      }
      if j == |pat| {
        assert pat[..j] == pat;
        return i;
      }
      assert !MatchAt(b, pat, i);
      i := i + 1;
    }
    return -1;
  }
}
