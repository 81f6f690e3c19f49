/** JavaScript value semantics that the viewer's code relies on: the 32-bit
    integer conversions behind the bitwise operators, decimal rendering of
    integers, and the string operations `replaceAll`, `startsWith`,
    `includes` (as a regular-expression test) and ASCII lower-casing. */
module Js {

  datatype Option<+T> = None | Some(value: T)

  /** A value, or the message of the Error the JavaScript code throws instead. */
  datatype Result<+T> = Ok(value: T) | Err(message: string)

  const Two32: int := 0x1_0000_0000
  const Two31: int := 0x8000_0000

  /** ECMAScript ToUint32 on an integral Number. */
  function ToUint32(x: int): (r: int)
    ensures 0 <= r < Two32
    ensures (r - x) % Two32 == 0
  {
    x % Two32
  }

  /** ECMAScript ToInt32 on an integral Number: what `x | 0` yields. */
  function ToInt32(x: int): (r: int)
    ensures -Two31 <= r < Two31
    ensures (r - x) % Two32 == 0
    ensures 0 <= x < Two31 ==> r == x
    ensures Two31 <= x < Two32 ==> r == x - Two32
  {
    var u := ToUint32(x);
    if u >= Two31 then u - Two32 else u
  }

  /** Bit `k` of the two's-complement 32-bit representation, as `(x & 2^k) === 2^k` tests it. */
  predicate BitSet(x: int, k: nat)
    requires k < 32
  {
    (ToUint32(x) / Pow2(k)) % 2 == 1
  }

  function Pow2(k: nat): (r: nat)
    ensures r >= 1
  {
    if k == 0 then 1 else 2 * Pow2(k - 1)
  }

  // ---------------------------------------------------------------- decimal strings

  function DigitChar(d: int): (c: char)
    requires 0 <= d < 10
    ensures '0' <= c <= '9'
  {
    ['0', '1', '2', '3', '4', '5', '6', '7', '8', '9'][d]
  }

  /** `String(n)` for a non-negative integer: its shortest decimal digits. */
  function DecimalString(n: nat): (s: string)
    ensures |s| >= 1
    ensures forall i :: 0 <= i < |s| ==> '0' <= s[i] <= '9'
    ensures (|s| == 1) == (n < 10)
    ensures s[|s| - 1] == DigitChar(n % 10)
  {
    if n < 10 then [DigitChar(n)] else DecimalString(n / 10) + [DigitChar(n % 10)]
  }

  lemma DigitCharInjective(a: int, b: int)
    requires 0 <= a < 10 && 0 <= b < 10
    requires DigitChar(a) == DigitChar(b)
    ensures a == b
  {
  }

  lemma SnocInjective(p: string, q: string, x: char, y: char)
    requires p + [x] == q + [y]
    ensures p == q
  {
    assert p == (p + [x])[..|p|];
    assert q == (q + [y])[..|q|];
  }

  /** Distinct numbers print differently, so keys built from a counter never collide. */
  lemma {:induction false} DecimalStringInjective(a: nat, b: nat)
    requires DecimalString(a) == DecimalString(b)
    ensures a == b
  {
    DigitCharInjective(a % 10, b % 10);
    if a >= 10 {
      var qa, qb := a / 10, b / 10;
      SnocInjective(DecimalString(qa), DecimalString(qb), DigitChar(a % 10), DigitChar(b % 10));
      DecimalStringInjective(qa, qb);
      assert a == 10 * qa + a % 10 && b == 10 * qb + b % 10;
    }
  }

  // ---------------------------------------------------------------- strings

  predicate StartsWith(s: string, prefix: string)
  {
    |prefix| <= |s| && s[..|prefix|] == prefix
  }

  /** `/pat/.test(s)` for a pattern made of plain characters: does `pat` occur in `s`? */
  predicate Contains(s: string, pat: string)
    decreases |s|
  {
    |pat| <= |s| && (s[..|pat|] == pat || (|s| > 0 && Contains(s[1..], pat)))
  }

  /** A pattern with a character that `s` lacks does not occur in `s`. */
  lemma {:induction false} NotContainsChar(s: string, pat: string, k: nat)
    requires k < |pat| && pat[k] !in s
    ensures !Contains(s, pat)
    decreases |s|
  {
    if |pat| <= |s| {
      assert s[..|pat|][k] == s[k];
      NotContainsChar(s[1..], pat, k);
    }
  }

  /** Leading characters other than the pattern's first cannot start an occurrence. */
  lemma {:induction false} NotContainsSkip(s: string, pat: string, n: nat)
    requires |pat| > 0 && n <= |s|
    requires forall i :: 0 <= i < n ==> s[i] != pat[0]
    requires !Contains(s[n..], pat)
    ensures !Contains(s, pat)
    decreases n
  {
    if n > 0 {
      assert s[1..][n - 1..] == s[n..];
      NotContainsSkip(s[1..], pat, n - 1);
      if |pat| <= |s| { assert s[..|pat|][0] == s[0]; }
    }
  }

  /** `s.replaceAll(pat, rep)`: left-to-right, non-overlapping occurrences. */
  function ReplaceAll(s: string, pat: string, rep: string): (r: string)
    requires |pat| > 0
    decreases |s|
  {
    if |s| < |pat| then s
    else if s[..|pat|] == pat then rep + ReplaceAll(s[|pat|..], pat, rep)
    else [s[0]] + ReplaceAll(s[1..], pat, rep)
  }

  /** A replacement no longer than its pattern never lengthens the string. */
  lemma {:induction false} ReplaceAllNotLonger(s: string, pat: string, rep: string)
    requires |pat| > 0 && |rep| <= |pat|
    ensures |ReplaceAll(s, pat, rep)| <= |s|
    decreases |s|
  {
    if |s| < |pat| {
    } else if s[..|pat|] == pat {
      ReplaceAllNotLonger(s[|pat|..], pat, rep);
    } else {
      ReplaceAllNotLonger(s[1..], pat, rep);
    }
  }

  /** Deleting a one-character pattern keeps exactly the other characters, in order. */
  function Without(s: string, c: char): (r: string)
    ensures c !in r
    ensures |r| <= |s|
  {
    if s == [] then [] else (if s[0] == c then [] else [s[0]]) + Without(s[1..], c)
  }

  lemma {:induction false} ReplaceAllDeletes(s: string, c: char)
    ensures ReplaceAll(s, [c], "") == Without(s, c)
    decreases |s|
  {
    if s != [] {
      ReplaceAllDeletes(s[1..], c);
      assert s[..1] == [s[0]];
    }
  }

  function AsciiLowerChar(c: char): char
  {
    if 'A' <= c <= 'Z' then (c as int + 32) as char else c
  }

  /** `toLowerCase()` restricted to ASCII letters. Compared with "model" it decides
      the same equalities as the full Unicode mapping: no other character lower-cases
      to one of m, o, d, e, l. */
  function AsciiLower(s: string): (r: string)
    ensures |r| == |s|
    ensures forall i :: 0 <= i < |s| ==> r[i] == AsciiLowerChar(s[i])
  {
    if s == [] then [] else [AsciiLowerChar(s[0])] + AsciiLower(s[1..])
  }
}
