/** Byte strings, big-endian integers and the bytewise order that Rust's `str` and `[u8]` use. */
module Bytes {

  type byte = b: int | 0 <= b < 256

  type Bytes = seq<byte>

  /** The largest `usize` and `u64` of the 64-bit targets the repository supports. */
  const USIZE_MAX: nat := 0xFFFF_FFFF_FFFF_FFFF

  /** The bytes of an ASCII literal. */
  function Ascii(s: string): (b: Bytes)
  {
    seq(|s|, i requires 0 <= i < |s| => s[i] as int % 256)
  }

  // ---------------------------------------------------------------- big-endian integers

  function Pow256(width: nat): (p: nat)
    ensures p >= 1
  {
    if width == 0 then 1 else 256 * Pow256(width - 1)
  }

  /** The widths of the integer fields in use. */
  lemma Widths()
    ensures Pow256(2) == 0x1_0000 && Pow256(4) == 0x1_0000_0000
    ensures Pow256(6) == 0x1_0000_0000_0000 && Pow256(8) == USIZE_MAX + 1
  {
    assert Pow256(4) == 256 * (256 * Pow256(2)) && Pow256(6) == 256 * (256 * Pow256(4));
    assert Pow256(8) == 256 * (256 * Pow256(6));
  }

  function FromBigEndian(b: Bytes): (value: nat)
    ensures value < Pow256(|b|)
  {
    if b == [] then 0 else FromBigEndian(b[..|b| - 1]) * 256 + b[|b| - 1]
  }

  function BigEndian(value: nat, width: nat): (b: Bytes)
    requires value < Pow256(width)
    ensures |b| == width
    ensures FromBigEndian(b) == value
  {
    if width == 0 then []
    else
      var high := BigEndian(value / 256, width - 1);
      assert (high + [value % 256])[..width - 1] == high;
      high + [value % 256]
  }

  lemma LowByte(x: nat, p: byte, y: nat, q: byte)
    requires x * 256 + p == y * 256 + q
    ensures x == y && p == q
  {
  }

  /** Byte strings of one length denote different integers. */
  lemma {:induction false} FromBigEndianInjective(a: Bytes, b: Bytes)
    requires |a| == |b| && FromBigEndian(a) == FromBigEndian(b)
    ensures a == b
  {
    if a != [] {
      var i, j := a[..|a| - 1], b[..|b| - 1];
      LowByte(FromBigEndian(i), a[|a| - 1], FromBigEndian(j), b[|b| - 1]);
      FromBigEndianInjective(i, j);
      assert a == i + [a[|a| - 1]] && b == j + [b[|b| - 1]];
    }
  }

  /** Every byte string is the big-endian form of the integer it denotes. */
  lemma BigEndianOfRead(b: Bytes)
    ensures BigEndian(FromBigEndian(b), |b|) == b
  {
    FromBigEndianInjective(BigEndian(FromBigEndian(b), |b|), b);
  }

  // ---------------------------------------------------------------- concatenation

  function Concat(chunks: seq<Bytes>): (b: Bytes)
  {
    if chunks == [] then [] else chunks[0] + Concat(chunks[1..])
  }

  lemma Associates(a: Bytes, b: Bytes, c: Bytes)
    ensures (a + b) + c == a + (b + c)
  {
  }

  lemma CutInThree(b: Bytes, i: nat, j: nat)
    requires i <= j <= |b|
    ensures b == b[..i] + b[i..j] + b[j..]
  {
  }

  lemma {:induction false} ConcatAppend(a: seq<Bytes>, b: seq<Bytes>)
    ensures Concat(a + b) == Concat(a) + Concat(b)
  {
    if a == [] {
      assert a + b == b;
    } else {
      ConcatAppend(a[1..], b);
      assert (a + b)[1..] == a[1..] + b && (a + b)[0] == a[0];
      Associates(a[0], Concat(a[1..]), Concat(b));
    }
  }

  lemma ConcatSnoc(a: seq<Bytes>, chunk: Bytes)
    ensures Concat(a + [chunk]) == Concat(a) + chunk
  {
    ConcatAppend(a, [chunk]);
    assert Concat([chunk]) == chunk + Concat([]);
  }

  /** Two concatenations whose first parts have equal length agree part by part. */
  lemma SplitEqual(a: Bytes, r: Bytes, b: Bytes, s: Bytes)
    requires a + r == b + s
    requires |a| == |b|
    ensures a == b && r == s
  {
    assert a == (a + r)[..|a|] && b == (b + s)[..|b|];
    assert r == (a + r)[|a|..] && s == (b + s)[|b|..];
  }

  // ---------------------------------------------------------------- bytewise order

  /** `a < b` for Rust strings: lexicographic on bytes. */
  predicate Less(a: Bytes, b: Bytes)
  {
    b != [] && (a == [] || a[0] < b[0] || (a[0] == b[0] && Less(a[1..], b[1..])))
  }

  lemma {:induction false} LessIrreflexive(a: Bytes)
    ensures !Less(a, a)
  {
    if a != [] { LessIrreflexive(a[1..]); }
  }

  lemma {:induction false} LessTransitive(a: Bytes, b: Bytes, c: Bytes)
    requires Less(a, b) && Less(b, c)
    ensures Less(a, c)
  {
    if a != [] && a[0] == b[0] == c[0] { LessTransitive(a[1..], b[1..], c[1..]); }
  }

  lemma {:induction false} LessTotal(a: Bytes, b: Bytes)
    ensures Less(a, b) || a == b || Less(b, a)
  {
    if a != [] && b != [] && a[0] == b[0] {
      LessTotal(a[1..], b[1..]);
      if a[1..] == b[1..] {
        assert a == [a[0]] + a[1..] == [b[0]] + b[1..] == b;
      }
    }
  }

  /** A proper prefix sorts before each of its extensions. */
  lemma {:induction false} PrefixIsLess(a: Bytes, b: Bytes)
    requires a <= b && a != b
    ensures Less(a, b)
  {
    if a != [] { PrefixIsLess(a[1..], b[1..]); }
  }
}
