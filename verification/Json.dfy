/** The part of serde_json's compact writer that the identities depend on: strings, string lists and
    decimal numbers.  Decoders stay parameters of the modules that use them. */
module Json {
  import opened Bytes

  const QUOTE: byte := 0x22
  const BACKSLASH: byte := 0x5c

  function HexDigit(n: nat): (d: byte)
    requires n < 16
    ensures 0x30 <= d <= 0x39 || 0x61 <= d <= 0x66
  {
    if n < 10 then 0x30 + n else 0x61 + (n - 10)
  }

  function EscapeByte(b: byte): (e: Bytes)
    ensures e != []
    ensures e[0] != QUOTE
  {
    if b == QUOTE then [BACKSLASH, QUOTE]
    else if b == BACKSLASH then [BACKSLASH, BACKSLASH]
    else if b == 0x08 then [BACKSLASH, 0x62]
    else if b == 0x0c then [BACKSLASH, 0x66]
    else if b == 0x0a then [BACKSLASH, 0x6e]
    else if b == 0x0d then [BACKSLASH, 0x72]
    else if b == 0x09 then [BACKSLASH, 0x74]
    else if b < 0x20 then [BACKSLASH, 0x75, 0x30, 0x30, HexDigit(b / 16), HexDigit(b % 16)]
    else [b]
  }

  predicate Plain(b: byte)
  {
    b >= 0x20 && b != QUOTE && b != BACKSLASH
  }

  function Escape(s: Bytes): (e: Bytes)
  {
    if s == [] then [] else EscapeByte(s[0]) + Escape(s[1..])
  }

  function Quote(s: Bytes): (q: Bytes)
  {
    [QUOTE] + Escape(s) + [QUOTE]
  }

  function Decimal(n: nat): (d: Bytes)
    ensures d != []
  {
    if n < 10 then [0x30 + n] else Decimal(n / 10) + [0x30 + n % 10]
  }

  function QuotedItems(items: seq<Bytes>): (q: Bytes)
  {
    if items == [] then []
    else if |items| == 1 then Quote(items[0])
    else Quote(items[0]) + Ascii(",") + QuotedItems(items[1..])
  }

  function List(items: seq<Bytes>): (q: Bytes)
  {
    Ascii("[") + QuotedItems(items) + Ascii("]")
  }

  /** No escape is a prefix of another. */
  lemma EscapeByteDecodes(x: byte, r: Bytes, y: byte, s: Bytes)
    requires EscapeByte(x) + r == EscapeByte(y) + s
    ensures x == y && r == s
  {
    var left, right := EscapeByte(x) + r, EscapeByte(y) + s;
    assert left[0] == EscapeByte(x)[0] && right[0] == EscapeByte(y)[0];
    if |EscapeByte(x)| > 1 && |EscapeByte(y)| > 1 {
      assert left[1] == EscapeByte(x)[1] && right[1] == EscapeByte(y)[1];
      if |EscapeByte(x)| == 6 && |EscapeByte(y)| == 6 {
        assert left[4] == EscapeByte(x)[4] && right[4] == EscapeByte(y)[4];
        assert left[5] == EscapeByte(x)[5] && right[5] == EscapeByte(y)[5];
      }
    }
    assert x == y;
    SplitEqual(EscapeByte(x), r, EscapeByte(y), s);
  }

  /** The text after an opening quote: the escaped bytes, the closing quote, and what follows. */
  function AfterOpeningQuote(s: Bytes, rest: Bytes): (t: Bytes)
    ensures t != []
    ensures t[0] == QUOTE <==> s == []
  {
    if s == [] then [QUOTE] + rest else EscapeByte(s[0]) + AfterOpeningQuote(s[1..], rest)
  }

  lemma {:induction false} QuoteThen(s: Bytes, rest: Bytes)
    ensures Escape(s) + [QUOTE] + rest == AfterOpeningQuote(s, rest)
  {
    if s != [] {
      QuoteThen(s[1..], rest);
      assert Escape(s) + [QUOTE] + rest == EscapeByte(s[0]) + (Escape(s[1..]) + [QUOTE] + rest);
    }
  }

  lemma {:induction false} EscapeDecodes(a: Bytes, r: Bytes, b: Bytes, s: Bytes)
    requires AfterOpeningQuote(a, r) == AfterOpeningQuote(b, s)
    ensures a == b && r == s
  {
    if a == [] && b == [] {
      SplitEqual([QUOTE], r, [QUOTE], s);
    } else if a != [] && b != [] {
      EscapeByteDecodes(a[0], AfterOpeningQuote(a[1..], r), b[0], AfterOpeningQuote(b[1..], s));
      EscapeDecodes(a[1..], r, b[1..], s);
      assert a == [a[0]] + a[1..] && b == [b[0]] + b[1..];
    }
  }

  lemma QuotedThen(s: Bytes, rest: Bytes)
    ensures Quote(s) + rest == [QUOTE] + AfterOpeningQuote(s, rest)
  {
    QuoteThen(s, rest);
    assert Quote(s) + rest == [QUOTE] + (Escape(s) + [QUOTE] + rest);
  }

  /** A quoted string ends where its text says it ends, whatever follows it. */
  lemma QuoteDecodes(a: Bytes, r: Bytes, b: Bytes, s: Bytes)
    requires Quote(a) + r == Quote(b) + s
    ensures a == b && r == s
  {
    QuotedThen(a, r);
    QuotedThen(b, s);
    SplitEqual([QUOTE], AfterOpeningQuote(a, r), [QUOTE], AfterOpeningQuote(b, s));
    EscapeDecodes(a, r, b, s);
  }

  // ---------------------------------------------------------------- the reading of section 7 of RFC 8259

  function DigitValue(d: byte): (v: nat)
    ensures v < 16
  {
    if 0x30 <= d <= 0x39 then d - 0x30 else if 0x61 <= d <= 0x66 then d - 0x61 + 10
    else if 0x41 <= d <= 0x46 then d - 0x41 + 10 else 0
  }

  /** The byte that a backslash and `c` stand for. */
  function Escaped(c: char): (b: byte)
  {
    match c
    case 'b' => 0x08
    case 'f' => 0x0c
    case 'n' => 0x0a
    case 'r' => 0x0d
    case 't' => 0x09
    case _ => if c < 256 as char then c as int else 0
  }

  /** What stands between the quotes, read from the left; of the numeric escapes only those of one byte. */
  function Unescape(t: Bytes): (s: Bytes)
  {
    if t == [] then []
    else if t[0] != BACKSLASH || |t| == 1 then [t[0]] + Unescape(t[1..])
    else if t[1] as char == 'u' && |t| >= 6 then [DigitValue(t[4]) * 16 + DigitValue(t[5])] + Unescape(t[6..])
    else [Escaped(t[1] as char)] + Unescape(t[2..])
  }

  lemma UnescapeByte(b: byte, rest: Bytes)
    ensures Unescape(EscapeByte(b) + rest) == [b] + Unescape(rest)
  {
    var e, t := EscapeByte(b), EscapeByte(b) + rest;
    assert t[|e|..] == rest && t[0] == e[0];
    if |e| > 1 { assert t[1] == e[1]; }
    if |e| == 6 { assert t[4] == e[4] && t[5] == e[5]; }
  }

  /** A reader of the standard gets back what was written, and no quote or control byte stands unescaped. */
  lemma {:induction false} UnescapeEscape(s: Bytes)
    ensures Unescape(Escape(s)) == s
    ensures forall x :: x in Escape(s) ==> x >= 0x20
  {
    if s != [] {
      UnescapeEscape(s[1..]);
      UnescapeByte(s[0], Escape(s[1..]));
      assert s == [s[0]] + s[1..];
    }
  }

  function DecimalValue(d: Bytes): (n: nat)
    requires forall i :: 0 <= i < |d| ==> 0x30 <= d[i] <= 0x39
  {
    if d == [] then 0 else DecimalValue(d[..|d| - 1]) * 10 + (d[|d| - 1] - 0x30)
  }

  lemma {:induction false} DecimalReads(n: nat)
    ensures forall i :: 0 <= i < |Decimal(n)| ==> 0x30 <= Decimal(n)[i] <= 0x39
    ensures DecimalValue(Decimal(n)) == n && (n > 0 ==> Decimal(n)[0] != 0x30)
  {
    if n >= 10 {
      DecimalReads(n / 10);
      var d := Decimal(n);
      assert d[..|d| - 1] == Decimal(n / 10);
    } else {
      assert Decimal(n)[..0] == [];
    }
  }

  /** Text without quotes, backslashes and control bytes is written as it is. */
  lemma {:induction false} PlainEscape(s: Bytes)
    requires forall i :: 0 <= i < |s| ==> Plain(s[i])
    ensures Escape(s) == s
  {
    if s != [] {
      PlainEscape(s[1..]);
      assert s == [s[0]] + s[1..];
    }
  }

  /** An escaped byte takes at most six. */
  lemma {:induction false} QuoteLength(s: Bytes)
    ensures |Escape(s)| <= 6 * |s| && |Quote(s)| == |Escape(s)| + 2
  {
    if s != [] { QuoteLength(s[1..]); }
  }
}
