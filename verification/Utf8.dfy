/** UTF-8 as defined by the table in section 3 of RFC 3629. A char is a Unicode scalar value. */
module Utf8 {
  import opened Wrappers

  newtype byte = x: int | 0 <= x < 256

  function EncodeChar(c: char): seq<byte> {
    var n := c as int;
    if n < 0x80 then [n as byte]
    else if n < 0x800 then [(0xC0 + n / 64) as byte, (0x80 + n % 64) as byte]
    else if n < 0x10000 then [(0xE0 + n / 4096) as byte, (0x80 + n / 64 % 64) as byte, (0x80 + n % 64) as byte]
    else [(0xF0 + n / 262144) as byte, (0x80 + n / 4096 % 64) as byte,
          (0x80 + n / 64 % 64) as byte, (0x80 + n % 64) as byte]
  }

  function Encode(s: string): seq<byte> {
    if s == [] then [] else EncodeChar(s[0]) + Encode(s[1..])
  }

  predicate Ascii(s: string) {
    forall i :: 0 <= i < |s| ==> (s[i] as int) < 0x80
  }

  /** A code point below 128 is its own byte; any other is made of bytes from 128 on. */
  lemma EncodeCharShape(c: char)
    ensures (c as int) < 0x80 ==> EncodeChar(c) == [c as int as byte]
    ensures (c as int) >= 0x80 ==> |EncodeChar(c)| >= 2 && forall b :: b in EncodeChar(c) ==> b >= 0x80
  {
  }

  lemma {:induction false} EncodeConcat(a: string, b: string)
    ensures Encode(a + b) == Encode(a) + Encode(b)
  {
    if a == [] {
      assert a + b == b;
    } else {
      EncodeConcat(a[1..], b);
      Regroup(EncodeChar(a[0]), Encode(a[1..]), Encode(b));
      assert (a + b)[0] == a[0] && (a + b)[1..] == a[1..] + b;
    }
  }

  lemma {:induction false} EncodeAscii(s: string)
    requires Ascii(s)
    ensures |Encode(s)| == |s|
    ensures forall i :: 0 <= i < |s| ==> Encode(s)[i] as int == s[i] as int
  {
    if s != [] {
      EncodeAscii(s[1..]);
    }
  }

  /** Encoded text has at least one byte for each code point, and at most four. */
  lemma {:induction false} EncodeLength(s: string)
    ensures |s| <= |Encode(s)| <= 4 * |s|
    ensures |Encode(s)| == |s| <==> Ascii(s)
  {
    if s != [] {
      EncodeLength(s[1..]);
      assert s == [s[0]] + s[1..];
      EncodeCharShape(s[0]);
    }
  }

  lemma {:induction false} HighByte(s: string)
    requires !Ascii(s)
    ensures exists b :: b in Encode(s) && b >= 0x80
  {
    EncodeCharShape(s[0]);
    if (s[0] as int) >= 0x80 {
      assert EncodeChar(s[0])[0] in Encode(s);
    } else {
      HighByte(s[1..]);
      var b :| b in Encode(s[1..]) && b >= 0x80;
      assert b in Encode(s);
    }
  }

  /** No encoding of a code point is the beginning of another's: the first byte gives the length. */
  lemma EncodeCharPrefixFree(c: char, d: char, x: seq<byte>, y: seq<byte>)
    requires EncodeChar(c) + x == EncodeChar(d) + y
    ensures c == d && x == y
  {
    var p, q := EncodeChar(c), EncodeChar(d);
    assert (p + x)[0] == p[0] && (q + y)[0] == q[0];
    assert |p| == |q|;
    assert p == (p + x)[..|p|] == q;
    assert x == (p + x)[|p|..] == y;
    EncodeCharRoundTrip(c);
    EncodeCharRoundTrip(d);
  }

  /** The number carried by one encoded code point: the low bits of its bytes, most significant first. */
  function CodePoint(p: seq<byte>): int {
    if |p| == 2 then (p[0] as int - 0xC0) * 64 + (p[1] as int - 0x80)
    else if |p| == 3 then (p[0] as int - 0xE0) * 4096 + (p[1] as int - 0x80) * 64 + (p[2] as int - 0x80)
    else if |p| == 4 then
      (p[0] as int - 0xF0) * 262144 + (p[1] as int - 0x80) * 4096 + (p[2] as int - 0x80) * 64 + (p[3] as int - 0x80)
    else if |p| == 1 then p[0] as int
    else 0
  }

  lemma EncodeCharRoundTrip(c: char)
    ensures CodePoint(EncodeChar(c)) == c as int
  {
    var n := c as int;
    SplitDigits(n);
  }

  /** The table: the ranges of code points decide the length, the first byte carries the length and the highest
      bits, and each further byte carries six bits. */
  lemma EncodeCharTable(c: char)
    ensures var n, e := c as int, EncodeChar(c);
      && (n < 0x80 ==> |e| == 1 && e[0] as int == n)
      && (0x80 <= n < 0x800 ==> |e| == 2 && 0xC0 <= e[0] < 0xE0)
      && (0x800 <= n < 0x10000 ==> |e| == 3 && 0xE0 <= e[0] < 0xF0)
      && (0x10000 <= n ==> |e| == 4 && 0xF0 <= e[0] < 0xF8)
      && (|e| == 2 ==> n == (e[0] as int - 0xC0) * 64 + (e[1] as int - 0x80))
      && (|e| == 3 ==> n == (e[0] as int - 0xE0) * 4096 + (e[1] as int - 0x80) * 64 + (e[2] as int - 0x80))
      && (|e| == 4 ==>
            n == (e[0] as int - 0xF0) * 262144 + (e[1] as int - 0x80) * 4096
                 + (e[2] as int - 0x80) * 64 + (e[3] as int - 0x80))
      && forall i :: 0 < i < |e| ==> 0x80 <= e[i] < 0xC0
  {
    EncodeCharRoundTrip(c);
  }

  lemma SplitDigits(n: nat)
    ensures n == n / 64 * 64 + n % 64
    ensures n == n / 4096 * 4096 + n / 64 % 64 * 64 + n % 64
    ensures n == n / 262144 * 262144 + n / 4096 % 64 * 4096 + n / 64 % 64 * 64 + n % 64
  {
    var a := n / 64;
    var b := a / 64;
    assert n == a * 64 + n % 64 && a == b * 64 + a % 64 && b == b / 64 * 64 + b % 64;
    assert n / 4096 == b && n / 262144 == b / 64;
  }

  // --- Decoding ---

  predicate IsScalar(n: int) { 0 <= n < 0xD800 || 0xE000 <= n < 0x110000 }

  /** How many bytes a character takes by its first one; none starts with a continuation byte or from 0xF8 on. */
  function LeadLength(b: byte): nat {
    if b < 0x80 then 1
    else if b < 0xC0 then 0
    else if b < 0xE0 then 2
    else if b < 0xF0 then 3
    else if b < 0xF8 then 4
    else 0
  }

  /** A strict decoder: surrogates, numbers out of range, overlong forms and wrong continuation bytes are refused. */
  function DecodeChar(p: seq<byte>): Option<char> {
    if p != [] && LeadLength(p[0]) == |p| && IsScalar(CodePoint(p)) && EncodeChar(CodePoint(p) as char) == p
    then Some(CodePoint(p) as char) else None
  }

  lemma EncodeFirst(c: char, rest: string)
    ensures Encode([c] + rest) == EncodeChar(c) + Encode(rest)
  {
    assert ([c] + rest)[1..] == rest;
  }

  function Decode(bytes: seq<byte>): (r: Option<string>)
    ensures r.Some? ==> Encode(r.value) == bytes
    decreases |bytes|
  {
    if bytes == [] then Some("")
    else
      var n := LeadLength(bytes[0]);
      if n == 0 || n > |bytes| then None
      else match (DecodeChar(bytes[..n]), Decode(bytes[n..]))
        case (Some(c), Some(rest)) =>
          EncodeFirst(c, rest);
          Some([c] + rest)
        case _ => None
  }

  lemma DecodeCharEncoded(c: char)
    ensures EncodeChar(c) != [] && LeadLength(EncodeChar(c)[0]) == |EncodeChar(c)|
    ensures DecodeChar(EncodeChar(c)) == Some(c)
  {
    EncodeCharRoundTrip(c);
    LeadOf(c);
  }

  lemma LeadOf(c: char)
    ensures EncodeChar(c) != [] && LeadLength(EncodeChar(c)[0]) == |EncodeChar(c)|
  {
  }

  lemma {:induction false} DecodeEncoded(s: string)
    ensures Decode(Encode(s)) == Some(s)
  {
    if s != [] {
      var p, rest := EncodeChar(s[0]), Encode(s[1..]);
      DecodeCharEncoded(s[0]);
      DecodeEncoded(s[1..]);
      assert (p + rest)[0] == p[0] && (p + rest)[..|p|] == p && (p + rest)[|p|..] == rest;
      assert s == [s[0]] + s[1..];
    }
  }

  /** The decoder accepts exactly the encodings. */
  lemma DecodesExactlyText(bytes: seq<byte>)
    ensures Decode(bytes).Some? <==> exists s :: Encode(s) == bytes
  {
    if Decode(bytes).Some? {
      assert Encode(Decode(bytes).value) == bytes;
    }
    if s :| Encode(s) == bytes {
      DecodeEncoded(s);
    }
  }

  lemma {:induction false} EncodeInjective(s: string, t: string)
    requires Encode(s) == Encode(t)
    ensures s == t
  {
    EncodeLength(s);
    EncodeLength(t);
    if s != [] && t != [] {
      EncodeCharPrefixFree(s[0], t[0], Encode(s[1..]), Encode(t[1..]));
      EncodeInjective(s[1..], t[1..]);
      assert s == [s[0]] + s[1..] && t == [t[0]] + t[1..];
    }
  }

  /** Bytes that start with an ASCII text come from a text that starts with it. */
  lemma {:induction false} AsciiPrefix(s: string, a: string)
    requires Ascii(a) && Encode(a) <= Encode(s)
    ensures a <= s && Encode(s)[|Encode(a)|..] == Encode(s[|a|..])
  {
    if a != [] {
      EncodeLength(s);
      EncodeLength(a);
      EncodeCharShape(a[0]);
      EncodeCharShape(s[0]);
      assert Encode(a)[0] == Encode(s)[0];
      assert Encode(a)[0] == EncodeChar(a[0])[0] && Encode(s)[0] == EncodeChar(s[0])[0];
      assert a[0] == s[0];
      assert Encode(a)[1..] == Encode(a[1..]) && Encode(s)[1..] == Encode(s[1..]);
      AsciiPrefix(s[1..], a[1..]);
      assert s[|a|..] == s[1..][|a| - 1..];
    }
  }
}
