/**
 UTF-8 (section 3 of RFC 3629), as far as a byte search needs it: the encoding of a non-empty text occurs
 in the encoding of another only where the text itself occurs.
 */
module Utf8 {
  import opened Text

  type byte = b: int | 0 <= b < 256

  function EncodeChar(c: char): (e: seq<byte>)
    ensures 1 <= |e| <= 4
  {
    var n := c as int;
    if n < 0x80 then [n]
    else if n < 0x800 then [0xC0 + n / 64, 0x80 + n % 64]
    else if n < 0x1_0000 then [0xE0 + n / 4096, 0x80 + n / 64 % 64, 0x80 + n % 64]
    else [0xF0 + n / 262144, 0x80 + n / 4096 % 64, 0x80 + n / 64 % 64, 0x80 + n % 64]
  }

  function Encode(s: string): seq<byte> {
    if s == "" then [] else EncodeChar(s[0]) + Encode(s[1..])
  }

  /** Continuation bytes are the ones that do not start a character. */
  predicate IsContinuation(b: byte) {
    0x80 <= b < 0xC0
  }

  lemma EncodeCharShape(c: char)
    ensures !IsContinuation(EncodeChar(c)[0])
    ensures forall i :: 1 <= i < |EncodeChar(c)| ==> IsContinuation(EncodeChar(c)[i])
  {
  }

  /** The code point of an encoded character. */
  function Decode(e: seq<int>): int
    requires 1 <= |e| <= 4
  {
    if |e| == 1 then e[0]
    else if |e| == 2 then (e[0] - 0xC0) * 64 + (e[1] - 0x80)
    else if |e| == 3 then (e[0] - 0xE0) * 4096 + (e[1] - 0x80) * 64 + (e[2] - 0x80)
    else (e[0] - 0xF0) * 262144 + (e[1] - 0x80) * 4096 + (e[2] - 0x80) * 64 + (e[3] - 0x80)
  }

  /** The shortest form that holds the code point is used. */
  lemma EncodeCharLength(c: char)
    ensures |EncodeChar(c)| == if c as int < 0x80 then 1 else if c as int < 0x800 then 2 else if c as int < 0x1_0000 then 3 else 4
  {
  }

  /** Decoding an encoded character gives the code point back. */
  lemma DecodeEncode(c: char)
    ensures Decode(EncodeChar(c)) == c as int
  {
    var n := c as int;
    assert n / 64 == n / 4096 * 64 + n / 64 % 64;
    assert n / 4096 == n / 262144 * 64 + n / 4096 % 64;
  }

  /** The first byte fixes the length. */
  lemma LeadFixesLength(c: char, d: char)
    requires EncodeChar(c)[0] == EncodeChar(d)[0]
    ensures |EncodeChar(c)| == |EncodeChar(d)|
  {
  }

  /** No encoded character is a proper prefix of another. */
  lemma EncodeCharPrefix(c: char, d: char, x: seq<byte>)
    requires EncodeChar(c) <= x && EncodeChar(d) <= x
    ensures c == d
  {
    hide EncodeChar, Decode;
    LeadFixesLength(c, d);
    assert EncodeChar(c) == EncodeChar(d);
    DecodeEncode(c);
    DecodeEncode(d);
  }

  lemma EncodeCons(s: string)
    requires s != ""
    ensures Encode(s) == EncodeChar(s[0]) + Encode(s[1..])
  {
  }

  lemma Associate<T>(a: seq<T>, b: seq<T>, c: seq<T>)
    ensures a + (b + c) == (a + b) + c
  {
  }

  lemma {:induction false} EncodeConcat(a: string, b: string)
    ensures Encode(a + b) == Encode(a) + Encode(b)
  {
    if a == "" {
      assert a + b == b;
    } else {
      hide Encode, EncodeChar;
      EncodeConcat(a[1..], b);
      EncodeCons(a);
      EncodeCons(a + b);
      assert (a + b)[1..] == a[1..] + b;
      Associate(EncodeChar(a[0]), Encode(a[1..]), Encode(b));
    }
  }

  /** Byte offset of code point `i`. */
  function ByteOffset(s: string, i: nat): nat
    requires i <= |s|
  {
    |Encode(s[..i])|
  }

  lemma OffsetSplits(s: string, i: nat)
    requires i <= |s|
    ensures Encode(s) == Encode(s[..i]) + Encode(s[i..])
    ensures ByteOffset(s, i) <= |Encode(s)|
  {
    hide Encode;
    EncodeConcat(s[..i], s[i..]);
    assert s[..i] + s[i..] == s;
  }

  /** Later code points have later byte offsets, and a non-empty text has bytes. */
  lemma OffsetsIncrease(s: string, i: nat, j: nat)
    requires i < j <= |s|
    ensures ByteOffset(s, i) < ByteOffset(s, j)
  {
    var t := s[..j];
    OffsetSplits(t, i);
    assert t[..i] == s[..i];
  }

  /** Decoding is unique: a prefix of the bytes is a prefix of the text. */
  lemma {:induction false} PrefixDecodes(n: string, h: string)
    requires Encode(n) <= Encode(h)
    ensures n <= h
  {
    if n != "" {
      var e := EncodeChar(n[0]);
      assert e <= Encode(n);
      assert h != "";
      EncodeCharPrefix(n[0], h[0], Encode(h));
      assert Encode(n[1..]) == Encode(n)[|e|..] && Encode(h[1..]) == Encode(h)[|e|..];
      PrefixDecodes(n[1..], h[1..]);
      assert n == [n[0]] + n[1..] && h == [h[0]] + h[1..];
    }
  }

  /** A byte that is not a continuation byte is the first byte of some code point. */
  lemma {:induction false} StartIsBoundary(h: string, b: nat) returns (j: nat)
    requires b < |Encode(h)| && !IsContinuation(Encode(h)[b])
    ensures j < |h| && ByteOffset(h, j) == b
  {
    var e := EncodeChar(h[0]);
    EncodeCharShape(h[0]);
    assert forall i :: 0 <= i < |e| ==> Encode(h)[i] == e[i];
    if b == 0 {
      j := 0;
      assert h[..0] == "";
    } else {
      assert b >= |e|;
      assert Encode(h[1..])[b - |e|] == Encode(h)[b];
      var k := StartIsBoundary(h[1..], b - |e|);
      j := k + 1;
      assert h[..j][1..] == h[1..][..k] && h[..j][0] == h[0];
    }
  }

  lemma SliceConcat<T>(a: seq<T>, b: seq<T>, c: seq<T>)
    requires b <= c
    ensures OccursAt(a + c, b, |a|)
  {
    assert (a + c)[|a|..|a| + |b|] == c[..|b|];
  }

  /** Where the text occurs, its bytes occur. */
  lemma TextToBytes(h: string, n: string, j: nat)
    requires OccursAt(h, n, j)
    ensures OccursAt(Encode(h), Encode(n), ByteOffset(h, j))
  {
    OffsetSplits(h, j);
    var tail := h[j..];
    assert tail == n + tail[|n|..];
    EncodeConcat(n, tail[|n|..]);
    SliceConcat(Encode(h[..j]), Encode(n), Encode(tail));
  }

  lemma TailBytes<T>(a: seq<T>, c: seq<T>, y: seq<T>)
    requires OccursAt(a + c, y, |a|)
    ensures y <= c
  {
    assert y == (a + c)[|a|..|a| + |y|] == c[..|y|];
  }

  /** Where the bytes of a non-empty text occur, a code point starts and the text occurs. */
  lemma BytesToText(h: string, n: string, b: nat) returns (j: nat)
    requires n != "" && OccursAt(Encode(h), Encode(n), b)
    ensures j < |h| && ByteOffset(h, j) == b && OccursAt(h, n, j)
  {
    EncodeCharShape(n[0]);
    var y := Encode(n);
    assert y != [] && y[0] == EncodeChar(n[0])[0];
    assert Encode(h)[b..b + |y|][0] == Encode(h)[b];
    j := StartIsBoundary(h, b);
    hide Encode, EncodeChar;
    OffsetSplits(h, j);
    TailBytes(Encode(h[..j]), Encode(h[j..]), y);
    PrefixDecodes(n, h[j..]);
    assert h[j..j + |n|] == h[j..][..|n|];
  }
}
