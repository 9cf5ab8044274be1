/**
 * Little-endian integers as byte strings, two's complement, and the loops with
 * which the SDK fills and reads buffers where `Buffer` lacks the BigInt methods.
 */
module Bytes {
  import opened Base

  /** 256 to the power n. */
  function Pow256(n: nat): (p: nat)
    ensures p >= 1
  {
    if n == 0 then 1 else 256 * Pow256(n - 1)
  }

  /** The low `width` bytes of v, least significant first, for v of either sign. */
  function LE(v: int, width: nat): (s: seq<byte>)
    ensures |s| == width
    decreases width
  {
    if width == 0 then [] else [v % 256] + LE(v / 256, width - 1)
  }

  function FromLE(s: seq<byte>): nat {
    if s == [] then 0 else s[0] + 256 * FromLE(s[1..])
  }

  /** Two's complement of an i64, and back. */
  function ToBits(v: i64): u64 {
    if v < 0 then v + U64_RANGE else v
  }

  function FromBits(u: u64): i64 {
    if u >= I64_HALF then u - U64_RANGE else u
  }

  lemma EightBytes()
    ensures Pow256(8) == U64_RANGE
  {
  }

  lemma MulGrows(m: nat, d: int)
    ensures d >= 1 ==> m * d >= m
    ensures d <= -1 ==> m * d <= 0 - m
  {
  }

  /** Quotient and remainder are determined by the division equation. */
  lemma EuclidUnique(v: int, m: nat, q: int, r: nat)
    requires r < m && v == m * q + r
    ensures v / m == q && v % m == r
  {
    assert m * (v / m - q) == r - v % m;
    MulGrows(m, v / m - q);
  }

  /** Dividing by 256 first splits off the low byte. */
  lemma DivModStep(v: int, p: nat)
    requires p >= 1
    ensures v % (256 * p) == v % 256 + 256 * ((v / 256) % p)
    ensures v / (256 * p) == (v / 256) / p
  {
    var q, r := v / 256, v % 256;
    var a, b := q / p, q % p;
    assert 256 * (p * a) == (256 * p) * a;
    EuclidUnique(v, 256 * p, a, r + 256 * b);
  }

  lemma Regroup(p: nat, a: int, b: nat, r: nat)
    requires r < p && b < 256
    ensures p * (256 * a + b) + r == (256 * p) * a + (p * b + r)
    ensures 0 <= p * b + r < 256 * p
  {
  }

  /** Dividing by 256 last gives the same quotient. */
  lemma DivStepLast(v: int, p: nat)
    requires p >= 1
    ensures (v / p) / 256 == v / (256 * p)
  {
    var a, b := (v / p) / 256, (v / p) % 256;
    var r := v % p;
    Regroup(p, a, b, r);
    assert v == p * (256 * a + b) + r;
    EuclidUnique(v, 256 * p, a, p * b + r);
  }

  /** Decoding inverts encoding modulo 256^width, for every integer. */
  lemma {:induction false} FromLEofLE(v: int, width: nat)
    ensures FromLE(LE(v, width)) == v % Pow256(width)
    decreases width
  {
    if width > 0 {
      FromLEofLE(v / 256, width - 1);
      DivModStep(v, Pow256(width - 1));
      assert LE(v, width)[1..] == LE(v / 256, width - 1);
    }
  }

  /** Encoding inverts decoding, and every byte string denotes a number that fits. */
  lemma {:induction false} LEofFromLE(s: seq<byte>)
    ensures LE(FromLE(s), |s|) == s
    ensures FromLE(s) < Pow256(|s|)
  {
    if s != [] {
      LEofFromLE(s[1..]);
      assert FromLE(s) / 256 == FromLE(s[1..]);
    }
  }

  function DecodeU64(s: seq<byte>): (v: u64)
    requires |s| == 8
  {
    LEofFromLE(s);
    EightBytes();
    FromLE(s)
  }

  function DecodeI64(s: seq<byte>): i64
    requires |s| == 8
  {
    FromBits(DecodeU64(s))
  }

  /** `to_le_bytes` then `from_le_bytes` is the identity on u64. */
  lemma U64RoundTrip(v: u64)
    ensures DecodeU64(LE(v, 8)) == v
  {
    FromLEofLE(v, 8);
    EightBytes();
  }

  /** Encoding depends only on the value modulo 256^width. */
  lemma {:induction false} LEofMod(v: int, width: nat)
    ensures LE(v % Pow256(width), width) == LE(v, width)
  {
    FromLEofLE(v, width);
    LEofFromLE(LE(v, width));
  }

  /** The bytes of an i64 are the bytes of its two's complement, and decode back to it. */
  lemma I64RoundTrip(v: i64)
    ensures LE(ToBits(v), 8) == LE(v, 8)
    ensures DecodeI64(LE(v, 8)) == v
  {
    EightBytes();
    EuclidUnique(v, U64_RANGE, if v < 0 then -1 else 0, ToBits(v));
    LEofMod(v, 8);
    FromLEofLE(v, 8);
  }

  /** Eight bytes are the encoding of the number, signed or not, they decode to. */
  lemma WordsReencode(s: seq<byte>)
    requires |s| == 8
    ensures LE(DecodeU64(s), 8) == s && LE(DecodeI64(s), 8) == s
  {
    LEofFromLE(s);
    EightBytes();
    var u, v := DecodeU64(s), DecodeI64(s);
    EuclidUnique(v, U64_RANGE, if v < 0 then -1 else 0, u);
    LEofMod(v, 8);
  }

  /** The first n bytes of a longer encoding. */
  lemma {:induction false} LESnoc(v: int, n: nat)
    ensures LE(v, n + 1) == LE(v, n) + [(v / Pow256(n)) % 256]
    decreases n
  {
    if n > 0 {
      var high: byte := ((v / 256) / Pow256(n - 1)) % 256;
      LESnoc(v / 256, n - 1);
      assert high == (v / Pow256(n)) % 256 by {
        DivModStep(v, Pow256(n - 1));
      }
      assert [v % 256] + (LE(v / 256, n - 1) + [high]) == ([v % 256] + LE(v / 256, n - 1)) + [high];
    }
  }

  lemma {:induction false} FromLECons(b: byte, s: seq<byte>)
    ensures FromLE([b] + s) == b + 256 * FromLE(s)
  {
  }

  /** `writeBigUInt64LE` as the SDK defines it: eight bytes of v, and no others. */
  method WriteBigUInt64LE(buf: array<byte>, value: int, offset: nat) returns (next: nat)
    requires offset + 8 <= buf.Length
    modifies buf
    ensures next == offset + 8
    ensures buf[..] == old(buf[..offset]) + LE(value, 8) + old(buf[offset + 8..])
    ensures DecodeU64(buf[offset..offset + 8]) == value % U64_RANGE
  {
    var v := value;
    var i := 0;
    while i < 8
      invariant 0 <= i <= 8
      invariant v == value / Pow256(i)
      invariant buf[..offset] == old(buf[..offset])
      invariant buf[offset..offset + i] == LE(value, i)
      invariant buf[offset + i..] == old(buf[offset + i..])
    {
      LESnoc(value, i);
      DivStepLast(value, Pow256(i));
      buf[offset + i] := v % 256;
      assert buf[offset..offset + i + 1] == buf[offset..offset + i] + [v % 256];
      v := v / 256;
      i := i + 1;
    }
    next := offset + 8;
    assert buf[..] == buf[..offset] + buf[offset..offset + 8] + buf[offset + 8..];
    FromLEofLE(value, 8);
    EightBytes();
  }

  /** `writeBigInt64LE`: reduce to 64 bits, then write. */
  method WriteBigInt64LE(buf: array<byte>, value: int, offset: nat) returns (next: nat)
    requires offset + 8 <= buf.Length
    modifies buf
    ensures next == offset + 8
    ensures buf[..] == old(buf[..offset]) + LE(value, 8) + old(buf[offset + 8..])
    ensures -I64_HALF <= value < I64_HALF ==> DecodeI64(buf[offset..offset + 8]) == value
  {
    EightBytes();
    LEofMod(value, 8);
    if -I64_HALF <= value < I64_HALF {
      I64RoundTrip(value);
    }
    next := WriteBigUInt64LE(buf, value % U64_RANGE, offset);
    assert buf[offset..offset + 8] == LE(value, 8);
  }

  /** `readBigUInt64LE`: most significant byte first. */
  method ReadBigUInt64LE(buf: array<byte>, offset: nat) returns (r: nat)
    requires offset + 8 <= buf.Length
    ensures r == DecodeU64(buf[offset..offset + 8])
    ensures LE(r, 8) == buf[offset..offset + 8]
  {
    r := 0;
    var i := 7;
    while i >= 0
      invariant -1 <= i <= 7
      invariant r == FromLE(buf[offset + i + 1..offset + 8])
    {
      FromLECons(buf[offset + i], buf[offset + i + 1..offset + 8]);
      assert buf[offset + i..offset + 8] == [buf[offset + i]] + buf[offset + i + 1..offset + 8];
      r := r * 256 + buf[offset + i];
      i := i - 1;
    }
    LEofFromLE(buf[offset..offset + 8]);
  }
}
