/** A bounded cursor buffer and the integers written to it (src/aioquic/_buffer.c). */
module Buffers {
  import opened Common

  // ---- Big-endian integers ----

  /** The n low-order bytes of v, most significant first. */
  function BigEndian(v: nat, n: nat): (b: seq<byte>)
    ensures |b| == n
  {
    if n == 0 then [] else BigEndian(v / 256, n - 1) + [v % 256]
  }

  function FromBigEndian(b: seq<byte>): nat {
    if b == [] then 0 else FromBigEndian(b[..|b| - 1]) * 256 + b[|b| - 1]
  }

  function Pow256(n: nat): (p: nat)
    ensures p > 0
  {
    if n == 0 then 1 else 256 * Pow256(n - 1)
  }

  lemma {:induction false} BigEndianInverse(v: nat, n: nat)
    ensures FromBigEndian(BigEndian(v, n)) == v % Pow256(n)
  {
    if n > 0 {
      BigEndianInverse(v / 256, n - 1);
      assert BigEndian(v, n)[..n - 1] == BigEndian(v / 256, n - 1);
      DigitsOf(v, Pow256(n - 1));
    }
  }

  lemma DigitsOf(v: nat, p: nat)
    requires p > 0
    ensures (v / 256) % p * 256 + v % 256 == v % (256 * p)
  {
    var q, r := v / 256, v % 256;
    var a, b := q / p, q % p;
    assert v == 256 * q + r && q == p * a + b;
    assert v == (256 * p) * a + (256 * b + r) by {
      assert 256 * (p * a + b) == (256 * p) * a + 256 * b;
    }
    assert 256 * b + r < 256 * p;
    RemainderUnique(v, 256 * p, a, 256 * b + r);
  }

  lemma {:induction false} FromBigEndianBound(b: seq<byte>)
    ensures FromBigEndian(b) < Pow256(|b|)
  {
    if b != [] {
      FromBigEndianBound(b[..|b| - 1]);
    }
  }

  lemma Powers()
    ensures Pow256(1) == 0x100 && Pow256(2) == 0x1_0000 && Pow256(3) == 0x100_0000 && Pow256(4) == 0x1_0000_0000
    ensures Pow256(8) == 0x1_0000_0000_0000_0000
  {
    assert Pow256(2) == 256 * Pow256(1) && Pow256(3) == 256 * Pow256(2) && Pow256(4) == 256 * Pow256(3);
    assert Pow256(5) == 256 * Pow256(4) && Pow256(6) == 256 * Pow256(5) && Pow256(7) == 256 * Pow256(6);
  }

  /** n bytes read back the n-byte integer written there. */
  lemma ReadsBack(v: nat, n: nat, rest: seq<byte>)
    requires v < Pow256(n)
    ensures (BigEndian(v, n) + rest)[..n] == BigEndian(v, n) && (BigEndian(v, n) + rest)[n..] == rest
    ensures FromBigEndian(BigEndian(v, n)) == v
  {
    BigEndianInverse(v, n);
    RemainderUnique(v, Pow256(n), 0, v);
  }

  // ---- Variable-length integers (section 16 of RFC 9000) ----

  const UINT_VAR_MAX := 0x3FFF_FFFF_FFFF_FFFF
  const TWO_TO_64 := 0x1_0000_0000_0000_0000

  function SizeVar(v: nat): nat
    requires v <= UINT_VAR_MAX
  {
    if v <= 0x3F then 1 else if v <= 0x3FFF then 2 else if v <= 0x3FFF_FFFF then 4 else 8
  }

  /** The two high bits of the first byte tell the size; they are clear in v itself. */
  function EncodeVar(v: nat): seq<byte>
    requires v <= UINT_VAR_MAX
  {
    if v <= 0x3F then BigEndian(v, 1)
    else if v <= 0x3FFF then BigEndian(v + 0x4000, 2)
    else if v <= 0x3FFF_FFFF then BigEndian(v + 0x8000_0000, 4)
    else BigEndian(v + 0xC000_0000_0000_0000, 8)
  }

  /** How many bytes a varint starting with this byte takes. */
  function VarLength(first: byte): nat {
    if first < 64 then 1 else if first < 128 then 2 else if first < 192 then 4 else 8
  }

  /** The value at the front of s and the bytes after it; None when s is too short. */
  function DecodeVar(s: seq<byte>): Option<(nat, seq<byte>)> {
    if s == [] || |s| < VarLength(s[0]) then None
    else
      var n := VarLength(s[0]);
      Some((FromBigEndian([s[0] % 64] + s[1..n]), s[n..]))
  }

  /** Clearing the two high bits of the first byte subtracts their weight. */
  lemma {:induction false} ClearTag(b: seq<byte>, tag: nat)
    requires b != [] && tag <= b[0]
    ensures FromBigEndian([b[0] - tag] + b[1..]) == FromBigEndian(b) - tag * Pow256(|b| - 1)
  {
    var c := [b[0] - tag] + b[1..];
    if |b| > 1 {
      var front := b[..|b| - 1];
      ClearTag(front, tag);
      assert c[..|c| - 1] == [front[0] - tag] + front[1..];
    } else {
      assert c == [b[0] - tag];
      assert c[..0] == [] && b[..0] == [];
    }
  }

  /** The first byte of a big-endian integer is its leading digit. */
  lemma {:induction false} LeadingByte(v: nat, n: nat)
    requires n > 0 && v < Pow256(n)
    ensures BigEndian(v, n)[0] * Pow256(n - 1) <= v < (BigEndian(v, n)[0] + 1) * Pow256(n - 1)
  {
    var q, d := v / 256, BigEndian(v, n)[0];
    if n == 1 {
      assert BigEndian(v, 1) == BigEndian(q, 0) + [v % 256] == [v];
    } else {
      LeadingByte(q, n - 1);
      assert d == BigEndian(q, n - 1)[0];
      Scale(q, v % 256, d, Pow256(n - 2));
    }
  }

  lemma Scale(q: nat, r: nat, d: nat, p: nat)
    requires d * p <= q < (d + 1) * p && r < 256
    ensures d * (256 * p) <= 256 * q + r < (d + 1) * (256 * p)
  {
    assert d * (256 * p) == 256 * (d * p) && (d + 1) * (256 * p) == 256 * ((d + 1) * p);
  }

  lemma TaggedReadsBack(v: nat, tag: byte, n: nat, rest: seq<byte>)
    requires n > 0 && tag % 64 == 0 && n == VarLength(tag) && v < 64 * Pow256(n - 1)
    ensures DecodeVar(BigEndian(v + tag * Pow256(n - 1), n) + rest) == Some((v, rest))
  {
    hide BigEndian, FromBigEndian;
    var p := Pow256(n - 1);
    var w := v + tag * p;
    var b := BigEndian(w, n);
    Below(v, tag, p);
    assert Pow256(n) == 256 * p;
    LeadingByte(w, n);
    LeadingBetween(b[0], p, w, tag);
    ReadsBack(w, n, rest);
    ClearTag(b, tag);
    assert (b + rest)[0] == b[0] && (b + rest)[1..n] == b[1..];
    assert b[0] % 64 == b[0] - tag;
  }

  lemma Below(v: nat, tag: nat, p: nat)
    requires tag <= 192 && v < 64 * p
    ensures tag * p <= v + tag * p < (tag + 64) * p <= 256 * p
  {
    assert (tag + 64) * p == tag * p + 64 * p;
  }

  lemma LeadingBetween(d: nat, p: nat, w: nat, tag: nat)
    requires p > 0 && d * p <= w < (d + 1) * p && tag * p <= w < (tag + 64) * p
    ensures tag <= d < tag + 64
  {
    assert d + 1 <= tag ==> (d + 1) * p <= tag * p;
    assert tag + 64 <= d ==> (tag + 64) * p <= d * p;
  }

  /** Varints round-trip, with the length size_uint_var predicts. */
  lemma VarRoundTrip(v: nat, rest: seq<byte>)
    requires v <= UINT_VAR_MAX
    ensures |EncodeVar(v)| == SizeVar(v) && DecodeVar(EncodeVar(v) + rest) == Some((v, rest))
  {
    Powers();
    assert Pow256(7) == 0x100_0000_0000_0000 && Pow256(0) == 1;
    if v <= 0x3F { TaggedReadsBack(v, 0, 1, rest); }
    else if v <= 0x3FFF { TaggedReadsBack(v, 64, 2, rest); }
    else if v <= 0x3FFF_FFFF { TaggedReadsBack(v, 128, 4, rest); }
    else { TaggedReadsBack(v, 192, 8, rest); }
  }

  // ---- The cursor buffer ----

  /** Bytes before the cursor are data; pushes overwrite and pulls read the bytes after it. */
  class Buffer {
    const base: array<byte>
    var pos: nat

    ghost predicate Valid() reads this { pos <= base.Length }

    ghost function Data(): seq<byte> reads this, base requires Valid() { base[..pos] }

    ghost function Rest(): seq<byte> reads this, base requires Valid() { base[pos..] }

    constructor (capacity: nat)
      ensures Valid() && fresh(base) && base.Length == capacity && Data() == []
    {
      base := new byte[capacity];
      pos := 0;
    }

    constructor Over(data: seq<byte>)
      ensures Valid() && fresh(base) && Data() == [] && Rest() == data
    {
      base := new byte[|data|](i requires 0 <= i < |data| => data[i]);
      pos := 0;
      new;
      assert base[..] == data;
    }

    method PushBytes(data: seq<byte>) returns (ok: bool)
      requires Valid()
      modifies this`pos, base
      ensures Valid()
      ensures ok <==> |data| <= |old(Rest())|
      ensures ok ==> Data() == old(Data()) + data && Rest() == old(Rest())[|data|..]
      ensures !ok ==> Data() == old(Data()) && Rest() == old(Rest())
    {
      if |data| > base.Length - pos { return false; }
      ghost var was, start := base[..], pos;
      for i := 0 to |data|
        invariant pos == start + i <= base.Length
        invariant base[..pos] == was[..start] + data[..i] && base[pos..] == was[pos..]
      {
        assert base[pos + 1..] == base[pos..][1..];
        base[pos] := data[i];
        pos := pos + 1;
        assert base[..pos] == base[..pos - 1] + [data[i]];
        assert data[..i + 1] == data[..i] + [data[i]];
      }
      assert data[..|data|] == data;
      ok := true;
    }

    /** push_uint8, push_uint16, push_uint32 and push_uint64: the high bytes of v are cut off. */
    method PushUint(v: nat, n: nat) returns (ok: bool)
      requires Valid() && n in {1, 2, 4, 8}
      modifies this`pos, base
      ensures Valid()
      ensures ok <==> n <= |old(Rest())|
      ensures ok ==> Data() == old(Data()) + BigEndian(v, n) && Rest() == old(Rest())[n..]
      ensures !ok ==> Data() == old(Data()) && Rest() == old(Rest())
    {
      ok := PushBytes(BigEndian(v, n));
    }

    /** Values over the maximum are refused; v is reduced to 64 bits when it is passed to C. */
    method PushUintVar(v: int) returns (ok: bool)
      requires Valid()
      modifies this`pos, base
      ensures Valid()
      ensures ok <==> v % TWO_TO_64 <= UINT_VAR_MAX && SizeVar(v % TWO_TO_64) <= |old(Rest())|
      ensures ok ==> Data() == old(Data()) + EncodeVar(v % TWO_TO_64)
      ensures ok ==> Rest() == old(Rest())[SizeVar(v % TWO_TO_64)..]
      ensures !ok ==> Data() == old(Data()) && Rest() == old(Rest())
    {
      var value := v % TWO_TO_64;
      if value <= 0x3F {
        ok := PushBytes(BigEndian(value, 1));
      } else if value <= 0x3FFF {
        ok := PushBytes(BigEndian(value + 0x4000, 2));
      } else if value <= 0x3FFF_FFFF {
        ok := PushBytes(BigEndian(value + 0x8000_0000, 4));
      } else if value <= UINT_VAR_MAX {
        ok := PushBytes(BigEndian(value + 0xC000_0000_0000_0000, 8));
      } else {
        ok := false;
      }
    }

    method PullBytes(n: int) returns (r: Option<seq<byte>>)
      requires Valid()
      modifies this`pos
      ensures Valid()
      ensures r.Some? <==> 0 <= n <= |old(Rest())|
      ensures r.Some? ==> r.value == old(Rest())[..n] && Rest() == old(Rest())[n..] && pos == old(pos) + n
      ensures r.None? ==> pos == old(pos)
    {
      if n < 0 || n > base.Length - pos { return None; }
      r := Some(base[pos..pos + n]);
      pos := pos + n;
    }

    method PullUint(n: nat) returns (r: Option<nat>)
      requires Valid() && n in {1, 2, 4, 8}
      modifies this`pos
      ensures Valid()
      ensures r.Some? <==> n <= |old(Rest())|
      ensures r.Some? ==> r.value == FromBigEndian(old(Rest())[..n]) && Rest() == old(Rest())[n..] && pos == old(pos) + n
      ensures r.None? ==> pos == old(pos)
    {
      if n > base.Length - pos { return None; }
      assert base[pos..pos + n] == Rest()[..n];
      r := Some(FromBigEndian(base[pos..pos + n]));
      pos := pos + n;
    }

    method PullUintVar() returns (r: Option<nat>)
      requires Valid()
      modifies this`pos
      ensures Valid()
      ensures r.Some? <==> DecodeVar(old(Rest())).Some?
      ensures r.Some? ==> DecodeVar(old(Rest())) == Some((r.value, Rest())) && pos > old(pos)
      ensures r.None? ==> pos == old(pos)
    {
      if base.Length == pos { return None; }
      var n := VarLength(base[pos]);
      if n > base.Length - pos { return None; }
      assert base[pos + 1..pos + n] == Rest()[1..n];
      r := Some(FromBigEndian([base[pos] % 64] + base[pos + 1..pos + n]));
      pos := pos + n;
    }

    method Seek(to: int) returns (ok: bool)
      requires Valid()
      modifies this`pos
      ensures Valid()
      ensures ok <==> 0 <= to <= base.Length
      ensures pos == if ok then to else old(pos)
    {
      ok := 0 <= to <= base.Length;
      if ok { pos := to; }
    }

    method DataSlice(start: int, end: int) returns (r: Option<seq<byte>>)
      requires Valid()
      ensures r.Some? <==> 0 <= start <= end <= base.Length
      ensures r.Some? ==> r.value == (Data() + Rest())[start..end]
    {
      if !(0 <= start <= end <= base.Length) { return None; }
      assert Data() + Rest() == base[..];
      r := Some(base[start..end]);
    }

    method Eof() returns (b: bool)
      requires Valid()
      ensures b <==> Rest() == []
    {
      b := pos == base.Length;
    }
  }

  // ---- Several writes in a row ----

  /** The buffer has moved from data d0 with rest r0 to d1 and r1 by writing these bytes. */
  predicate Wrote(d0: seq<byte>, r0: seq<byte>, d1: seq<byte>, r1: seq<byte>, bytes: seq<byte>) {
    |bytes| <= |r0| && d1 == d0 + bytes && r1 == r0[|bytes|..]
  }

  lemma WroteTwice(d0: seq<byte>, r0: seq<byte>, d1: seq<byte>, r1: seq<byte>, d2: seq<byte>, r2: seq<byte>,
                   x: seq<byte>, y: seq<byte>)
    requires Wrote(d0, r0, d1, r1, x) && Wrote(d1, r1, d2, r2, y)
    ensures Wrote(d0, r0, d2, r2, x + y)
  {
  }

  lemma WroteNothing(d: seq<byte>, r: seq<byte>)
    ensures Wrote(d, r, d, r, [])
  {
  }
}
