/** Base 128 varints and fixed 64-bit values of the Protocol Buffers encoding,
    with the 64-bit arithmetic of the generated code. */
module Varint {
  type Byte = b: int | 0 <= b < 256
  type Bytes = seq<Byte>

  const TWO_32 := 0x1_0000_0000
  const TWO_63 := 0x8000_0000_0000_0000
  const TWO_64 := 0x1_0000_0000_0000_0000

  datatype Error = IntOverflow | UnexpectedEOF | InvalidLength | EndGroup | IllegalTag | WrongWireType
                 | UnexpectedEndOfGroup | IllegalWireType

  datatype Decoding<+T> = Ok(value: T) | Err(error: Error)

  /** Conversions between int64 and uint64. */
  function ToU64(x: int): (u: nat)
    requires -TWO_63 <= x < TWO_63
    ensures u < TWO_64 && ToI64(u) == x
  {
    if x < 0 then x + TWO_64 else x
  }

  function ToI64(u: nat): (x: int)
    requires u < TWO_64
    ensures -TWO_63 <= x < TWO_63
  {
    if u < TWO_63 then u else u - TWO_64
  }

  // ----- a part of a buffer -----

  ghost predicate HasAt(data: Bytes, i: nat, part: Bytes) {
    i + |part| <= |data| && data[i..i + |part|] == part
  }

  lemma HasAtSplit(data: Bytes, i: nat, a: Bytes, b: Bytes)
    requires HasAt(data, i, a + b)
    ensures HasAt(data, i, a) && HasAt(data, i + |a|, b)
  {
    var ab := data[i..i + |a + b|];
    assert ab[..|a|] == a && ab[|a|..] == b;
    assert data[i..i + |a|] == ab[..|a|];
    assert data[i + |a|..i + |a| + |b|] == ab[|a|..];
  }

  lemma HasAtHead(data: Bytes, i: nat, part: Bytes)
    requires HasAt(data, i, part) && part != []
    ensures i < |data| && data[i] == part[0] && HasAt(data, i + 1, part[1..])
  {
    assert part == [part[0]] + part[1..];
    HasAtSplit(data, i, [part[0]], part[1..]);
    assert data[i..i + 1][0] == part[0];
  }

  // ----- writing -----

  function EncVarint(v: nat): (r: Bytes)
    ensures r != []
  {
    if v < 128 then [v] else [v % 128 + 128] + EncVarint(v / 128)
  }

  /** The number of bits needed to write `x`. */
  function BitLen(x: nat): nat {
    if x == 0 then 0 else 1 + BitLen(x / 2)
  }

  /** The number of bytes the generated code reserves for a varint. */
  function Sov(x: nat): nat {
    (BitLen(if x % 2 == 0 then x + 1 else x) + 6) / 7
  }

  lemma BitLenSevenMore(x: nat)
    requires x >= 128
    ensures BitLen(x) == 7 + BitLen(x / 128)
  {
    var a := x / 2;
    var b := a / 2;
    var c := b / 2;
    var d := c / 2;
    var e := d / 2;
    var f := e / 2;
    assert f / 2 == x / 128;
    assert BitLen(x) == 1 + BitLen(a) == 2 + BitLen(b) == 3 + BitLen(c);
    assert BitLen(c) == 1 + BitLen(d) == 2 + BitLen(e) == 3 + BitLen(f);
    assert BitLen(f) == 1 + BitLen(x / 128);
  }

  lemma BitLenSmall(x: nat)
    requires 0 < x < 128
    ensures 1 <= BitLen(x) <= 7
  {
    var b := x / 4;
    var d := b / 4;
    var f := d / 4;
    assert BitLen(x) <= 2 + BitLen(b) && BitLen(b) <= 2 + BitLen(d) && BitLen(d) <= 2 + BitLen(f);
    assert f < 2;
    assert BitLen(f) <= 1;
  }

  lemma BitLenEven(x: nat)
    requires x > 0 && x % 2 == 0
    ensures BitLen(x + 1) == BitLen(x)
  {
    assert (x + 1) / 2 == x / 2;
  }

  /** The reserved size is exactly the length of the encoding. */
  lemma {:induction false} SovIsLength(v: nat)
    ensures Sov(v) == |EncVarint(v)|
  {
    var odd := if v % 2 == 0 then v + 1 else v;
    if v < 128 {
      BitLenSmall(odd);
    } else {
      var w := v / 128;
      SovIsLength(w);
      if v % 2 == 0 {
        BitLenEven(v);
      }
      if w % 2 == 0 {
        BitLenEven(w);
      }
      BitLenSevenMore(v);
    }
  }

  /** Writes a varint so that it ends before `offset`, and returns where it starts. */
  method EncodeVarint(a: array<Byte>, offset: nat, v: nat) returns (base: nat)
    requires v < TWO_64 && |EncVarint(v)| <= offset <= a.Length
    modifies a
    ensures base == offset - |EncVarint(v)|
    ensures a[base..offset] == EncVarint(v)
    ensures a[..base] == old(a[..base]) && a[offset..] == old(a[offset..])
  {
    SovIsLength(v);
    base := offset - Sov(v);
    var at, rest := base, v;
    while rest >= 128
      invariant base <= at && at + |EncVarint(rest)| == offset
      invariant a[base..at] + EncVarint(rest) == EncVarint(v)
      invariant a[..base] == old(a[..base]) && a[offset..] == old(a[offset..])
      decreases rest
    {
      ghost var done := a[base..at];
      a[at] := rest % 128 + 128;
      assert a[base..at + 1] == done + [rest % 128 + 128];
      rest, at := rest / 128, at + 1;
    }
    ghost var done := a[base..at];
    a[at] := rest;
    assert a[base..offset] == done + [rest];
  }

  // ----- reading -----

  /** `x << n`, without loss. */
  function Shl(x: nat, n: nat): nat {
    if n == 0 then x else 2 * Shl(x, n - 1)
  }

  /** What the decoding loop makes of the bytes from `i` on, with `acc` read so
      far: seven bits a byte, at most ten bytes, bits beyond the 64th are lost. */
  function DecVarint(data: Bytes, i: nat, shift: nat, acc: nat): (r: Decoding<(nat, nat)>)
    requires i <= |data| && acc < TWO_64
    ensures r.Ok? ==> i < r.value.1 <= |data| && r.value.0 < TWO_64
    decreases |data| - i
  {
    if shift >= 64 then Err(IntOverflow)
    else if i >= |data| then Err(UnexpectedEOF)
    else
      var b := data[i];
      // the bits of the new group lie above those read so far
      var v := (acc + Shl(b % 128, shift)) % TWO_64;
      if b < 128 then Ok((v, i + 1)) else DecVarint(data, i + 1, shift + 7, v)
  }

  /** Reads a varint at `i`: its value and the index after it. */
  method ReadVarint(data: Bytes, i: nat) returns (r: Decoding<(nat, nat)>)
    requires i <= |data|
    ensures r == DecVarint(data, i, 0, 0)
  {
    var shift: nat, at: nat, v: nat := 0, i, 0;
    while true
      invariant i <= at <= |data| && v < TWO_64
      invariant DecVarint(data, i, 0, 0) == DecVarint(data, at, shift, v)
      decreases |data| - at
    {
      if shift >= 64 {
        return Err(IntOverflow);
      }
      if at >= |data| {
        return Err(UnexpectedEOF);
      }
      var b := data[at];
      at := at + 1;
      v := (v + Shl(b % 128, shift)) % TWO_64;
      if b < 128 {
        return Ok((v, at));
      }
      shift := shift + 7;
    }
  }

  lemma {:induction false} ShlSum(a: nat, b: nat, n: nat)
    ensures Shl(a + b, n) == Shl(a, n) + Shl(b, n)
  {
    if n > 0 {
      ShlSum(a, b, n - 1);
    }
  }

  lemma ShlSeven(x: nat, n: nat)
    ensures Shl(x, n + 7) == 128 * Shl(x, n)
  {
    assert Shl(x, n + 7) == 2 * Shl(x, n + 6) == 4 * Shl(x, n + 5) == 8 * Shl(x, n + 4);
    assert Shl(x, n + 4) == 2 * Shl(x, n + 3) == 4 * Shl(x, n + 2) == 8 * Shl(x, n + 1);
  }

  lemma {:induction false} ShlMultiple(q: nat, n: nat)
    ensures Shl(128 * q, n) == 128 * Shl(q, n)
  {
    if n > 0 {
      ShlMultiple(q, n - 1);
    }
  }

  /** The lowest group of seven bits, and the others. */
  lemma ShlGroups(v: nat, n: nat)
    ensures Shl(v, n) == Shl(v % 128, n) + Shl(v / 128, n + 7)
  {
    assert v == v % 128 + 128 * (v / 128);
    ShlSum(v % 128, 128 * (v / 128), n);
    ShlMultiple(v / 128, n);
    ShlSeven(v / 128, n);
  }

  lemma {:induction false} ShlGrows(v: nat, n: nat, m: nat)
    requires m <= n
    ensures Shl(v, m) <= Shl(v, n) && v <= Shl(v, m)
  {
    if m < n {
      ShlGrows(v, n - 1, m);
    } else if m > 0 {
      ShlGrows(v, n - 1, m - 1);
    }
  }

  lemma ShlBy64(v: nat)
    ensures Shl(v, 63) == TWO_63 * v && Shl(v, 64) == TWO_64 * v
  {
    ShlSeven(v, 0);
    ShlSeven(v, 7);
    ShlSeven(v, 14);
    ShlSeven(v, 21);
    ShlSeven(v, 28);
    ShlSeven(v, 35);
    ShlSeven(v, 42);
    ShlSeven(v, 49);
    ShlSeven(v, 56);
  }

  /** A value that fits has a group left to read. */
  lemma ShiftBound(v: nat, shift: nat)
    requires Shl(v, shift) < TWO_64 && v > 0
    ensures shift < 64
  {
    assert shift >= 64 ==> Shl(v, shift) >= TWO_64 by {
      if shift >= 64 {
        ShlGrows(v, shift, 64);
        ShlBy64(v);
      }
    }
  }

  /** From any group on, the loop adds the encoded rest to what it has. */
  lemma {:induction false} DecEnc(data: Bytes, i: nat, shift: nat, acc: nat, v: nat)
    requires i <= |data| && HasAt(data, i, EncVarint(v))
    requires acc + Shl(v, shift) < TWO_64 && (v > 0 || shift == 0)
    ensures DecVarint(data, i, shift, acc) == Ok((acc + Shl(v, shift), i + |EncVarint(v)|))
    decreases v
  {
    hide HasAt, Shl;
    HasAtHead(data, i, EncVarint(v));
    ShlGroups(v, shift);
    if v > 0 {
      ShiftBound(v, shift);
    }
    var next := acc + Shl(v % 128, shift);
    assert next % TWO_64 == next;
    if v < 128 {
      assert data[i] == v;
    } else {
      assert data[i] == v % 128 + 128 && data[i] % 128 == v % 128;
      assert EncVarint(v)[1..] == EncVarint(v / 128);
      DecEnc(data, i + 1, shift + 7, next, v / 128);
    }
  }

  /** Reading back a varint gives the value and stops right behind it. */
  lemma VarintRoundTrip(data: Bytes, i: nat, v: nat)
    requires i <= |data| && HasAt(data, i, EncVarint(v)) && v < TWO_64
    ensures DecVarint(data, i, 0, 0) == Ok((v, i + |EncVarint(v)|))
  {
    DecEnc(data, i, 0, 0, v);
  }

  // ----- fixed 64-bit values -----

  /** The low `n` bytes of `v`, least significant first. */
  function LittleEndian(v: nat, n: nat): (r: Bytes)
    ensures |r| == n
  {
    if n == 0 then [] else [v % 256] + LittleEndian(v / 256, n - 1)
  }

  function FromLittleEndian(b: Bytes): nat {
    if b == [] then 0 else b[0] + 256 * FromLittleEndian(b[1..])
  }

  function Pow256(n: nat): nat {
    if n == 0 then 1 else 256 * Pow256(n - 1)
  }

  lemma {:induction false} FixedRoundTrip(v: nat, n: nat)
    requires v < Pow256(n)
    ensures FromLittleEndian(LittleEndian(v, n)) == v
  {
    if n > 0 {
      assert v / 256 < Pow256(n - 1);
      FixedRoundTrip(v / 256, n - 1);
      assert LittleEndian(v, n)[1..] == LittleEndian(v / 256, n - 1);
    }
  }

  lemma Pow256Of8()
    ensures Pow256(8) == TWO_64
  {
    assert Pow256(8) == 256 * Pow256(7) == 256 * 256 * Pow256(6) == 256 * 256 * 256 * Pow256(5);
    assert Pow256(5) == 256 * Pow256(4) == 256 * 256 * Pow256(3) == 256 * 256 * 256 * Pow256(2);
    assert Pow256(2) == 256 * Pow256(1);
  }

  lemma {:induction false} LittleEndianBound(b: Bytes)
    ensures FromLittleEndian(b) < Pow256(|b|)
  {
    if b != [] {
      LittleEndianBound(b[1..]);
    }
  }
}
