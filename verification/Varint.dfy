/**
 Base-128 varints (Protocol Buffers "Encoding" guide, section "Base 128 Varints"):
 the size function, the in-place writer and the reading loops of the generated codec.
 */
module Varint {
  import opened GoTypes

  datatype DecodeError =
    | IntOverflow
    | UnexpectedEOF
    | InvalidLength
    | EndGroup
    | IllegalTag
    | WrongWireType
    | UnexpectedEndOfGroup
    | IllegalWireType
    | BadPagination

  // The bytes of a number, seven bits each, least significant group first.
  function Encode(v: nat): (bs: seq<byte>)
    ensures |bs| >= 1
  {
    if v < 128 then [v] else [v % 128 + 128] + Encode(v / 128)
  }

  // math/bits.Len64: the number of bits of x.
  function Len64(x: nat): nat
  {
    if x == 0 then 0 else 1 + Len64(x / 2)
  }

  // x|1
  function SetLowBit(x: nat): nat
  {
    if x % 2 == 0 then x + 1 else x
  }

  // sovProvider and sovQuery
  function Sov(x: nat): nat
  {
    (Len64(SetLowBit(x)) + 6) / 7
  }

  lemma SevenBits(x: nat)
    requires x < 128
    ensures Len64(x) <= 7
  {
    var x2 := x / 2 / 2;
    var x4 := x2 / 2 / 2;
    var x6 := x4 / 2 / 2;
    assert Len64(x) <= 2 + Len64(x2);
    assert Len64(x2) <= 2 + Len64(x4);
    assert Len64(x4) <= 2 + Len64(x6);
    assert Len64(x6) <= 1;
  }

  lemma DropSevenBits(x: nat)
    requires x >= 128
    ensures Len64(x) == 7 + Len64(x / 128)
  {
    var x2 := x / 2 / 2;
    var x4 := x2 / 2 / 2;
    var x6 := x4 / 2 / 2;
    assert Len64(x) == 1 + Len64(x / 2) == 2 + Len64(x2);
    assert Len64(x2) == 1 + Len64(x2 / 2) == 2 + Len64(x4);
    assert Len64(x4) == 1 + Len64(x4 / 2) == 2 + Len64(x6);
    assert Len64(x6) == 1 + Len64(x6 / 2);
    assert x6 / 2 == x / 128;
  }

  // The size computed with math/bits is the number of bytes the encoding takes.
  lemma {:induction false} SovIsEncodedLength(v: nat)
    ensures Sov(v) == |Encode(v)|
  {
    if v < 128 {
      SevenBits(SetLowBit(v));
    } else {
      DropSevenBits(SetLowBit(v));
      assert SetLowBit(v) / 128 == v / 128;
      assert Len64(SetLowBit(v / 128)) == Len64(v / 128) by {
        assert SetLowBit(v / 128) / 2 == v / 128 / 2;
      }
      SovIsEncodedLength(v / 128);
    }
  }

  function Pow128(k: nat): nat
  {
    if k == 0 then 1 else 128 * Pow128(k - 1)
  }

  lemma {:induction false} EncodedLengthBound(v: nat, k: nat)
    requires k >= 1 && v < Pow128(k)
    ensures |Encode(v)| <= k
  {
    if v >= 128 {
      assert Pow128(1) == 128 * Pow128(0);
      EncodedLengthBound(v / 128, k - 1);
    }
  }

  lemma Uint64Length(v: uint64)
    ensures |Encode(v)| <= 10
  {
    assert Pow128(5) == 0x8_0000_0000 by {
      assert Pow128(2) == 128 * 128;
      assert Pow128(4) == 128 * 128 * 128 * 128;
    }
    assert Pow128(7) == 128 * 128 * Pow128(5);
    assert Pow128(10) == 128 * 128 * 128 * Pow128(7);
    EncodedLengthBound(v, 10);
  }

  // encodeVarintProvider, encodeVarintQuery: writes v so that it ends just before offset.
  method EncodeVarint(buf: array<byte>, offset: nat, v: nat) returns (base: nat)
    requires Sov(v) <= offset <= buf.Length
    modifies buf
    ensures base == offset - Sov(v)
    ensures buf[base..offset] == Encode(v)
    ensures buf[..base] == old(buf[..base])
    ensures buf[offset..] == old(buf[offset..])
  {
    hide Sov, Encode;
    SovIsEncodedLength(v);
    base := offset - Sov(v);
    var at, rest := base, v;
    ghost var start := buf[..];
    while rest >= 128
      invariant base <= at && at + |Encode(rest)| == offset
      invariant Encode(v) == buf[..][base..at] + Encode(rest)
      invariant buf[..][..base] == start[..base] && buf[..][offset..] == start[offset..]
      decreases rest
    {
      ghost var was := buf[..];
      EncodeMore(rest, was[base..at]);
      buf[at] := rest % 128 + 128;
      SetByte(was, buf[..], base, at, offset);
      rest := rest / 128;
      at := at + 1;
    }
    ghost var was := buf[..];
    EncodeLast(rest);
    buf[at] := rest;
    SetByte(was, buf[..], base, at, offset);
  }

  lemma EncodeMore(rest: nat, before: seq<byte>)
    requires rest >= 128
    ensures Encode(rest) == [rest % 128 + 128] + Encode(rest / 128)
    ensures before + Encode(rest) == before + [rest % 128 + 128] + Encode(rest / 128)
  {
  }

  lemma EncodeLast(rest: nat)
    requires rest < 128
    ensures Encode(rest) == [rest]
  {
  }

  // What one write does to the part before it, the part written so far, and the part behind.
  lemma SetByte(was: seq<byte>, now: seq<byte>, base: nat, at: nat, offset: nat)
    requires base <= at < offset <= |was| && at < |now| && now == was[at := now[at]]
    ensures now[base..at + 1] == was[base..at] + [now[at]]
    ensures now[..base] == was[..base] && now[offset..] == was[offset..]
  {
  }

  // How many bytes precede the first one below 0x80.
  function Continuations(bs: seq<byte>): (n: nat)
    ensures n <= |bs|
    ensures forall i :: 0 <= i < n ==> bs[i] >= 128
    ensures n < |bs| ==> bs[n] < 128
  {
    if bs == [] || bs[0] < 128 then 0 else 1 + Continuations(bs[1..])
  }

  lemma ContinuationsUnique(bs: seq<byte>, n: nat)
    requires n <= |bs|
    requires forall i :: 0 <= i < n ==> bs[i] >= 128
    requires n < |bs| ==> bs[n] < 128
    ensures Continuations(bs) == n
  {
    var c := Continuations(bs);
    assert c < |bs| ==> bs[c] < 128;
    assert n < |bs| ==> bs[n] < 128;
  }

  // The number a run of bytes stands for: base 128, low group first, top bits ignored.
  function Number(bs: seq<byte>): nat
  {
    if bs == [] then 0 else bs[0] % 128 + 128 * Number(bs[1..])
  }

  // The seven low bits of the byte at position k: (b & 0x7f) << 7k.
  function Group(b: byte, k: nat): nat
  {
    b % 128 * Pow128(k)
  }

  lemma {:induction false} NumberAppend(bs: seq<byte>, b: byte)
    ensures Number(bs + [b]) == Number(bs) + Group(b, |bs|)
  {
    if bs == [] {
      assert [b][1..] == [];
    } else {
      assert (bs + [b])[1..] == bs[1..] + [b];
      NumberAppend(bs[1..], b);
      var low, rest, p := bs[0] % 128, Number(bs[1..]), Pow128(|bs| - 1);
      assert 128 * (rest + b % 128 * p) == 128 * rest + b % 128 * (128 * p);
    }
  }

  /** What the reading loop finds at the front of bs: at most ten bytes, the tenth one's group
      shifted by 63, the sum kept modulo 2^64. The overflow test comes before the end test. */
  function Read(bs: seq<byte>): (r: Result<(uint64, nat), DecodeError>)
    ensures r.Ok? ==> 1 <= r.value.1 <= |bs|
  {
    var n := Continuations(bs);
    if n >= 10 then Err(IntOverflow)
    else if n == |bs| then Err(UnexpectedEOF)
    else Ok((Wrap(Number(bs[..n + 1]), W64), n + 1))
  }

  // A complete varint, shortest form or not.
  predicate IsVarint(bs: seq<byte>)
  {
    1 <= |bs| <= 10 && Continuations(bs) == |bs| - 1
  }

  lemma ReadVarintPrefix(bs: seq<byte>, more: seq<byte>)
    requires IsVarint(bs)
    ensures Read(bs + more) == Ok((Wrap(Number(bs), W64), |bs|))
    ensures Read(bs + more) == Read(bs)
  {
    hide Number, Wrap;
    var all := bs + more;
    assert forall i :: 0 <= i < |bs| ==> all[i] == bs[i];
    ContinuationsUnique(all, |bs| - 1);
    assert all[..|bs|] == bs;
    assert bs[..|bs|] == bs;
  }

  // Bytes after a varint do not change how it is read.
  lemma ReadExtend(bs: seq<byte>, more: seq<byte>)
    requires Read(bs).Ok?
    ensures Read(bs + more) == Read(bs)
  {
    var n := Continuations(bs);
    var v := bs[..n + 1];
    ContinuationsUnique(v, n);
    assert bs + more == v + (bs[n + 1..] + more);
    ReadVarintPrefix(v, bs[n + 1..] + more);
  }

  lemma {:induction false} EncodeIsVarint(v: nat)
    ensures Continuations(Encode(v)) == |Encode(v)| - 1
    ensures Number(Encode(v)) == v
  {
    if v < 128 {
      assert Encode(v)[1..] == [];
    } else {
      EncodeIsVarint(v / 128);
      assert Encode(v)[1..] == Encode(v / 128);
    }
  }

  // Round trip: reading recovers every 64-bit number that was written, whatever follows it.
  lemma ReadEncode(v: uint64, more: seq<byte>)
    ensures Read(Encode(v) + more) == Ok((v, |Encode(v)|))
    ensures IsVarint(Encode(v))
  {
    hide Encode, Read, Number, Continuations;
    EncodeIsVarint(v);
    Uint64Length(v);
    ReadVarintPrefix(Encode(v), more);
  }

  /******* Accumulating with shift and or *******/

  // The bitwise or of two numbers.
  function BitOr(a: nat, b: nat): nat
    decreases a + b
  {
    if a == 0 && b == 0 then 0
    else (if a % 2 == 1 || b % 2 == 1 then 1 else 0) + 2 * BitOr(a / 2, b / 2)
  }

  function Pow2(n: nat): (p: nat)
    ensures p >= 1
  {
    if n == 0 then 1 else 2 * Pow2(n - 1)
  }

  lemma {:induction false} OrZero(x: nat)
    ensures BitOr(0, x) == x && BitOr(x, 0) == x
  {
    if x != 0 {
      OrZero(x / 2);
    }
  }

  lemma HalfProduct(g: nat, n: nat)
    requires n > 0
    ensures g * Pow2(n) % 2 == 0 && g * Pow2(n) / 2 == g * Pow2(n - 1)
  {
    assert g * Pow2(n) == 2 * (g * Pow2(n - 1));
  }

  // The bits already read lie below the shift, so the or is a sum in which nothing carries.
  lemma {:induction false} OrIsSum(acc: nat, g: nat, shift: nat)
    requires acc < Pow2(shift)
    ensures BitOr(acc, g * Pow2(shift)) == acc + g * Pow2(shift)
  {
    if shift == 0 {
      OrZero(g);
    } else {
      HalfProduct(g, shift);
      OrIsSum(acc / 2, g, shift - 1);
    }
  }

  lemma {:induction false} Pow2Add(m: nat, n: nat)
    ensures Pow2(m + n) == Pow2(m) * Pow2(n)
  {
    if m != 0 {
      Pow2Add(m - 1, n);
      assert 2 * (Pow2(m - 1) * Pow2(n)) == 2 * Pow2(m - 1) * Pow2(n);
    }
  }

  lemma {:induction false} Pow128IsPow2(k: nat)
    ensures Pow128(k) == Pow2(7 * k)
  {
    if k != 0 {
      Pow128IsPow2(k - 1);
      Pow2Add(7, 7 * (k - 1));
      assert Pow2(7) == 128 by { assert Pow2(3) == 8; }
    }
  }

  lemma {:induction false} NumberBound(bs: seq<byte>)
    ensures Number(bs) < Pow2(7 * |bs|)
  {
    if bs != [] {
      NumberBound(bs[1..]);
      Pow2Add(7, 7 * |bs[1..]|);
      assert Pow2(7) == 128 by { assert Pow2(3) == 8; }
    }
  }

  // The accumulator words of the reading loops: uint64, int and int64, or int32 for an enum.
  datatype Width = W64 | W32

  function Bits(w: Width): nat
  {
    match w
    case W64 => 64
    case W32 => 32
  }

  function Wrap(x: nat, w: Width): nat
  {
    match w
    case W64 => x % TWO_64
    case W32 => x % TWO_32
  }

  lemma Pow2Byte()
    ensures Pow2(8) == 256
  {
    assert Pow2(4) == 16;
  }

  lemma Pow2Words()
    ensures Pow2(32) == TWO_32 && Pow2(64) == TWO_64
  {
    hide Pow2;
    Pow2Byte();
    Pow2Add(8, 8);
    Pow2Add(16, 16);
    Pow2Add(32, 32);
  }

  lemma WrapIsMod(x: nat, w: Width)
    ensures Wrap(x, w) == x % Pow2(Bits(w))
  {
    hide Pow2;
    Pow2Words();
  }

  // acc |= (b & 0x7f) << shift, on a word that drops what is shifted past its end; shift is a
  // multiple of 7.
  function AddGroup(acc: nat, b: byte, shift: nat, w: Width): nat
  {
    BitOr(acc, Wrap(Group(b, shift / 7), w))
  }

  lemma Mul(a: int, b: int, c: int)
    ensures (a + b) * c == a * c + b * c && (a - b) * c == a * c - b * c
    ensures a * b * c == a * (b * c) && a * b == b * a && -a * b == -(a * b)
  {
  }

  lemma AtLeastOne(d: int, m: nat)
    requires d >= 1
    ensures d * m >= m
  {
    Mul(d - 1, 1, m);
  }

  lemma ModUnique(x: nat, q: nat, r: nat, m: nat)
    requires r < m && x == q * m + r
    ensures x % m == r
  {
    var d := x / m - q;
    Mul(x / m, q, m);
    Mul(d, m, 1);
    assert d * m == r - x % m;
    if d >= 1 {
      AtLeastOne(d, m);
    } else if d <= -1 {
      AtLeastOne(-d, m);
    }
  }

  // A number below p and a multiple of p, modulo a multiple of p.
  lemma SplitMod(a: nat, g: nat, p: nat, q: nat)
    requires a < p && q > 0
    ensures g * p % (q * p) == g % q * p
    ensures (a + g * p) % (q * p) == a + g % q * p
  {
    var t, r := g / q, g % q;
    assert g * p == t * (q * p) + r * p by {
      Mul(q * t, r, p);
      Mul(t, q, p);
      assert g == q * t + r && q * t == t * q;
    }
    assert a + r * p < q * p by {
      AtLeastOne(q - r, p);
      Mul(q, r, p);
    }
    hide *;
    ModUnique(g * p, t, r * p, q * p);
    ModUnique(a + g * p, t, a + r * p, q * p);
  }

  lemma PastTheEnd(n: nat, k: nat, m: nat)
    requires m > 0
    ensures k * m % m == 0 && (n + k * m) % m == n % m
  {
    ModUnique(k * m, k, 0, m);
    Mul(n / m, k, m);
    assert n == n / m * m + n % m;
    ModUnique(n + k * m, n / m + k, n % m, m);
  }

  // The or of a word with a shifted group, as far as the word reaches.
  lemma OrGroup(n: nat, g: nat, s: nat, bits: nat)
    requires n < Pow2(s)
    ensures BitOr(n % Pow2(bits), g * Pow2(s) % Pow2(bits)) == (n + g * Pow2(s)) % Pow2(bits)
  {
    hide BitOr, Pow2;
    if s < bits {
      var p, q := Pow2(s), Pow2(bits - s);
      Pow2Add(bits - s, s);
      SplitMod(n, g, p, q);
      SplitMod(n, 0, p, q);
      OrIsSum(n, g % q, s);
    } else {
      var m, rest := Pow2(bits), Pow2(s - bits);
      Pow2Add(s - bits, bits);
      Mul(g, rest, m);
      PastTheEnd(n, g * rest, m);
      OrZero(n % m);
    }
  }

  // Each turn of the loop reads one more group, at either width.
  lemma AddGroupStep(bs: seq<byte>, b: byte, w: Width)
    ensures AddGroup(Wrap(Number(bs), w), b, 7 * |bs|, w) == Wrap(Number(bs + [b]), w)
  {
    hide Wrap, Number, BitOr, Pow2, Pow128;
    var s, g, n := 7 * |bs|, b % 128, Number(bs);
    NumberAppend(bs, b);
    NumberBound(bs);
    Pow128IsPow2(|bs|);
    assert s / 7 == |bs| && Group(b, |bs|) == g * Pow2(s);
    WrapIsMod(n, w);
    WrapIsMod(g * Pow2(s), w);
    WrapIsMod(n + g * Pow2(s), w);
    OrGroup(n, g, s, Bits(w));
  }

  lemma WrapTwice(a: nat, w: Width)
    ensures Wrap(Wrap(a, W64), w) == Wrap(a, w)
  {
    var q := a / TWO_64;
    if w == W32 {
      assert a % TWO_64 == a - TWO_32 * (TWO_32 * q);
    }
  }

  // How the loop's three exits show in Read, once k continuation bytes have gone by.
  lemma LoopExit(bs: seq<byte>, k: nat)
    requires k <= |bs| && k <= 10
    requires forall i :: 0 <= i < k ==> bs[i] >= 128
    ensures k == 10 ==> Read(bs) == Err(IntOverflow)
    ensures k < 10 && k == |bs| ==> Read(bs) == Err(UnexpectedEOF)
    ensures k < 10 && k < |bs| && bs[k] < 128 ==> Read(bs) == Ok((Wrap(Number(bs[..k + 1]), W64), k + 1))
  {
    if k < |bs| && bs[k] < 128 {
      ContinuationsUnique(bs, k);
    } else if k == |bs| {
      ContinuationsUnique(bs, k);
    } else {
      var c := Continuations(bs);
      assert c < |bs| ==> bs[c] < 128;
    }
  }

  // The varint loop, written out at every read of the generated decoders.
  method ReadLoop(bs: seq<byte>, start: nat, w: Width) returns (r: Result<(nat, nat), DecodeError>)
    requires start <= |bs|
    ensures match Read(bs[start..])
      case Err(e) => r == Err(e)
      case Ok((v, n)) => r == Ok((Wrap(v, w), start + n))
  {
    ghost var tail := bs[start..];
    var acc, shift, at := 0, 0, start;
    while true
      invariant start <= at <= |bs| && shift == 7 * (at - start) && at - start <= 10
      invariant forall i :: 0 <= i < at - start ==> tail[i] >= 128
      invariant acc == Wrap(Number(tail[..at - start]), w)
      decreases |bs| - at
    {
      ghost var k := at - start;
      LoopExit(tail, k);
      if shift >= 64 {
        return Err(IntOverflow);
      }
      if at >= |bs| {
        return Err(UnexpectedEOF);
      }
      var b := bs[at];
      AddGroupStep(tail[..k], b, w);
      assert tail[..k + 1] == tail[..k] + [b];
      acc := AddGroup(acc, b, shift, w);
      at := at + 1;
      if b < 128 {
        WrapTwice(Number(tail[..k + 1]), w);
        return Ok((acc, at));
      }
      shift := shift + 7;
    }
  }
}
