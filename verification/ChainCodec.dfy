/** The generated codec of ConsumerChain: sizes, the back-to-front writer and the parser. */
module ChainCodec {
  import opened GoTypes
  import opened Varint
  import opened Wire

  datatype ConsumerChain = ConsumerChain(
    chainId: Str,
    name: Str,
    version: Str,
    status: int32,
    addedAt: int64,
    sunsetAt: int64,
    moduleAccountAddress: Str)

  const ZERO := ConsumerChain([], [], [], 0, 0, 0, [])

  /******* Encoding, read forwards *******/

  function StrField(tag: byte, s: Str): (bs: seq<byte>)
  {
    if s == [] then [] else [tag] + (Encode(|s|) + s)
  }

  function IntField(tag: byte, x: int64): (bs: seq<byte>)
  {
    if x == 0 then [] else [tag] + Encode(ToUint64(x))
  }

  // The fields in order of their numbers, zero values left out.
  function Fields(m: ConsumerChain): seq<seq<byte>>
  {
    [StrField(0x0a, m.chainId), StrField(0x12, m.name), StrField(0x1a, m.version), IntField(0x20, m.status),
     IntField(0x28, m.addedAt), IntField(0x30, m.sunsetAt), StrField(0x3a, m.moduleAccountAddress)]
  }

  function Concat(parts: seq<seq<byte>>): seq<byte>
  {
    if parts == [] then [] else parts[0] + Concat(parts[1..])
  }

  function EncodeChain(m: ConsumerChain): seq<byte>
  {
    Concat(Fields(m))
  }

  /******* Size *******/

  function StrSize(s: Str): nat
  {
    if |s| > 0 then 1 + |s| + Sov(|s|) else 0
  }

  function IntSize(x: int64): nat
  {
    if x != 0 then 1 + Sov(ToUint64(x)) else 0
  }

  function Size(m: ConsumerChain): nat
  {
    StrSize(m.chainId) + StrSize(m.name) + StrSize(m.version) + IntSize(m.status)
    + IntSize(m.addedAt) + IntSize(m.sunsetAt) + StrSize(m.moduleAccountAddress)
  }

  lemma SizeIsEncodedLength(m: ConsumerChain)
    ensures Size(m) == |EncodeChain(m)|
  {
    StrSizeIsLength(0x0a, m.chainId);
    StrSizeIsLength(0x12, m.name);
    StrSizeIsLength(0x1a, m.version);
    IntSizeIsLength(0x20, m.status);
    IntSizeIsLength(0x28, m.addedAt);
    IntSizeIsLength(0x30, m.sunsetAt);
    StrSizeIsLength(0x3a, m.moduleAccountAddress);
    ConcatSeven(Fields(m));
  }

  lemma StrSizeIsLength(tag: byte, s: Str)
    ensures StrSize(s) == |StrField(tag, s)|
  {
    SovIsEncodedLength(|s|);
  }

  lemma IntSizeIsLength(tag: byte, x: int64)
    ensures IntSize(x) == |IntField(tag, x)|
  {
    SovIsEncodedLength(ToUint64(x));
  }

  lemma ConcatSeven(ps: seq<seq<byte>>)
    requires |ps| == 7
    ensures Concat(ps) == ps[0] + (ps[1] + (ps[2] + (ps[3] + (ps[4] + (ps[5] + ps[6])))))
  {
    assert Concat(ps[6..]) == ps[6] + Concat(ps[7..]);
    assert Concat(ps[5..]) == ps[5] + Concat(ps[6..]);
    assert Concat(ps[4..]) == ps[4] + Concat(ps[5..]);
    assert Concat(ps[3..]) == ps[3] + Concat(ps[4..]);
    assert Concat(ps[2..]) == ps[2] + Concat(ps[3..]);
    assert Concat(ps[1..]) == ps[1] + Concat(ps[2..]);
  }

  /******* MarshalToSizedBuffer: backwards, ending at end *******/

  // copy(dAtA[i:], s)
  method CopyBytes(buf: array<byte>, i: nat, s: Str)
    requires i + |s| <= buf.Length
    modifies buf
    ensures buf[i..i + |s|] == s
    ensures buf[..i] == old(buf[..i]) && buf[i + |s|..] == old(buf[i + |s|..])
  {
    forall k | 0 <= k < |s| { buf[i + k] := s[k]; }
  }

  method PutStr(buf: array<byte>, end: nat, tag: byte, s: Str) returns (i: nat)
    requires StrSize(s) <= end <= buf.Length
    modifies buf
    ensures i == end - StrSize(s)
    ensures buf[i..end] == StrField(tag, s)
    ensures buf[..i] == old(buf[..i]) && buf[end..] == old(buf[end..])
  {
    hide Sov, Encode;
    i := end;
    if |s| > 0 {
      ghost var start := buf[..];
      SovIsEncodedLength(|s|);
      i := i - |s|;
      ghost var mid := i;
      CopyBytes(buf, i, s);
      label copied:
      i := EncodeVarint(buf, i, |s|);
      Grow(buf[..], old@copied(buf[..]), start, i, mid, end);
      assert i > 0 && buf[i..end] == Encode(|s|) + s;
      i := PutTag(buf, i, end, tag);
    }
  }

  // i--; dAtA[i] = tag
  method PutTag(buf: array<byte>, at: nat, end: nat, tag: byte) returns (i: nat)
    requires 0 < at <= end <= buf.Length
    modifies buf
    ensures i == at - 1
    ensures buf[i..end] == [tag] + old(buf[at..end])
    ensures buf[..i] == old(buf[..i]) && buf[end..] == old(buf[end..])
  {
    i := at - 1;
    buf[i] := tag;
  }

  method PutInt(buf: array<byte>, end: nat, tag: byte, x: int64) returns (i: nat)
    requires IntSize(x) <= end <= buf.Length
    modifies buf
    ensures i == end - IntSize(x)
    ensures buf[i..end] == IntField(tag, x)
    ensures buf[..i] == old(buf[..i]) && buf[end..] == old(buf[end..])
  {
    hide Encode;
    i := end;
    if x != 0 {
      i := EncodeVarint(buf, i, ToUint64(x));
      SovIsEncodedLength(ToUint64(x));
      i := PutTag(buf, i, end, tag);
    }
  }

  // Writes the message so that it ends at end: dAtA is buf[..end]. Nothing else is touched.
  method MarshalToSizedBuffer(m: ConsumerChain, buf: array<byte>, end: nat) returns (n: nat)
    requires Size(m) <= end <= buf.Length
    modifies buf
    ensures n == Size(m)
    ensures buf[end - n..end] == EncodeChain(m)
    ensures buf[..end - n] == old(buf[..end - n]) && buf[end..] == old(buf[end..])
  {
    hide StrField, IntField, StrSize, IntSize, Concat, Encode, Sov;
    ghost var orig := buf[..];
    var i7 := PutStr(buf, end, 0x3a, m.moduleAccountAddress);
    label l7:
    var i6 := PutInt(buf, i7, 0x30, m.sunsetAt);
    Grow(buf[..], old@l7(buf[..]), orig, i6, i7, end);
    label l6:
    var i5 := PutInt(buf, i6, 0x28, m.addedAt);
    Grow(buf[..], old@l6(buf[..]), orig, i5, i6, end);
    label l5:
    var i4 := PutInt(buf, i5, 0x20, m.status);
    Grow(buf[..], old@l5(buf[..]), orig, i4, i5, end);
    label l4:
    var i3 := PutStr(buf, i4, 0x1a, m.version);
    Grow(buf[..], old@l4(buf[..]), orig, i3, i4, end);
    label l3:
    var i2 := PutStr(buf, i3, 0x12, m.name);
    Grow(buf[..], old@l3(buf[..]), orig, i2, i3, end);
    label l2:
    var i1 := PutStr(buf, i2, 0x0a, m.chainId);
    Grow(buf[..], old@l2(buf[..]), orig, i1, i2, end);
    ConcatSeven(Fields(m));
    n := end - i1;
  }

  // One more piece in front: what was written behind it, and everything outside, is still there.
  lemma Grow(now: seq<byte>, before: seq<byte>, orig: seq<byte>, i: nat, j: nat, end: nat)
    requires i <= j <= end <= |now| == |before| == |orig|
    requires now[j..] == before[j..] && now[..i] == before[..i]
    requires before[..j] == orig[..j] && before[end..] == orig[end..]
    ensures now[i..end] == now[i..j] + before[j..end]
    ensures now[..i] == orig[..i] && now[end..] == orig[end..]
  {
    assert now[j..end] == now[j..][..end - j];
    assert before[j..end] == before[j..][..end - j];
    assert now[end..] == now[j..][end - j..];
    assert before[end..] == before[j..][end - j..];
    assert orig[..i] == orig[..j][..i];
    assert before[..i] == before[..j][..i];
  }

  /******* Unmarshal *******/

  function SetStr(m: ConsumerChain, num: int32, s: Str): ConsumerChain
  {
    if num == 1 then m.(chainId := s)
    else if num == 2 then m.(name := s)
    else if num == 3 then m.(version := s)
    else m.(moduleAccountAddress := s)
  }

  function SetInt(m: ConsumerChain, num: int32, u: uint64): ConsumerChain
  {
    if num == 4 then m.(status := ToInt32(u))
    else if num == 5 then m.(addedAt := ToInt64(u))
    else m.(sunsetAt := ToInt64(u))
  }

  function Apply(m: ConsumerChain, raw: Raw): ConsumerChain
  {
    match raw
    case Payload(num, s) => SetStr(m, num, s)
    case Scalar(num, u) => SetInt(m, num, u)
    case Skipped => m
  }

  // Unmarshal into m of the input that is left from index base on.
  function DecodeFrom(m: ConsumerChain, base: nat, bs: seq<byte>): (r: Result<ConsumerChain, DecodeError>)
    requires base + |bs| <= MAX_INT
    decreases |bs|
  {
    if bs == [] then Ok(m)
    else
      match NextRaw(ConsumerChainSchema, base, bs)
      case Err(e) => Err(e)
      case Ok((raw, n)) => DecodeFrom(Apply(m, raw), base + n, bs[n..])
  }

  function Decode(bs: seq<byte>): Result<ConsumerChain, DecodeError>
    requires |bs| <= MAX_INT
  {
    DecodeFrom(ZERO, 0, bs)
  }

  method PayloadLoop(bs: seq<byte>, at: nat) returns (r: Result<(Str, nat), DecodeError>)
    requires at <= |bs| <= MAX_INT
    ensures match ReadPayload(at, bs[at..])
      case Err(e) => r == Err(e)
      case Ok((s, n)) => r == Ok((s, at + n))
  {
    hide Read;
    var v := ReadLoop(bs, at, W64);
    if v.Err? { return Err(v.error); }
    var length, start := ToInt64(v.value.0), v.value.1;
    if length < 0 { return Err(InvalidLength); }
    var post := AddInt64(start, length);
    if post < 0 { return Err(InvalidLength); }
    if post > |bs| { return Err(UnexpectedEOF); }
    assert bs[at..][start - at..start - at + length] == bs[start..post];
    r := Ok((bs[start..post], post));
  }

  // One turn of the loop: the field at index at, stored into m, and the index after it.
  method UnmarshalField(m: ConsumerChain, bs: seq<byte>, at: nat) returns (r: Result<(ConsumerChain, nat), DecodeError>)
    requires at < |bs| <= MAX_INT
    ensures match NextRaw(ConsumerChainSchema, at, bs[at..])
      case Err(e) => r == Err(e)
      case Ok((raw, n)) => r == Ok((Apply(m, raw), at + n))
  {
    hide Read, SkipAt, ReadPayload;
    var tag := ReadLoop(bs, at, W64);
    if tag.Err? { return Err(tag.error); }
    var wire, next := tag.value.0, tag.value.1;
    var fieldNum, wireType := ToInt32(wire / 8), wire % 8;
    assert bs[at..][next - at..] == bs[next..];
    if wireType == 4 { return Err(EndGroup); }
    if fieldNum <= 0 { return Err(IllegalTag); }
    if fieldNum == 1 || fieldNum == 2 || fieldNum == 3 || fieldNum == 7 {
      if wireType != 2 { return Err(WrongWireType); }
      var s := PayloadLoop(bs, next);
      if s.Err? { return Err(s.error); }
      var (text, post) := s.value;
      return Ok((if fieldNum == 1 then m.(chainId := text)
                 else if fieldNum == 2 then m.(name := text)
                 else if fieldNum == 3 then m.(version := text)
                 else m.(moduleAccountAddress := text), post));
    } else if fieldNum == 4 {
      if wireType != 0 { return Err(WrongWireType); }
      var v := ReadLoop(bs, next, W32);
      if v.Err? { return Err(v.error); }
      LowBits(Read(bs[next..]).value.0);
      return Ok((m.(status := ToInt32(v.value.0)), v.value.1));
    } else if fieldNum == 5 || fieldNum == 6 {
      if wireType != 0 { return Err(WrongWireType); }
      var v := ReadLoop(bs, next, W64);
      if v.Err? { return Err(v.error); }
      var x := ToInt64(v.value.0);
      return Ok((if fieldNum == 5 then m.(addedAt := x) else m.(sunsetAt := x), v.value.1));
    } else {
      var skippy := Skip(bs[at..]);
      if skippy.Err? { return Err(skippy.error); }
      if AddInt64(at, skippy.value) < 0 { return Err(InvalidLength); }
      if at + skippy.value > |bs| { return Err(UnexpectedEOF); }
      return Ok((m, at + skippy.value));
    }
  }

  lemma LowBits(u: uint64)
    ensures ToInt32(Wrap(u, W32)) == ToInt32(u)
  {
  }

  // The receiver starts as m0 and is filled in field by field; on an error its contents are not used.
  method Unmarshal(m0: ConsumerChain, bs: seq<byte>) returns (r: Result<ConsumerChain, DecodeError>)
    requires |bs| <= MAX_INT
    ensures r == DecodeFrom(m0, 0, bs)
  {
    hide NextRaw;
    var m, at := m0, 0;
    assert bs[0..] == bs;
    while at < |bs|
      invariant at <= |bs|
      invariant DecodeFrom(m0, 0, bs) == DecodeFrom(m, at, bs[at..])
      decreases |bs| - at
    {
      var field := UnmarshalField(m, bs, at);
      if field.Err? { return Err(field.error); }
      assert bs[at..][field.value.1 - at..] == bs[field.value.1..];
      m, at := field.value.0, field.value.1;
    }
    r := Ok(m);
  }

  /******* What Unmarshal guarantees *******/

  // Decoding works through a concatenation piece by piece.
  lemma {:induction false} DecodeAppend(m: ConsumerChain, base: nat, a: seq<byte>, b: seq<byte>)
    requires base + |a| + |b| <= MAX_INT
    requires DecodeFrom(m, base, a).Ok?
    ensures DecodeFrom(m, base, a + b) == DecodeFrom(DecodeFrom(m, base, a).value, base + |a|, b)
    decreases |a|
  {
    hide NextRaw;
    if a == [] {
      assert a + b == b;
    } else {
      NextRawExtend(ConsumerChainSchema, base, base, a, b);
      var Ok((raw, n)) := NextRaw(ConsumerChainSchema, base, a);
      assert (a + b)[n..] == a[n..] + b;
      DecodeAppend(Apply(m, raw), base + n, a[n..], b);
    }
  }

  // Where the input starts matters to no successful decoding.
  lemma {:induction false} DecodeRebase(m: ConsumerChain, base: nat, base': nat, bs: seq<byte>)
    requires base + |bs| <= MAX_INT && base' + |bs| <= MAX_INT
    requires DecodeFrom(m, base, bs).Ok?
    ensures DecodeFrom(m, base', bs) == DecodeFrom(m, base, bs)
    decreases |bs|
  {
    hide NextRaw;
    if bs != [] {
      NextRawExtend(ConsumerChainSchema, base, base', bs, []);
      assert bs + [] == bs;
      var Ok((raw, n)) := NextRaw(ConsumerChainSchema, base, bs);
      DecodeRebase(Apply(m, raw), base + n, base' + n, bs[n..]);
    }
  }

  // Proto3's forward compatibility: a well-formed field with an unknown number, put at any field
  // boundary, changes neither whether the input is accepted nor the message it decodes to.
  lemma UnknownFieldTransparent(m: ConsumerChain, a: seq<byte>, f: Field, b: seq<byte>)
    requires |a| + |Bytes(f)| + |b| <= MAX_INT
    requires DecodeFrom(m, 0, a).Ok?
    requires WellFormed(f) && FieldNumber(f) > 7
    ensures DecodeFrom(m, 0, a + Bytes(f) + b).Ok? == DecodeFrom(m, 0, a + b).Ok?
    ensures DecodeFrom(m, 0, a + b).Ok? ==> DecodeFrom(m, 0, a + Bytes(f) + b) == DecodeFrom(m, 0, a + b)
  {
    hide NextRaw;
    var u := Bytes(f);
    var m' := DecodeFrom(m, 0, a).value;
    DecodeAppend(m, 0, a, b);
    FieldIsNotEmpty(f);
    NextRawUnknown(ConsumerChainSchema, |a|, f);
    assert u[|u|..] == [];
    assert DecodeFrom(m', |a|, u) == Ok(m');
    DecodeAppend(m, 0, a, u);
    DecodeAppend(m, 0, a + u, b);
    if DecodeFrom(m', |a|, b).Ok? {
      DecodeRebase(m', |a|, |a| + |u|, b);
    } else if DecodeFrom(m', |a| + |u|, b).Ok? {
      DecodeRebase(m', |a| + |u|, |a|, b);
    }
  }

  /******* Round trip *******/

  lemma OneByteTag(tag: byte, more: seq<byte>)
    requires tag < 128
    ensures Read([tag] + more) == Ok((tag, 1))
  {
    ReadEncode(tag, more);
  }

  lemma DecodeOne(m: ConsumerChain, base: nat, bs: seq<byte>, raw: Raw)
    requires bs != [] && base + |bs| <= MAX_INT
    requires NextRaw(ConsumerChainSchema, base, bs) == Ok((raw, |bs|))
    ensures DecodeFrom(m, base, bs) == Ok(Apply(m, raw))
  {
    hide NextRaw;
    assert bs[|bs|..] == [];
  }

  lemma NextStr(schema: Schema, base: nat, num: int32, s: Str)
    requires 0 < num < 16 && KindOf(schema, num) == LengthDelimited
    requires s != [] && base + |StrField(8 * num + 2, s)| <= MAX_INT
    ensures NextRaw(schema, base, StrField(8 * num + 2, s)) == Ok((Payload(num, s), |StrField(8 * num + 2, s)|))
  {
    hide Read, Encode, ReadPayload, SkipAt;
    NextPayload(schema, base, num, s);
  }

  // The same field with its payload allowed to be empty, as in a nested message.
  lemma NextPayload(schema: Schema, base: nat, num: int32, s: Str)
    requires 0 < num < 16 && KindOf(schema, num) == LengthDelimited
    requires base + |[8 * num + 2] + (Encode(|s|) + s)| <= MAX_INT
    ensures NextRaw(schema, base, [8 * num + 2] + (Encode(|s|) + s))
         == Ok((Payload(num, s), |[8 * num + 2] + (Encode(|s|) + s)|))
  {
    hide Read, Encode, ReadPayload, SkipAt, KindOf;
    var rest := Encode(|s|) + s;
    OneByteTag(8 * num + 2, rest);
    assert ([8 * num + 2] + rest)[1..] == rest;
    ReadWholePayload(base + 1, s);
  }

  lemma ReadWholePayload(base: nat, s: Str)
    requires base + |Encode(|s|) + s| <= MAX_INT
    ensures ReadPayload(base, Encode(|s|) + s) == Ok((s, |Encode(|s|) + s|))
  {
    hide Read, Encode;
    ReadEncode(|s|, s);
    var n := |Encode(|s|)|;
    assert (Encode(|s|) + s)[n..n + |s|] == s;
  }

  lemma NextInt(schema: Schema, base: nat, num: int32, x: int64)
    requires 0 < num < 16 && KindOf(schema, num) == VarintValue
    requires x != 0 && base + |IntField(8 * num, x)| <= MAX_INT
    ensures NextRaw(schema, base, IntField(8 * num, x)) == Ok((Scalar(num, ToUint64(x)), |IntField(8 * num, x)|))
  {
    hide Read, Encode, SkipAt, KindOf, ToUint64;
    var rest := Encode(ToUint64(x));
    OneByteTag(8 * num, rest);
    assert ([8 * num] + rest)[1..] == rest + [];
    ReadEncode(ToUint64(x), []);
  }

  lemma DecodeStr(m: ConsumerChain, base: nat, num: int32, s: Str)
    requires num == 1 || num == 2 || num == 3 || num == 7
    requires base + |StrField(8 * num + 2, s)| <= MAX_INT
    requires SetStr(m, num, []) == m
    ensures DecodeFrom(m, base, StrField(8 * num + 2, s)) == Ok(SetStr(m, num, s))
  {
    hide NextRaw, DecodeFrom, SetStr, Encode;
    DecodeNothing(m, base);
    if s != [] {
      NextStr(ConsumerChainSchema, base, num, s);
      DecodeOne(m, base, StrField(8 * num + 2, s), Payload(num, s));
    }
  }

  lemma DecodeInt(m: ConsumerChain, base: nat, num: int32, x: int64)
    requires num == 4 || num == 5 || num == 6
    requires base + |IntField(8 * num, x)| <= MAX_INT
    requires SetInt(m, num, 0) == m
    ensures DecodeFrom(m, base, IntField(8 * num, x)) == Ok(SetInt(m, num, ToUint64(x)))
  {
    hide NextRaw, DecodeFrom, SetInt, Encode;
    DecodeNothing(m, base);
    if x != 0 {
      NextInt(ConsumerChainSchema, base, num, x);
      DecodeOne(m, base, IntField(8 * num, x), Scalar(num, ToUint64(x)));
    }
  }

  // The message with only the first k fields of m filled in.
  function Partial(m: ConsumerChain, k: nat): ConsumerChain
  {
    ConsumerChain(
      if k >= 1 then m.chainId else [],
      if k >= 2 then m.name else [],
      if k >= 3 then m.version else [],
      if k >= 4 then m.status else 0,
      if k >= 5 then m.addedAt else 0,
      if k >= 6 then m.sunsetAt else 0,
      if k >= 7 then m.moduleAccountAddress else [])
  }

  lemma DecodeField(m: ConsumerChain, base: nat, k: nat)
    requires k < 7 && base + |Fields(m)[k]| <= MAX_INT
    ensures DecodeFrom(Partial(m, k), base, Fields(m)[k]) == Ok(Partial(m, k + 1))
  {
    hide DecodeFrom, StrField, IntField;
    var p := Partial(m, k);
    if k == 0 { DecodeStr(p, base, 1, m.chainId); }
    if k == 1 { DecodeStr(p, base, 2, m.name); }
    if k == 2 { DecodeStr(p, base, 3, m.version); }
    if k == 3 { DecodeInt(p, base, 4, m.status); Int32RoundTrip(m.status); }
    if k == 4 { DecodeInt(p, base, 5, m.addedAt); Int64RoundTrip(m.addedAt); }
    if k == 5 { DecodeInt(p, base, 6, m.sunsetAt); Int64RoundTrip(m.sunsetAt); }
    if k == 6 { DecodeStr(p, base, 7, m.moduleAccountAddress); }
  }

  lemma {:induction false} DecodeFields(m: ConsumerChain, base: nat, k: nat)
    requires k <= 7 && base + |Concat(Fields(m)[k..])| <= MAX_INT
    ensures DecodeFrom(Partial(m, k), base, Concat(Fields(m)[k..])) == Ok(Partial(m, 7))
    decreases 7 - k
  {
    hide Fields, DecodeFrom, Partial;
    FieldCount(m);
    if k == 7 {
      DecodeNothing(Partial(m, 7), base);
    } else {
      var f, rest := Fields(m)[k], Concat(Fields(m)[k + 1..]);
      assert Fields(m)[k..][1..] == Fields(m)[k + 1..];
      assert Concat(Fields(m)[k..]) == f + rest;
      DecodeField(m, base, k);
      DecodeAppend(Partial(m, k), base, f, rest);
      DecodeFields(m, base + |f|, k + 1);
    }
  }

  lemma DecodeNothing(m: ConsumerChain, base: nat)
    requires base <= MAX_INT
    ensures DecodeFrom(m, base, []) == Ok(m)
  {
  }

  lemma FieldCount(m: ConsumerChain)
    ensures |Fields(m)| == 7
  {
  }

  // Round trip: any heights and any status, negative ones included.
  lemma ChainRoundTrip(m: ConsumerChain)
    requires |EncodeChain(m)| <= MAX_INT
    ensures Decode(EncodeChain(m)) == Ok(m)
  {
    assert Fields(m)[0..] == Fields(m);
    DecodeFields(m, 0, 0);
  }
}
