/** The generated codec of QueryActiveConsumerChainsResponse: a repeated nested message. */
module QueryCodec {
  import opened GoTypes
  import opened Varint
  import opened Wire

  import opened C = ChainCodec

  // The page record belongs to another package's codec: it is kept as the bytes handed to that
  // codec. Records of one message that follow each other merge, which is concatenation.
  datatype ActiveChains = ActiveChains(consumerChains: seq<ConsumerChain>, pagination: Option<seq<byte>>)

  const EMPTY := ActiveChains([], None)

  // Which bytes the other package's Unmarshal accepts.
  type PageCodec = seq<byte> -> bool

  // A length-delimited field whose payload may be empty.
  function Nested(tag: byte, payload: seq<byte>): (bs: seq<byte>)
    ensures |bs| > |payload|
  {
    [tag] + (Encode(|payload|) + payload)
  }

  function EncodeChains(cs: seq<ConsumerChain>): seq<byte>
  {
    if cs == [] then [] else Nested(0x0a, EncodeChain(cs[0])) + EncodeChains(cs[1..])
  }

  function EncodePage(page: Option<seq<byte>>): seq<byte>
  {
    match page
    case None => []
    case Some(raw) => Nested(0x12, raw)
  }

  function EncodeResponse(m: ActiveChains): seq<byte>
  {
    EncodeChains(m.consumerChains) + EncodePage(m.pagination)
  }

  /******* Size *******/

  function NestedSize(l: nat): nat
  {
    1 + l + Sov(l)
  }

  function ChainsSize(cs: seq<ConsumerChain>): nat
  {
    if cs == [] then 0 else NestedSize(C.Size(cs[0])) + ChainsSize(cs[1..])
  }

  function PageSize(page: Option<seq<byte>>): nat
  {
    match page
    case None => 0
    case Some(raw) => NestedSize(|raw|)
  }

  function Size(m: ActiveChains): nat
  {
    ChainsSize(m.consumerChains) + PageSize(m.pagination)
  }

  lemma {:induction false} ChainsSizeIsLength(cs: seq<ConsumerChain>)
    ensures ChainsSize(cs) == |EncodeChains(cs)|
  {
    hide C.Size, EncodeChain;
    if cs != [] {
      C.SizeIsEncodedLength(cs[0]);
      SovIsEncodedLength(|EncodeChain(cs[0])|);
      ChainsSizeIsLength(cs[1..]);
    }
  }

  lemma SizeIsEncodedLength(m: ActiveChains)
    ensures Size(m) == |EncodeResponse(m)|
  {
    ChainsSizeIsLength(m.consumerChains);
    if m.pagination.Some? {
      SovIsEncodedLength(|m.pagination.value|);
    }
  }

  lemma {:induction false} ChainsSizeLast(cs: seq<ConsumerChain>, k: nat)
    requires k < |cs|
    ensures ChainsSize(cs[..k + 1]) == ChainsSize(cs[..k]) + NestedSize(C.Size(cs[k]))
  {
    hide C.Size;
    if k == 0 {
      assert cs[..1][1..] == [];
    } else {
      ChainsSizeLast(cs[1..], k - 1);
      assert cs[..k + 1][1..] == cs[1..][..k];
      assert cs[..k][1..] == cs[1..][..k - 1];
    }
  }

  /******* MarshalToSizedBuffer *******/

  // The length and the tag in front of a payload that is already in place.
  method PutNested(buf: array<byte>, at: nat, end: nat, tag: byte) returns (i: nat)
    requires at <= end <= buf.Length && 1 + Sov(end - at) <= at
    modifies buf
    ensures i == end - NestedSize(end - at)
    ensures buf[i..end] == Nested(tag, old(buf[at..end]))
    ensures buf[..i] == old(buf[..i]) && buf[end..] == old(buf[end..])
  {
    hide Sov, Encode;
    ghost var start := buf[..];
    SovIsEncodedLength(end - at);
    i := EncodeVarint(buf, at, end - at);
    Grow(buf[..], start, start, i, at, end);
    i := PutTag(buf, i, end, tag);
  }

  // A nested message written just before end: its own MarshalToSizedBuffer, then length and tag.
  method PutChain(c: ConsumerChain, buf: array<byte>, end: nat) returns (i: nat)
    requires NestedSize(C.Size(c)) <= end <= buf.Length
    modifies buf
    ensures i == end - NestedSize(C.Size(c))
    ensures buf[i..end] == Nested(0x0a, EncodeChain(c))
    ensures buf[..i] == old(buf[..i]) && buf[end..] == old(buf[end..])
  {
    hide Sov, Nested, EncodeChain, C.Size;
    C.SizeIsEncodedLength(c);
    ghost var start := buf[..];
    var size := C.MarshalToSizedBuffer(c, buf, end);
    ghost var mid := buf[..];
    i := PutNested(buf, end - size, end, 0x0a);
    assert mid[..i] == mid[..end - size][..i];
    assert start[..i] == start[..end - size][..i];
  }

  // The page record, if there is one, at the very end of the buffer.
  method PutPage(page: Option<seq<byte>>, buf: array<byte>) returns (i: nat)
    requires PageSize(page) <= buf.Length
    modifies buf
    ensures i == buf.Length - PageSize(page)
    ensures buf[i..] == EncodePage(page)
    ensures buf[..i] == old(buf[..i])
  {
    hide Nested, Sov;
    i := buf.Length;
    if page.Some? {
      var raw := page.value;
      i := i - |raw|;
      ghost var start := buf[..];
      CopyBytes(buf, i, raw);
      ghost var mid := buf[..];
      assert buf[i..buf.Length] == raw;
      var at := i;
      i := PutNested(buf, at, buf.Length, 0x12);
      assert mid[..i] == mid[..at][..i] == start[..at][..i];
    }
  }

  // Writes the response so that it ends where the buffer ends; n is the number of bytes written.
  method MarshalToSizedBuffer(m: ActiveChains, buf: array<byte>) returns (n: nat)
    requires Size(m) <= buf.Length
    modifies buf
    ensures n == Size(m)
    ensures buf[buf.Length - n..] == EncodeResponse(m)
    ensures buf[..buf.Length - n] == old(buf[..buf.Length - n])
  {
    hide Nested, EncodeChain, C.Size, EncodePage, PageSize, NestedSize;
    ghost var orig := buf[..];
    var cs := m.consumerChains;
    var i := PutPage(m.pagination, buf);
    var k := |cs|;
    assert cs[..k] == cs && cs[k..] == [];
    while k > 0
      invariant k <= |cs|
      invariant i <= buf.Length
      invariant i == buf.Length - Size(m) + ChainsSize(cs[..k])
      invariant buf[i..] == EncodeChains(cs[k..]) + EncodePage(m.pagination)
      invariant buf[..i] == orig[..i]
    {
      k := k - 1;
      ghost var before := buf[..];
      ghost var tail := EncodeChains(cs[k + 1..]);
      ChainsSizeLast(cs, k);
      var j := i;
      i := PutChain(cs[k], buf, i);
      Prepend(buf[..], before, orig, i, j);
      assert cs[k..][1..] == cs[k + 1..];
      ghost var head := Nested(0x0a, EncodeChain(cs[k]));
      assert buf[i..] == head + (tail + EncodePage(m.pagination));
      Regroup(head, tail, EncodePage(m.pagination));
    }
    n := buf.Length - i;
    assert cs[0..] == cs;
  }

  lemma Regroup(a: seq<byte>, b: seq<byte>, c: seq<byte>)
    ensures a + (b + c) == a + b + c
  {
  }

  lemma Prepend(now: seq<byte>, before: seq<byte>, orig: seq<byte>, i: nat, j: nat)
    requires i <= j <= |now| == |before| == |orig|
    requires now[j..] == before[j..] && now[..i] == before[..i] && before[..j] == orig[..j]
    ensures now[i..] == now[i..j] + before[j..]
    ensures now[..i] == orig[..i]
  {
    assert before[..i] == before[..j][..i];
    assert orig[..i] == orig[..j][..i];
  }

  /******* Unmarshal *******/

  function Apply(accepts: PageCodec, m: ActiveChains, raw: Raw): Result<ActiveChains, DecodeError>
    requires raw.Payload? ==> |raw.bytes| <= MAX_INT
  {
    match raw
    case Payload(num, bytes) =>
      if num == 1 then
        (match Decode(bytes)
         case Err(e) => Err(e)
         case Ok(c) => Ok(m.(consumerChains := m.consumerChains + [c])))
      else if accepts(bytes) then
        Ok(m.(pagination := Some((if m.pagination.None? then [] else m.pagination.value) + bytes)))
      else
        Err(BadPagination)
    case _ => Ok(m)
  }

  function DecodeResponseFrom(accepts: PageCodec, m: ActiveChains, base: nat, bs: seq<byte>): (r: Result<ActiveChains, DecodeError>)
    requires base + |bs| <= MAX_INT
    decreases |bs|
  {
    if bs == [] then Ok(m)
    else
      match NextRaw(ActiveChainsSchema, base, bs)
      case Err(e) => Err(e)
      case Ok((raw, n)) =>
        match Apply(accepts, m, raw)
        case Err(e) => Err(e)
        case Ok(m') => DecodeResponseFrom(accepts, m', base + n, bs[n..])
  }

  function DecodeResponse(accepts: PageCodec, bs: seq<byte>): Result<ActiveChains, DecodeError>
    requires |bs| <= MAX_INT
  {
    DecodeResponseFrom(accepts, EMPTY, 0, bs)
  }

  method UnmarshalField(accepts: PageCodec, m: ActiveChains, bs: seq<byte>, at: nat)
    returns (r: Result<(ActiveChains, nat), DecodeError>)
    requires at < |bs| <= MAX_INT
    ensures match NextRaw(ActiveChainsSchema, at, bs[at..])
      case Err(e) => r == Err(e)
      case Ok((raw, n)) =>
        match Apply(accepts, m, raw)
        case Err(e) => r == Err(e)
        case Ok(m') => r == Ok((m', at + n))
  {
    hide Read, SkipAt, ReadPayload, DecodeFrom;
    var tag := ReadLoop(bs, at, W64);
    if tag.Err? { return Err(tag.error); }
    var wire, next := tag.value.0, tag.value.1;
    var fieldNum, wireType := ToInt32(wire / 8), wire % 8;
    assert bs[at..][next - at..] == bs[next..];
    if wireType == 4 { return Err(EndGroup); }
    if fieldNum <= 0 { return Err(IllegalTag); }
    if fieldNum == 1 {
      if wireType != 2 { return Err(WrongWireType); }
      var msg := PayloadLoop(bs, next);
      if msg.Err? { return Err(msg.error); }
      var c := C.Unmarshal(ZERO, msg.value.0);
      if c.Err? { return Err(c.error); }
      return Ok((m.(consumerChains := m.consumerChains + [c.value]), msg.value.1));
    } else if fieldNum == 2 {
      if wireType != 2 { return Err(WrongWireType); }
      var msg := PayloadLoop(bs, next);
      if msg.Err? { return Err(msg.error); }
      var page := if m.pagination.None? then [] else m.pagination.value;
      if !accepts(msg.value.0) { return Err(BadPagination); }
      return Ok((m.(pagination := Some(page + msg.value.0)), msg.value.1));
    } else {
      var skippy := Skip(bs[at..]);
      if skippy.Err? { return Err(skippy.error); }
      if AddInt64(at, skippy.value) < 0 { return Err(InvalidLength); }
      if at + skippy.value > |bs| { return Err(UnexpectedEOF); }
      return Ok((m, at + skippy.value));
    }
  }

  method Unmarshal(accepts: PageCodec, m0: ActiveChains, bs: seq<byte>) returns (r: Result<ActiveChains, DecodeError>)
    requires |bs| <= MAX_INT
    ensures r == DecodeResponseFrom(accepts, m0, 0, bs)
  {
    hide NextRaw, Apply;
    var m, at := m0, 0;
    assert bs[0..] == bs;
    while at < |bs|
      invariant at <= |bs|
      invariant DecodeResponseFrom(accepts, m0, 0, bs) == DecodeResponseFrom(accepts, m, at, bs[at..])
      decreases |bs| - at
    {
      var field := UnmarshalField(accepts, m, bs, at);
      if field.Err? { return Err(field.error); }
      assert bs[at..][field.value.1 - at..] == bs[field.value.1..];
      m, at := field.value.0, field.value.1;
    }
    r := Ok(m);
  }

  /******* Round trip *******/

  lemma {:induction false} DecodeAppend(accepts: PageCodec, m: ActiveChains, base: nat, a: seq<byte>, b: seq<byte>)
    requires base + |a| + |b| <= MAX_INT
    requires DecodeResponseFrom(accepts, m, base, a).Ok?
    ensures DecodeResponseFrom(accepts, m, base, a + b)
         == DecodeResponseFrom(accepts, DecodeResponseFrom(accepts, m, base, a).value, base + |a|, b)
    decreases |a|
  {
    hide NextRaw, Apply;
    if a == [] {
      assert a + b == b;
    } else {
      NextRawExtend(ActiveChainsSchema, base, base, a, b);
      var Ok((raw, n)) := NextRaw(ActiveChainsSchema, base, a);
      assert (a + b)[n..] == a[n..] + b;
      DecodeAppend(accepts, Apply(accepts, m, raw).value, base + n, a[n..], b);
    }
  }

  // Where the input starts matters to no successful decoding.
  lemma {:induction false} DecodeRebase(accepts: PageCodec, m: ActiveChains, base: nat, base': nat, bs: seq<byte>)
    requires base + |bs| <= MAX_INT && base' + |bs| <= MAX_INT
    requires DecodeResponseFrom(accepts, m, base, bs).Ok?
    ensures DecodeResponseFrom(accepts, m, base', bs) == DecodeResponseFrom(accepts, m, base, bs)
    decreases |bs|
  {
    hide NextRaw, Apply;
    if bs != [] {
      NextRawExtend(ActiveChainsSchema, base, base', bs, []);
      assert bs + [] == bs;
      var Ok((raw, n)) := NextRaw(ActiveChainsSchema, base, bs);
      DecodeRebase(accepts, Apply(accepts, m, raw).value, base + n, base' + n, bs[n..]);
    }
  }

  // One unknown field is passed over.
  lemma DecodeUnknown(accepts: PageCodec, m: ActiveChains, base: nat, f: Field)
    requires base + |Bytes(f)| <= MAX_INT && WellFormed(f) && FieldNumber(f) > 2
    ensures DecodeResponseFrom(accepts, m, base, Bytes(f)) == Ok(m)
  {
    hide NextRaw, WellFormed, Bytes;
    var u := Bytes(f);
    FieldIsNotEmpty(f);
    NextRawUnknown(ActiveChainsSchema, base, f);
    assert u[|u|..] == [];
  }

  /** Forward compatibility of the response the multiplexer decodes: a well-formed field with an unknown
      number, put at any field boundary, changes neither whether it is accepted nor what it decodes to. */
  lemma UnknownFieldTransparent(accepts: PageCodec, m: ActiveChains, a: seq<byte>, f: Field, b: seq<byte>)
    requires |a| + |Bytes(f)| + |b| <= MAX_INT
    requires DecodeResponseFrom(accepts, m, 0, a).Ok?
    requires WellFormed(f) && FieldNumber(f) > 2
    ensures var with, without := DecodeResponseFrom(accepts, m, 0, a + Bytes(f) + b), DecodeResponseFrom(accepts, m, 0, a + b);
      with.Ok? == without.Ok? && (without.Ok? ==> with == without)
  {
    hide DecodeResponseFrom, WellFormed, Bytes;
    var u, m' := Bytes(f), DecodeResponseFrom(accepts, m, 0, a).value;
    DecodeAppend(accepts, m, 0, a, b);
    DecodeUnknown(accepts, m', |a|, f);
    DecodeAppend(accepts, m, 0, a, u);
    DecodeAppend(accepts, m, 0, a + u, b);
    if DecodeResponseFrom(accepts, m', |a|, b).Ok? {
      DecodeRebase(accepts, m', |a|, |a| + |u|, b);
    } else if DecodeResponseFrom(accepts, m', |a| + |u|, b).Ok? {
      DecodeRebase(accepts, m', |a| + |u|, |a|, b);
    }
  }

  lemma DecodeNested(accepts: PageCodec, m: ActiveChains, base: nat, num: int32, payload: seq<byte>)
    requires num == 1 || num == 2
    requires base + |Nested(8 * num + 2, payload)| <= MAX_INT
    ensures DecodeResponseFrom(accepts, m, base, Nested(8 * num + 2, payload)) == Apply(accepts, m, Payload(num, payload))
  {
    hide NextRaw, Apply, Encode;
    var bs := Nested(8 * num + 2, payload);
    NextPayload(ActiveChainsSchema, base, num, payload);
    assert bs[|bs|..] == [];
  }

  lemma {:induction false} DecodeChains(accepts: PageCodec, m: ActiveChains, base: nat, cs: seq<ConsumerChain>)
    requires base + |EncodeChains(cs)| <= MAX_INT
    ensures DecodeResponseFrom(accepts, m, base, EncodeChains(cs))
         == Ok(m.(consumerChains := m.consumerChains + cs))
    decreases |cs|
  {
    hide NextRaw, Nested, EncodeChain, Decode;
    if cs == [] {
      assert m.consumerChains + cs == m.consumerChains;
    } else {
      var first, rest := Nested(0x0a, EncodeChain(cs[0])), EncodeChains(cs[1..]);
      ChainRoundTrip(cs[0]);
      DecodeNested(accepts, m, base, 1, EncodeChain(cs[0]));
      DecodeAppend(accepts, m, base, first, rest);
      var m' := m.(consumerChains := m.consumerChains + [cs[0]]);
      DecodeChains(accepts, m', base + |first|, cs[1..]);
      assert m.consumerChains + [cs[0]] + cs[1..] == m.consumerChains + cs;
    }
  }

  /** Round trip of the whole response, any number of chains. With nil pagination nothing is asked
      of the page codec; otherwise it must accept the bytes it produced. */
  lemma ResponseRoundTrip(accepts: PageCodec, m: ActiveChains)
    requires |EncodeResponse(m)| <= MAX_INT
    requires m.pagination.Some? ==> accepts(m.pagination.value)
    ensures DecodeResponse(accepts, EncodeResponse(m)) == Ok(m)
  {
    hide NextRaw, Nested;
    var cs, page := EncodeChains(m.consumerChains), EncodePage(m.pagination);
    DecodeChains(accepts, EMPTY, 0, m.consumerChains);
    DecodeAppend(accepts, EMPTY, 0, cs, page);
    var m' := EMPTY.(consumerChains := m.consumerChains);
    assert [] + m.consumerChains == m.consumerChains;
    if m.pagination.Some? {
      assert [] + m.pagination.value == m.pagination.value;
      DecodeNested(accepts, m', |cs|, 2, m.pagination.value);
    }
  }
}
