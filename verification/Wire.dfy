/**
 Message structure on the wire (Protocol Buffers "Encoding" guide, sections "Message Structure"
 and "Length-Delimited Records"): skipping an unknown field, and reading the next field.
 */
module Wire {
  import opened GoTypes
  import opened Varint

  /******* skipProvider, skipQuery *******/

  // One field body, after its tag: the new index (which may wrap or pass the end) and depth.
  function SkipBody(bs: seq<byte>, at: nat, wireType: nat, depth: nat): (r: Result<(int64, nat), DecodeError>)
    requires at <= |bs| <= MAX_INT
    ensures r.Ok? && r.value.0 >= 0 ==> r.value.0 >= at
  {
    match wireType
    case 0 =>
      (match Read(bs[at..])
       case Err(e) => Err(e)
       case Ok((_, n)) => Ok((at + n, depth)))
    case 1 => Ok((AddInt64(at, 8), depth))
    case 2 =>
      (match Read(bs[at..])
       case Err(e) => Err(e)
       case Ok((u, n)) =>
         if ToInt64(u) < 0 then Err(InvalidLength) else Ok((AddInt64(at + n, ToInt64(u)), depth)))
    case 3 => Ok((at, depth + 1))
    case 4 => if depth == 0 then Err(UnexpectedEndOfGroup) else Ok((at, depth - 1))
    case 5 => Ok((AddInt64(at, 4), depth))
    case _ => Err(IllegalWireType)
  }

  // The skipper from index i at the given group depth. It stops as soon as the depth is back at zero.
  function SkipAt(bs: seq<byte>, i: nat, depth: nat): (r: Result<nat, DecodeError>)
    requires |bs| <= MAX_INT
    ensures r.Ok? ==> i < r.value <= MAX_INT
    decreases |bs| - i, 0
  {
    if i >= |bs| then Err(UnexpectedEOF)
    else
      match Read(bs[i..])
      case Err(e) => Err(e)
      case Ok((wire, n)) => SkipAfterTag(bs, i + n, wire % 8, depth)
  }

  function SkipAfterTag(bs: seq<byte>, at: nat, wireType: nat, depth: nat): (r: Result<nat, DecodeError>)
    requires at <= |bs| <= MAX_INT
    ensures r.Ok? ==> at <= r.value <= MAX_INT
    decreases |bs| - at, 1
  {
    match SkipBody(bs, at, wireType, depth)
    case Err(e) => Err(e)
    case Ok((next, d)) =>
      if next < 0 then Err(InvalidLength)
      else if d == 0 then Ok(next)
      else SkipAt(bs, next, d)
  }

  // The body of the skipper's switch.
  method SkipBodyLoop(bs: seq<byte>, at: nat, wireType: nat, depth: nat) returns (r: Result<(int64, nat), DecodeError>)
    requires at <= |bs| <= MAX_INT
    ensures r == SkipBody(bs, at, wireType, depth)
  {
    hide Read;
    if wireType == 0 {
      var v := ReadLoop(bs, at, W64);
      if v.Err? { return Err(v.error); }
      return Ok((v.value.1, depth));
    } else if wireType == 1 {
      return Ok((AddInt64(at, 8), depth));
    } else if wireType == 2 {
      var v := ReadLoop(bs, at, W64);
      if v.Err? { return Err(v.error); }
      var length := ToInt64(v.value.0);
      if length < 0 { return Err(InvalidLength); }
      return Ok((AddInt64(v.value.1, length), depth));
    } else if wireType == 3 {
      return Ok((at, depth + 1));
    } else if wireType == 4 {
      if depth == 0 { return Err(UnexpectedEndOfGroup); }
      return Ok((at, depth - 1));
    } else if wireType == 5 {
      return Ok((AddInt64(at, 4), depth));
    } else {
      return Err(IllegalWireType);
    }
  }

  method Skip(bs: seq<byte>) returns (r: Result<nat, DecodeError>)
    requires |bs| <= MAX_INT
    ensures r == SkipAt(bs, 0, 0)
  {
    hide Read, SkipBody;
    var at, depth := 0, 0;
    while at < |bs|
      invariant at <= MAX_INT
      invariant SkipAt(bs, 0, 0) == SkipAt(bs, at, depth)
      decreases |bs| - at
    {
      var tag := ReadLoop(bs, at, W64);
      if tag.Err? { return Err(tag.error); }
      var body := SkipBodyLoop(bs, tag.value.1, tag.value.0 % 8, depth);
      if body.Err? { return Err(body.error); }
      var (next, d) := body.value;
      if next < 0 { return Err(InvalidLength); }
      if d == 0 { return Ok(next); }
      at, depth := next, d;
    }
    r := Err(UnexpectedEOF);
  }

  /******* The grammar of fields a skipper must pass over *******/

  // Tags and lengths are any varints, not only shortest ones; groups nest.
  datatype Field =
    | VarintField(tag: seq<byte>, number: seq<byte>)
    | Fixed64Field(tag: seq<byte>, body: seq<byte>)
    | LengthField(tag: seq<byte>, length: seq<byte>, body: seq<byte>)
    | GroupField(tag: seq<byte>, fields: seq<Field>, endTag: seq<byte>)
    | Fixed32Field(tag: seq<byte>, body: seq<byte>)

  function Bytes(f: Field): (bs: seq<byte>)
    decreases f, 1
  {
    match f
    case VarintField(tag, number) => tag + number
    case Fixed64Field(tag, body) => tag + body
    case LengthField(tag, length, body) => tag + length + body
    case GroupField(tag, fields, endTag) => tag + BytesOfAll(fields) + endTag
    case Fixed32Field(tag, body) => tag + body
  }

  function BytesOfAll(fs: seq<Field>): (bs: seq<byte>)
    decreases fs, 0
  {
    if fs == [] then [] else Bytes(fs[0]) + BytesOfAll(fs[1..])
  }

  // A varint whose low three bits are the wire type.
  predicate IsTag(tag: seq<byte>, wireType: nat)
  {
    IsVarint(tag) && Wrap(Number(tag), W64) % 8 == wireType
  }

  predicate WellFormed(f: Field)
    decreases f, 1
  {
    match f
    case VarintField(tag, number) => IsTag(tag, 0) && IsVarint(number)
    case Fixed64Field(tag, body) => IsTag(tag, 1) && |body| == 8
    case LengthField(tag, length, body) => IsTag(tag, 2) && IsVarint(length) && Wrap(Number(length), W64) == |body|
    case GroupField(tag, fields, endTag) => IsTag(tag, 3) && AllWellFormed(fields) && IsTag(endTag, 4)
    case Fixed32Field(tag, body) => IsTag(tag, 5) && |body| == 4
  }

  predicate AllWellFormed(fs: seq<Field>)
    decreases fs, 0
  {
    fs == [] || (WellFormed(fs[0]) && AllWellFormed(fs[1..]))
  }

  // The decoders' field number: 32 bits of the tag above the wire type.
  function FieldNumber(f: Field): int32
  {
    ToInt32(Wrap(Number(f.tag), W64) / 8)
  }

  // part occurs in bs at index i.
  predicate At(bs: seq<byte>, i: nat, part: seq<byte>)
  {
    i + |part| <= |bs| && bs[i..i + |part|] == part
  }

  lemma AtConcat(bs: seq<byte>, i: nat, a: seq<byte>, b: seq<byte>)
    requires At(bs, i, a + b)
    ensures At(bs, i, a) && At(bs, i + |a|, b)
  {
    assert (a + b)[..|a|] == a && (a + b)[|a|..] == b;
    assert bs[i..i + |a|] == bs[i..i + |a| + |b|][..|a|];
    assert bs[i + |a|..i + |a| + |b|] == bs[i..i + |a| + |b|][|a|..];
  }

  lemma ReadAt(bs: seq<byte>, i: nat, v: seq<byte>)
    requires At(bs, i, v) && IsVarint(v)
    ensures Read(bs[i..]) == Ok((Wrap(Number(v), W64), |v|))
  {
    assert bs[i..] == v + bs[i + |v|..];
    ReadVarintPrefix(v, bs[i + |v|..]);
  }

  lemma SkipTag(bs: seq<byte>, i: nat, tag: seq<byte>, wireType: nat, depth: nat)
    requires |bs| <= MAX_INT && At(bs, i, tag) && IsTag(tag, wireType)
    ensures SkipAt(bs, i, depth) == SkipAfterTag(bs, i + |tag|, wireType, depth)
  {
    hide Read, SkipAfterTag;
    ReadAt(bs, i, tag);
  }

  lemma SkipLength(bs: seq<byte>, at: nat, length: seq<byte>, body: seq<byte>, depth: nat)
    requires |bs| <= MAX_INT && At(bs, at, length + body)
    requires IsVarint(length) && Wrap(Number(length), W64) == |body|
    ensures SkipBody(bs, at, 2, depth) == Ok((at + |length + body|, depth))
  {
    hide Read;
    AtConcat(bs, at, length, body);
    ReadAt(bs, at, length);
  }

  /** The depth counter agrees with the nested grammar: at depth zero the skipper stops exactly at
      the end of a well-formed field, and inside a group it carries on right after it. */
  lemma {:induction false} SkipField(bs: seq<byte>, i: nat, f: Field, depth: nat)
    requires |bs| <= MAX_INT && At(bs, i, Bytes(f)) && WellFormed(f)
    ensures SkipAt(bs, i, depth) ==
            if depth == 0 then Ok(i + |Bytes(f)|) else SkipAt(bs, i + |Bytes(f)|, depth)
    decreases f, 1
  {
    hide Read, SkipAt, IsTag, IsVarint, Wrap, Number, At, AllWellFormed, BytesOfAll;
    match f
    case VarintField(tag, number) =>
      AtConcat(bs, i, tag, number);
      SkipTag(bs, i, tag, 0, depth);
      ReadAt(bs, i + |tag|, number);
    case Fixed64Field(tag, body) =>
      AtConcat(bs, i, tag, body);
      SkipTag(bs, i, tag, 1, depth);
    case LengthField(tag, length, body) =>
      assert Bytes(f) == tag + (length + body);
      AtConcat(bs, i, tag, length + body);
      SkipTag(bs, i, tag, 2, depth);
      SkipLength(bs, i + |tag|, length, body, depth);
    case GroupField(tag, fields, endTag) =>
      SkipGroup(bs, i, tag, fields, endTag, depth);
    case Fixed32Field(tag, body) =>
      AtConcat(bs, i, tag, body);
      SkipTag(bs, i, tag, 5, depth);
  }

  lemma {:induction false} SkipGroup(bs: seq<byte>, i: nat, tag: seq<byte>, fields: seq<Field>, endTag: seq<byte>, depth: nat)
    requires |bs| <= MAX_INT && At(bs, i, tag + BytesOfAll(fields) + endTag)
    requires IsTag(tag, 3) && AllWellFormed(fields) && IsTag(endTag, 4)
    ensures var end := i + |tag + BytesOfAll(fields) + endTag|;
            SkipAt(bs, i, depth) == if depth == 0 then Ok(end) else SkipAt(bs, end, depth)
    decreases fields, 1
  {
    hide Read, SkipAt, IsTag, At, WellFormed, BytesOfAll;
    var body := BytesOfAll(fields);
    AtConcat(bs, i, tag + body, endTag);
    AtConcat(bs, i, tag, body);
    OpenGroup(bs, i, tag, depth);
    SkipFields(bs, i + |tag|, fields, depth + 1);
    CloseGroup(bs, i + |tag| + |body|, endTag, depth);
  }

  // A start tag goes one level down, an end tag comes back up.
  lemma OpenGroup(bs: seq<byte>, i: nat, tag: seq<byte>, depth: nat)
    requires |bs| <= MAX_INT && At(bs, i, tag) && IsTag(tag, 3)
    ensures SkipAt(bs, i, depth) == SkipAt(bs, i + |tag|, depth + 1)
  {
    hide Read, SkipAt, IsTag;
    SkipTag(bs, i, tag, 3, depth);
  }

  lemma CloseGroup(bs: seq<byte>, i: nat, tag: seq<byte>, depth: nat)
    requires |bs| <= MAX_INT && At(bs, i, tag) && IsTag(tag, 4)
    ensures SkipAt(bs, i, depth + 1) == if depth == 0 then Ok(i + |tag|) else SkipAt(bs, i + |tag|, depth)
  {
    hide Read, SkipAt, IsTag;
    SkipTag(bs, i, tag, 4, depth + 1);
  }

  lemma {:induction false} SkipFields(bs: seq<byte>, i: nat, fs: seq<Field>, depth: nat)
    requires |bs| <= MAX_INT && At(bs, i, BytesOfAll(fs)) && AllWellFormed(fs) && depth > 0
    ensures SkipAt(bs, i, depth) == SkipAt(bs, i + |BytesOfAll(fs)|, depth)
    decreases fs, 0
  {
    hide Read, SkipAt, At, Bytes, WellFormed;
    if fs != [] {
      AtConcat(bs, i, Bytes(fs[0]), BytesOfAll(fs[1..]));
      SkipField(bs, i, fs[0], depth);
      SkipFields(bs, i + |Bytes(fs[0])|, fs[1..], depth);
    }
  }

  // A skip that ends inside a is not changed by what follows a.
  lemma {:induction false} SkipExtend(a: seq<byte>, b: seq<byte>, i: nat, depth: nat)
    requires |a| + |b| <= MAX_INT
    requires SkipAt(a, i, depth).Ok? && SkipAt(a, i, depth).value <= |a|
    ensures SkipAt(a + b, i, depth) == SkipAt(a, i, depth)
    decreases |a| - i
  {
    hide Read;
    assert (a + b)[i..] == a[i..] + b;
    ReadExtend(a[i..], b);
    var Ok((wire, n)) := Read(a[i..]);
    SkipBodyExtend(a, b, i + n, wire % 8, depth);
    var Ok((at, d)) := SkipBody(a, i + n, wire % 8, depth);
    if d != 0 {
      SkipExtend(a, b, at, d);
    }
  }

  lemma SkipBodyExtend(a: seq<byte>, b: seq<byte>, at: nat, wireType: nat, depth: nat)
    requires at <= |a| && |a| + |b| <= MAX_INT
    requires SkipBody(a, at, wireType, depth).Ok?
    ensures SkipBody(a + b, at, wireType, depth) == SkipBody(a, at, wireType, depth)
  {
    hide Read;
    assert (a + b)[at..] == a[at..] + b;
    if wireType == 0 || wireType == 2 {
      ReadExtend(a[at..], b);
    }
  }

  /******* The next field of a message *******/

  datatype Schema = ConsumerChainSchema | ActiveChainsSchema

  datatype Kind = LengthDelimited | VarintValue | Unknown

  // The field numbers each decoder's switch names, and what it expects behind them.
  function KindOf(schema: Schema, num: int32): Kind
  {
    match schema
    case ConsumerChainSchema =>
      if num == 1 || num == 2 || num == 3 || num == 7 then LengthDelimited
      else if num == 4 || num == 5 || num == 6 then VarintValue
      else Unknown
    case ActiveChainsSchema =>
      if num == 1 || num == 2 then LengthDelimited else Unknown
  }

  datatype Raw =
    | Payload(num: int32, bytes: seq<byte>)
    | Scalar(num: int32, value: uint64)
    | Skipped

  // A length-delimited payload. base is the index of bs in the whole input: it only matters for
  // which of two errors is reported when the end index wraps around.
  function ReadPayload(base: nat, bs: seq<byte>): (r: Result<(seq<byte>, nat), DecodeError>)
    requires base + |bs| <= MAX_INT
    ensures r.Ok? ==> 1 <= r.value.1 <= |bs|
    ensures r.Ok? ==> |r.value.0| <= |bs|
  {
    match Read(bs)
    case Err(e) => Err(e)
    case Ok((u, n)) =>
      var length := ToInt64(u);
      if length < 0 then Err(InvalidLength)
      else if AddInt64(base + n, length) < 0 then Err(InvalidLength)
      else if n + length > |bs| then Err(UnexpectedEOF)
      else Ok((bs[n..n + length], n + length))
  }

  // One turn of the Unmarshal loop: the field at the front of bs and the bytes it takes.
  function NextRaw(schema: Schema, base: nat, bs: seq<byte>): (r: Result<(Raw, nat), DecodeError>)
    requires bs != [] && base + |bs| <= MAX_INT
    ensures r.Ok? ==> 1 <= r.value.1 <= |bs|
    ensures r.Ok? && r.value.0.Payload? ==> |r.value.0.bytes| <= |bs|
  {
    match Read(bs)
    case Err(e) => Err(e)
    case Ok((wire, n)) =>
      var num, wireType := ToInt32(wire / 8), wire % 8;
      if wireType == 4 then Err(EndGroup)
      else if num <= 0 then Err(IllegalTag)
      else
        match KindOf(schema, num)
        case LengthDelimited =>
          if wireType != 2 then Err(WrongWireType)
          else (match ReadPayload(base + n, bs[n..])
                case Err(e) => Err(e)
                case Ok((p, k)) => Ok((Payload(num, p), n + k)))
        case VarintValue =>
          if wireType != 0 then Err(WrongWireType)
          else (match Read(bs[n..])
                case Err(e) => Err(e)
                case Ok((v, k)) => Ok((Scalar(num, v), n + k)))
        case Unknown =>
          match SkipAt(bs, 0, 0)
          case Err(e) => Err(e)
          case Ok(k) =>
            if AddInt64(base, k) < 0 then Err(InvalidLength)
            else if k > |bs| then Err(UnexpectedEOF)
            else Ok((Skipped, k))
  }

  lemma ReadPayloadExtend(base: nat, base': nat, a: seq<byte>, b: seq<byte>)
    requires base + |a| <= MAX_INT && base' + |a| + |b| <= MAX_INT
    requires ReadPayload(base, a).Ok?
    ensures ReadPayload(base', a + b) == ReadPayload(base, a)
  {
    hide Read;
    ReadExtend(a, b);
    var Ok((u, n)) := Read(a);
    assert (a + b)[n..n + ToInt64(u)] == a[n..n + ToInt64(u)];
  }

  // A field that was read is read the same at any other index and whatever follows it.
  lemma NextRawExtend(schema: Schema, base: nat, base': nat, a: seq<byte>, b: seq<byte>)
    requires a != [] && base + |a| <= MAX_INT && base' + |a| + |b| <= MAX_INT
    requires NextRaw(schema, base, a).Ok?
    ensures NextRaw(schema, base', a + b) == NextRaw(schema, base, a)
  {
    hide Read;
    ReadExtend(a, b);
    var Ok((wire, n)) := Read(a);
    assert (a + b)[n..] == a[n..] + b;
    match KindOf(schema, ToInt32(wire / 8))
    case LengthDelimited => ReadPayloadExtend(base + n, base' + n, a[n..], b);
    case VarintValue => ReadExtend(a[n..], b);
    case Unknown => SkipExtend(a, b, 0, 0);
  }

  lemma TagInFront(f: Field)
    requires WellFormed(f)
    ensures At(Bytes(f), 0, Bytes(f)) && At(Bytes(f), 0, f.tag) && IsVarint(f.tag)
    ensures Wrap(Number(f.tag), W64) % 8 != 4
  {
    hide Read, Continuations, Wrap, Number;
    var bs := Bytes(f);
    assert bs[0..|bs|] == bs;
    assert bs[0..|f.tag|] == f.tag;
  }

  // A well-formed field under a number the message does not know is passed over, whole.
  lemma NextRawUnknown(schema: Schema, base: nat, f: Field)
    requires base + |Bytes(f)| <= MAX_INT && Bytes(f) != []
    requires WellFormed(f) && FieldNumber(f) > 0 && KindOf(schema, FieldNumber(f)) == Unknown
    ensures NextRaw(schema, base, Bytes(f)) == Ok((Skipped, |Bytes(f)|))
  {
    hide Read, SkipAt, ReadPayload, Wrap, Number, Bytes, WellFormed, IsVarint;
    var bs := Bytes(f);
    assert bs[0..] == bs;
    TagInFront(f);
    SkipField(bs, 0, f, 0);
    ReadAt(bs, 0, f.tag);
  }

  lemma FieldIsNotEmpty(f: Field)
    requires WellFormed(f)
    ensures Bytes(f) != []
  {
    assert f.tag != [];
  }
}
