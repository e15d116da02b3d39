/**
 The wire format of the two messages, as their definition gives it: which field number each member has,
 what its type is, and that the last of several fields with one number counts. Neither the order in which
 the encoder lists the members nor how the decoder stores them has a part in these statements.
 */
module Format {
  import opened GoTypes
  import opened Varint
  import opened Wire
  import opened ChainCodec
  import Q = QueryCodec

  /******* Numbers *******/

  // The examples of the Protocol Buffers "Encoding" guide.
  lemma GuideExamples()
    ensures Encode(1) == [1] && Encode(150) == [150, 1]
    ensures Read([150, 1]) == Ok((150, 2))
  {
    assert Encode(150 / 128) == [1];
    assert Encode(150) == [150, 1];
    ReadEncode(150, []);
    assert [150, 1] + [] == [150, 1];
  }

  // A varint ends at its first byte below 128, and is at most ten bytes long.
  lemma ReadEnds(bs: seq<byte>)
    ensures Read(bs) == Err(IntOverflow) <==> |bs| >= 10 && forall i :: 0 <= i < 10 ==> bs[i] >= 128
    ensures Read(bs) == Err(UnexpectedEOF) <==> |bs| < 10 && forall i :: 0 <= i < |bs| ==> bs[i] >= 128
    ensures Read(bs).Ok? ==> var n := Read(bs).value.1;
              1 <= n <= 10 && n <= |bs| && bs[n - 1] < 128 && forall i :: 0 <= i < n - 1 ==> bs[i] >= 128
  {
    hide Wrap, Number;
  }

  /******* Fields in a list *******/

  lemma {:induction false} BytesConcat(a: seq<Field>, b: seq<Field>)
    ensures BytesOfAll(a + b) == BytesOfAll(a) + BytesOfAll(b)
    ensures AllWellFormed(a + b) <==> AllWellFormed(a) && AllWellFormed(b)
    decreases |a|
  {
    hide Bytes, WellFormed;
    if a == [] {
      assert a + b == b;
    } else {
      assert (a + b)[0] == a[0] && (a + b)[1..] == a[1..] + b;
      BytesConcat(a[1..], b);
      assert Bytes(a[0]) + (BytesOfAll(a[1..]) + BytesOfAll(b)) == Bytes(a[0]) + BytesOfAll(a[1..]) + BytesOfAll(b);
    }
  }

  lemma OneField(f: Field)
    ensures BytesOfAll([f]) == Bytes(f) && (AllWellFormed([f]) <==> WellFormed(f))
  {
    assert [f][1..] == [];
    assert Bytes(f) + [] == Bytes(f);
  }

  ghost predicate Numbered(fs: seq<Field>)
  {
    forall i :: 0 <= i < |fs| ==> FieldNumber(fs[i]) > 0
  }

  function ValueOf(f: Field): uint64
    requires f.VarintField?
  {
    Wrap(Number(f.number), W64)
  }

  // The value of the last length-delimited field with the number, empty if there is none.
  ghost predicate LastStr(fs: seq<Field>, num: int32, s: Str)
  {
    if forall i :: 0 <= i < |fs| ==> FieldNumber(fs[i]) != num then s == []
    else exists k :: 0 <= k < |fs| && IsLast(fs, num, k) && fs[k].LengthField? && fs[k].body == s
  }

  // The value of the last varint field with the number, zero if there is none.
  ghost predicate LastInt(fs: seq<Field>, num: int32, u: uint64)
  {
    if forall i :: 0 <= i < |fs| ==> FieldNumber(fs[i]) != num then u == 0
    else exists k :: 0 <= k < |fs| && IsLast(fs, num, k) && fs[k].VarintField? && ValueOf(fs[k]) == u
  }

  ghost predicate IsLast(fs: seq<Field>, num: int32, k: nat)
    requires k < |fs|
  {
    FieldNumber(fs[k]) == num && forall j :: k < j < |fs| ==> FieldNumber(fs[j]) != num
  }

  /******* One field in front *******/

  lemma TagFirst(f: Field, more: seq<byte>)
    requires WellFormed(f)
    ensures var bs := Bytes(f) + more; At(bs, 0, f.tag) && IsVarint(f.tag)
    ensures Read(Bytes(f) + more) == Ok((Wrap(Number(f.tag), W64), |f.tag|))
    ensures Wrap(Number(f.tag), W64) % 8 == match f
              case VarintField(_, _) => 0
              case Fixed64Field(_, _) => 1
              case LengthField(_, _, _) => 2
              case GroupField(_, _, _) => 3
              case Fixed32Field(_, _) => 5
  {
    hide Read, Continuations, Wrap, Number, BytesOfAll, AllWellFormed;
    var bs := Bytes(f) + more;
    assert bs[0..|f.tag|] == f.tag;
    assert bs[0..] == bs;
    ReadAt(bs, 0, f.tag);
  }

  // The field is of the type its number calls for.
  predicate Fits(schema: Schema, f: Field)
  {
    match KindOf(schema, FieldNumber(f))
    case LengthDelimited => f.LengthField?
    case VarintValue => f.VarintField?
    case Unknown => true
  }

  lemma NextLength(schema: Schema, base: nat, f: Field, more: seq<byte>)
    requires WellFormed(f) && f.LengthField? && FieldNumber(f) > 0 && KindOf(schema, FieldNumber(f)) == LengthDelimited
    requires base + |Bytes(f) + more| <= MAX_INT
    ensures Bytes(f) != []
    ensures NextRaw(schema, base, Bytes(f) + more) == Ok((Payload(FieldNumber(f), f.body), |Bytes(f)|))
  {
    hide Read, Wrap, Number, WellFormed, KindOf, IsVarint;
    var bs, n := Bytes(f) + more, |f.tag|;
    TagFirst(f, more);
    TagNotEmpty(f);
    LengthParts(f);
    assert bs[n..] == f.length + (f.body + more);
    ReadVarintPrefix(f.length, f.body + more);
    var at := |f.length|;
    assert bs[n..][at..at + |f.body|] == f.body;
  }

  lemma LengthParts(f: Field)
    requires WellFormed(f) && f.LengthField?
    ensures IsVarint(f.length) && Wrap(Number(f.length), W64) == |f.body|
  {
  }

  lemma TagNotEmpty(f: Field)
    requires WellFormed(f)
    ensures |f.tag| >= 1 && Bytes(f) != []
  {
    hide Read, Continuations, Wrap, Number, BytesOfAll, AllWellFormed;
    FieldIsNotEmpty(f);
  }

  lemma NextVarint(schema: Schema, base: nat, f: Field, more: seq<byte>)
    requires WellFormed(f) && f.VarintField? && FieldNumber(f) > 0 && KindOf(schema, FieldNumber(f)) == VarintValue
    requires base + |Bytes(f) + more| <= MAX_INT
    ensures Bytes(f) != []
    ensures NextRaw(schema, base, Bytes(f) + more)
         == Ok((Scalar(FieldNumber(f), ValueOf(f)), |Bytes(f)|))
  {
    hide Read, Wrap, Number, WellFormed, KindOf, IsVarint;
    var bs, n := Bytes(f) + more, |f.tag|;
    TagFirst(f, more);
    TagNotEmpty(f);
    assert IsVarint(f.number) by { VarintParts(f); }
    assert bs[n..] == f.number + more;
    ReadVarintPrefix(f.number, more);
  }

  lemma VarintParts(f: Field)
    requires WellFormed(f) && f.VarintField?
    ensures IsVarint(f.number)
  {
  }

  lemma NextMisfit(schema: Schema, base: nat, f: Field, more: seq<byte>)
    requires WellFormed(f) && FieldNumber(f) > 0 && !Fits(schema, f)
    requires base + |Bytes(f) + more| <= MAX_INT
    ensures Bytes(f) != [] && NextRaw(schema, base, Bytes(f) + more) == Err(WrongWireType)
  {
    hide Read, Wrap, Number, WellFormed, KindOf, IsVarint, Bytes, SkipAt;
    TagFirst(f, more);
    TagNotEmpty(f);
  }

  lemma NextSkipped(schema: Schema, base: nat, f: Field, more: seq<byte>)
    requires WellFormed(f) && FieldNumber(f) > 0 && KindOf(schema, FieldNumber(f)) == Unknown
    requires base + |Bytes(f) + more| <= MAX_INT
    ensures Bytes(f) != [] && NextRaw(schema, base, Bytes(f) + more) == Ok((Skipped, |Bytes(f)|))
  {
    hide Read, WellFormed, KindOf, Bytes, NextRaw, FieldNumber;
    FieldIsNotEmpty(f);
    NextRawUnknown(schema, base, f);
    NextRawExtend(schema, base, base, Bytes(f), more);
  }

  /******* Reading a ConsumerChain *******/

  // A member after the fields of the list, in order, have been read over its old value.
  function StrOver(was: Str, fs: seq<Field>, num: int32): Str
    decreases |fs|
  {
    if fs == [] then was
    else StrOver(if FieldNumber(fs[0]) == num && fs[0].LengthField? then fs[0].body else was, fs[1..], num)
  }

  function IntOver(was: uint64, fs: seq<Field>, num: int32): uint64
    decreases |fs|
  {
    if fs == [] then was
    else IntOver(if FieldNumber(fs[0]) == num && fs[0].VarintField? then ValueOf(fs[0]) else was, fs[1..], num)
  }

  // The last field with a number, if there is one.
  lemma {:induction false} LastExists(fs: seq<Field>, num: int32, i: nat) returns (k: nat)
    requires i < |fs| && FieldNumber(fs[i]) == num
    ensures k < |fs| && IsLast(fs, num, k)
    decreases |fs| - i
  {
    k := i;
    if j :| i < j < |fs| && FieldNumber(fs[j]) == num {
      k := LastExists(fs, num, j);
    }
  }

  lemma {:induction false} StrOverNone(was: Str, fs: seq<Field>, num: int32)
    requires forall i :: 0 <= i < |fs| ==> FieldNumber(fs[i]) != num
    ensures StrOver(was, fs, num) == was
    decreases |fs|
  {
    if fs != [] {
      StrOverNone(was, fs[1..], num);
    }
  }

  lemma {:induction false} StrOverLast(was: Str, fs: seq<Field>, num: int32, k: nat)
    requires k < |fs| && IsLast(fs, num, k) && fs[k].LengthField?
    ensures StrOver(was, fs, num) == fs[k].body
    decreases |fs|
  {
    hide FieldNumber;
    if k == 0 {
      StrOverNone(fs[0].body, fs[1..], num);
    } else {
      assert IsLast(fs[1..], num, k - 1);
      StrOverLast(if FieldNumber(fs[0]) == num && fs[0].LengthField? then fs[0].body else was, fs[1..], num, k - 1);
    }
  }

  lemma StrIsLast(fs: seq<Field>, num: int32)
    requires forall i :: 0 <= i < |fs| && FieldNumber(fs[i]) == num ==> fs[i].LengthField?
    ensures LastStr(fs, num, StrOver([], fs, num))
  {
    hide FieldNumber, StrOver;
    if i :| 0 <= i < |fs| && FieldNumber(fs[i]) == num {
      var k := LastExists(fs, num, i);
      StrOverLast([], fs, num, k);
    } else {
      StrOverNone([], fs, num);
    }
  }

  lemma {:induction false} IntOverNone(was: uint64, fs: seq<Field>, num: int32)
    requires forall i :: 0 <= i < |fs| ==> FieldNumber(fs[i]) != num
    ensures IntOver(was, fs, num) == was
    decreases |fs|
  {
    if fs != [] {
      IntOverNone(was, fs[1..], num);
    }
  }

  lemma {:induction false} IntOverLast(was: uint64, fs: seq<Field>, num: int32, k: nat)
    requires k < |fs| && IsLast(fs, num, k) && fs[k].VarintField?
    ensures IntOver(was, fs, num) == ValueOf(fs[k])
    decreases |fs|
  {
    hide FieldNumber, ValueOf;
    if k == 0 {
      IntOverNone(ValueOf(fs[0]), fs[1..], num);
    } else {
      assert IsLast(fs[1..], num, k - 1);
      IntOverLast(if FieldNumber(fs[0]) == num && fs[0].VarintField? then ValueOf(fs[0]) else was,
                  fs[1..], num, k - 1);
    }
  }

  lemma IntIsLast(fs: seq<Field>, num: int32)
    requires forall i :: 0 <= i < |fs| && FieldNumber(fs[i]) == num ==> fs[i].VarintField?
    ensures LastInt(fs, num, IntOver(0, fs, num))
  {
    hide FieldNumber, IntOver, ValueOf;
    if i :| 0 <= i < |fs| && FieldNumber(fs[i]) == num {
      var k := LastExists(fs, num, i);
      IntOverLast(0, fs, num, k);
    } else {
      IntOverNone(0, fs, num);
    }
  }

  // The members as they stand on the wire.
  datatype Values = Values(chainId: Str, name: Str, version: Str, status: uint64, addedAt: uint64, sunsetAt: uint64,
                           address: Str)

  const BLANK := Values([], [], [], 0, 0, 0, [])

  function ToChain(v: Values): ConsumerChain
  {
    ConsumerChain(v.chainId, v.name, v.version, ToInt32(v.status), ToInt64(v.addedAt), ToInt64(v.sunsetAt), v.address)
  }

  function ValuesOver(v: Values, fs: seq<Field>): Values
  {
    Values(StrOver(v.chainId, fs, 1), StrOver(v.name, fs, 2), StrOver(v.version, fs, 3), IntOver(v.status, fs, 4),
           IntOver(v.addedAt, fs, 5), IntOver(v.sunsetAt, fs, 6), StrOver(v.address, fs, 7))
  }

  // chain_id 1, name 2, version 3 and module_account_address 7 are strings; status 4, added_at 5 and
  // sunset_at 6 are varints.
  predicate ChainTyped(f: Field)
  {
    var n := FieldNumber(f);
    && (n == 1 || n == 2 || n == 3 || n == 7 ==> f.LengthField?)
    && (n == 4 || n == 5 || n == 6 ==> f.VarintField?)
  }

  ghost predicate AllChainTyped(fs: seq<Field>)
  {
    forall i :: 0 <= i < |fs| ==> ChainTyped(fs[i])
  }

  lemma OverOne(was: Str, n: uint64, f: Field, num: int32)
    ensures StrOver(was, [f], num) == if FieldNumber(f) == num && f.LengthField? then f.body else was
    ensures IntOver(n, [f], num) == if FieldNumber(f) == num && f.VarintField? then ValueOf(f) else n
  {
    hide FieldNumber, ValueOf;
    assert [f][1..] == [];
    var rest: seq<Field> := [];
    assert StrOver(if FieldNumber(f) == num && f.LengthField? then f.body else was, rest, num)
        == if FieldNumber(f) == num && f.LengthField? then f.body else was;
  }

  lemma ValuesOne(v: Values, f: Field)
    ensures ValuesOver(v, [f]) == Values(
              if FieldNumber(f) == 1 && f.LengthField? then f.body else v.chainId,
              if FieldNumber(f) == 2 && f.LengthField? then f.body else v.name,
              if FieldNumber(f) == 3 && f.LengthField? then f.body else v.version,
              if FieldNumber(f) == 4 && f.VarintField? then ValueOf(f) else v.status,
              if FieldNumber(f) == 5 && f.VarintField? then ValueOf(f) else v.addedAt,
              if FieldNumber(f) == 6 && f.VarintField? then ValueOf(f) else v.sunsetAt,
              if FieldNumber(f) == 7 && f.LengthField? then f.body else v.address)
  {
    hide FieldNumber, ValueOf, StrOver, IntOver;
    OverOne(v.chainId, 0, f, 1);
    OverOne(v.name, 0, f, 2);
    OverOne(v.version, 0, f, 3);
    OverOne([], v.status, f, 4);
    OverOne([], v.addedAt, f, 5);
    OverOne([], v.sunsetAt, f, 6);
    OverOne(v.address, 0, f, 7);
  }

  // One more field in front.
  lemma ValuesFirst(v: Values, fs: seq<Field>)
    requires fs != [] && ChainTyped(fs[0])
    ensures ValuesOver(v, fs) == ValuesOver(ValuesOver(v, [fs[0]]), fs[1..])
  {
    hide FieldNumber, ValueOf;
    ValuesOne(v, fs[0]);
  }

  lemma ApplyField(v: Values, f: Field)
    requires ChainTyped(f) && FieldNumber(f) > 0
    ensures f.LengthField? && KindOf(ConsumerChainSchema, FieldNumber(f)) == LengthDelimited ==>
              Apply(ToChain(v), Payload(FieldNumber(f), f.body)) == ToChain(ValuesOver(v, [f]))
    ensures f.VarintField? && KindOf(ConsumerChainSchema, FieldNumber(f)) == VarintValue ==>
              Apply(ToChain(v), Scalar(FieldNumber(f), ValueOf(f))) == ToChain(ValuesOver(v, [f]))
    ensures KindOf(ConsumerChainSchema, FieldNumber(f)) == Unknown ==> ToChain(v) == ToChain(ValuesOver(v, [f]))
    ensures Fits(ConsumerChainSchema, f)
  {
    hide FieldNumber, ValueOf, ToInt32, ToInt64, ValuesOver;
    ValuesOne(v, f);
  }

  lemma {:induction false} ReadFields(v: Values, base: nat, fs: seq<Field>)
    requires AllWellFormed(fs) && Numbered(fs) && base + |BytesOfAll(fs)| <= MAX_INT
    ensures DecodeFrom(ToChain(v), base, BytesOfAll(fs))
         == if AllChainTyped(fs) then Ok(ToChain(ValuesOver(v, fs))) else Err(WrongWireType)
    decreases |fs|
  {
    hide FieldNumber, NextRaw, Apply, ToChain, ValuesOver, WellFormed, Bytes, ChainTyped, Fits, KindOf;
    if fs == [] {
      NothingRead(v);
    } else {
      var f, rest := fs[0], BytesOfAll(fs[1..]);
      assert FieldNumber(f) > 0;
      assert forall i :: 0 <= i < |fs[1..]| ==> fs[1..][i] == fs[i + 1];
      if ChainTyped(f) {
        NextField(v, base, f, rest);
        ValuesFirst(v, fs);
        var bs := Bytes(f) + rest;
        assert bs[|Bytes(f)|..] == rest;
        ReadFields(ValuesOver(v, [f]), base + |Bytes(f)|, fs[1..]);
        assert AllChainTyped(fs) <==> AllChainTyped(fs[1..]) by { TypedFirst(fs); }
      } else {
        Untyped(f);
        NextMisfit(ConsumerChainSchema, base, f, rest);
      }
    }
  }

  lemma NothingRead(v: Values)
    ensures ToChain(ValuesOver(v, [])) == ToChain(v)
  {
  }

  lemma TypedFirst(fs: seq<Field>)
    requires fs != [] && ChainTyped(fs[0])
    ensures AllChainTyped(fs) <==> AllChainTyped(fs[1..])
  {
    hide ChainTyped;
    if AllChainTyped(fs[1..]) {
      forall i | 0 <= i < |fs| ensures ChainTyped(fs[i]) {
        assert i > 0 ==> fs[i] == fs[1..][i - 1];
      }
    }
  }

  lemma Untyped(f: Field)
    requires !ChainTyped(f)
    ensures !Fits(ConsumerChainSchema, f)
  {
  }

  lemma NextField(v: Values, base: nat, f: Field, rest: seq<byte>)
    requires WellFormed(f) && FieldNumber(f) > 0 && ChainTyped(f) && base + |Bytes(f) + rest| <= MAX_INT
    ensures Bytes(f) != []
    ensures var next := NextRaw(ConsumerChainSchema, base, Bytes(f) + rest);
      next.Ok? && next.value.1 == |Bytes(f)| && Apply(ToChain(v), next.value.0) == ToChain(ValuesOver(v, [f]))
  {
    hide FieldNumber, NextRaw, ToChain, ValuesOver, WellFormed, Bytes, ChainTyped;
    ApplyField(v, f);
    match KindOf(ConsumerChainSchema, FieldNumber(f))
    case LengthDelimited => NextLength(ConsumerChainSchema, base, f, rest);
    case VarintValue => NextVarint(ConsumerChainSchema, base, f, rest);
    case Unknown => NextSkipped(ConsumerChainSchema, base, f, rest);
  }

  // What the members are for a list of fields, by number.
  ghost predicate Means(fs: seq<Field>, c: ConsumerChain)
  {
    && LastStr(fs, 1, c.chainId) && LastStr(fs, 2, c.name) && LastStr(fs, 3, c.version)
    && (exists u: uint64 :: LastInt(fs, 4, u) && c.status == ToInt32(u))
    && (exists u: uint64 :: LastInt(fs, 5, u) && c.addedAt == ToInt64(u))
    && (exists u: uint64 :: LastInt(fs, 6, u) && c.sunsetAt == ToInt64(u))
    && LastStr(fs, 7, c.moduleAccountAddress)
  }

  /** Reading, for any list of well-formed fields in any order, with repetitions and unknown numbers: it is
      accepted iff the known ones have the type of their number; and then chain_id is the last field 1,
      name the last field 2, version 3, status 4, added_at 5, sunset_at 6, module_account_address 7, each
      empty or zero if its number does not occur. */
  lemma ChainRead(fs: seq<Field>)
    requires AllWellFormed(fs) && Numbered(fs) && |BytesOfAll(fs)| <= MAX_INT
    ensures Decode(BytesOfAll(fs)).Ok? <==> AllChainTyped(fs)
    ensures AllChainTyped(fs) ==> Means(fs, Decode(BytesOfAll(fs)).value)
    ensures !AllChainTyped(fs) ==> Decode(BytesOfAll(fs)) == Err(WrongWireType)
  {
    hide FieldNumber, DecodeFrom, ValuesOver, LastStr, LastInt, ToInt32, ToInt64;
    assert ToChain(BLANK) == ZERO by { BlankIsZero(); }
    ReadFields(BLANK, 0, fs);
    if AllChainTyped(fs) {
      MembersAreLast(fs);
    }
  }

  lemma BlankIsZero()
    ensures ToChain(BLANK) == ZERO
  {
  }

  lemma MembersAreLast(fs: seq<Field>)
    requires AllChainTyped(fs)
    ensures var v := ValuesOver(BLANK, fs);
      && LastStr(fs, 1, v.chainId) && LastStr(fs, 2, v.name) && LastStr(fs, 3, v.version)
      && LastInt(fs, 4, v.status) && LastInt(fs, 5, v.addedAt) && LastInt(fs, 6, v.sunsetAt)
      && LastStr(fs, 7, v.address)
  {
    hide FieldNumber, StrOver, IntOver, LastStr, LastInt;
    assert forall i :: 0 <= i < |fs| ==> ChainTyped(fs[i]);
    StrIsLast(fs, 1);
    StrIsLast(fs, 2);
    StrIsLast(fs, 3);
    IntIsLast(fs, 4);
    IntIsLast(fs, 5);
    IntIsLast(fs, 6);
    StrIsLast(fs, 7);
  }

  /******* Writing a ConsumerChain *******/

  function StrPart(num: int32, s: Str): seq<Field>
    requires 0 < num < 16
  {
    if s == [] then [] else [LengthField([8 * num + 2], Encode(|s|), s)]
  }

  function IntPart(num: int32, x: int64): seq<Field>
    requires 0 < num < 16
  {
    if x == 0 then [] else [VarintField([8 * num], Encode(ToUint64(x)))]
  }

  // A string that is not empty or a number that is not zero.
  predicate NotZero(f: Field)
  {
    match f
    case LengthField(_, _, body) => body != []
    case VarintField(_, _) => ValueOf(f) != 0
    case _ => false
  }

  // Fields in order of their numbers, all below a bound, none twice, none zero.
  ghost predicate Orderly(fs: seq<Field>, bound: int32)
  {
    && AllWellFormed(fs)
    && (forall i :: 0 <= i < |fs| ==> 0 < FieldNumber(fs[i]) < bound && NotZero(fs[i]))
    && (forall i, j :: 0 <= i < j < |fs| ==> FieldNumber(fs[i]) < FieldNumber(fs[j]))
  }

  lemma SmallTag(num: int32, wireType: nat)
    requires 0 < num < 16 && wireType < 8
    ensures var tag := [8 * num + wireType]; IsTag(tag, wireType) && ToInt32(Wrap(Number(tag), W64) / 8) == num
  {
    var tag := [8 * num + wireType];
    assert tag[1..] == [];
    assert Number(tag) == 8 * num + wireType;
    assert Continuations(tag) == 0;
  }

  lemma StrPartWire(num: int32, s: Str)
    requires 0 < num < 16 && |s| <= MAX_INT
    ensures BytesOfAll(StrPart(num, s)) == StrField(8 * num + 2, s)
    ensures Orderly(StrPart(num, s), num + 1) && |StrPart(num, s)| <= 1
    ensures forall i :: 0 <= i < |StrPart(num, s)| ==> FieldNumber(StrPart(num, s)[i]) == num
  {
    hide Encode, Number, IsTag, IsVarint;
    if s != [] {
      var f := LengthField([8 * num + 2], Encode(|s|), s);
      OneField(f);
      SmallTag(num, 2);
      EncodeIsVarint(|s|);
      ReadEncode(|s|, []);
      assert [8 * num + 2] + Encode(|s|) + s == [8 * num + 2] + (Encode(|s|) + s);
    }
  }

  lemma IntPartWire(num: int32, x: int64)
    requires 0 < num < 16
    ensures BytesOfAll(IntPart(num, x)) == IntField(8 * num, x)
    ensures Orderly(IntPart(num, x), num + 1) && |IntPart(num, x)| <= 1
    ensures forall i :: 0 <= i < |IntPart(num, x)| ==> FieldNumber(IntPart(num, x)[i]) == num
  {
    hide Encode, Number, IsTag, IsVarint;
    if x != 0 {
      var f := VarintField([8 * num], Encode(ToUint64(x)));
      OneField(f);
      SmallTag(num, 0);
      EncodeIsVarint(ToUint64(x));
      ReadEncode(ToUint64(x), []);
    }
  }

  lemma OrderlyConcat(a: seq<Field>, b: seq<Field>, num: int32)
    requires 0 < num < 16 && Orderly(a, num) && Orderly(b, num + 1) && |b| <= 1
    requires forall i :: 0 <= i < |b| ==> FieldNumber(b[i]) == num
    ensures Orderly(a + b, num + 1) && BytesOfAll(a + b) == BytesOfAll(a) + BytesOfAll(b)
  {
    hide FieldNumber, NotZero, BytesOfAll, AllWellFormed;
    BytesConcat(a, b);
  }

  lemma Regroup(a: Str, b: Str, c: Str, d: Str, e: Str, f: Str, g: Str)
    ensures a + b + c + d + e + f + g == a + (b + (c + (d + (e + (f + g)))))
  {
  }

  lemma PartsFit(m: ConsumerChain)
    requires |EncodeChain(m)| <= MAX_INT
    ensures |m.chainId| <= MAX_INT && |m.name| <= MAX_INT && |m.version| <= MAX_INT && |m.moduleAccountAddress| <= MAX_INT
  {
    hide Encode;
    SizeIsEncodedLength(m);
  }

  function ChainParts(m: ConsumerChain): seq<Field>
  {
    StrPart(1, m.chainId) + StrPart(2, m.name) + StrPart(3, m.version) + IntPart(4, m.status) + IntPart(5, m.addedAt)
    + IntPart(6, m.sunsetAt) + StrPart(7, m.moduleAccountAddress)
  }

  lemma WireForm(m: ConsumerChain)
    requires |EncodeChain(m)| <= MAX_INT
    ensures EncodeChain(m) == BytesOfAll(ChainParts(m)) && Orderly(ChainParts(m), 8)
  {
    hide StrPart, IntPart, StrField, IntField, Orderly, BytesOfAll;
    PartsFit(m);
    var p1, p2, p3, p4, p5, p6, p7 := StrPart(1, m.chainId), StrPart(2, m.name), StrPart(3, m.version), IntPart(4, m.status),
                                      IntPart(5, m.addedAt), IntPart(6, m.sunsetAt), StrPart(7, m.moduleAccountAddress);
    StrPartWire(1, m.chainId);
    StrPartWire(2, m.name);
    StrPartWire(3, m.version);
    IntPartWire(4, m.status);
    IntPartWire(5, m.addedAt);
    IntPartWire(6, m.sunsetAt);
    StrPartWire(7, m.moduleAccountAddress);
    OrderlyConcat(p1, p2, 2);
    OrderlyConcat(p1 + p2, p3, 3);
    OrderlyConcat(p1 + p2 + p3, p4, 4);
    OrderlyConcat(p1 + p2 + p3 + p4, p5, 5);
    OrderlyConcat(p1 + p2 + p3 + p4 + p5, p6, 6);
    OrderlyConcat(p1 + p2 + p3 + p4 + p5 + p6, p7, 7);
    ConcatSeven(Fields(m));
    Regroup(StrField(0x0a, m.chainId), StrField(0x12, m.name), StrField(0x1a, m.version), IntField(0x20, m.status),
            IntField(0x28, m.addedAt), IntField(0x30, m.sunsetAt), StrField(0x3a, m.moduleAccountAddress));
  }

  lemma {:induction false} IntOverConcat(was: uint64, a: seq<Field>, b: seq<Field>, num: int32)
    ensures IntOver(was, a + b, num) == IntOver(IntOver(was, a, num), b, num)
    decreases |a|
  {
    hide FieldNumber, ValueOf;
    if a == [] {
      assert a + b == b;
    } else {
      assert (a + b)[0] == a[0] && (a + b)[1..] == a[1..] + b;
      IntOverConcat(if FieldNumber(a[0]) == num && a[0].VarintField? then ValueOf(a[0]) else was, a[1..], b, num);
    }
  }

  lemma StrPartOver(was: uint64, at: int32, s: Str, num: int32)
    requires 0 < at < 16 && |s| <= MAX_INT
    ensures IntOver(was, StrPart(at, s), num) == was
  {
    hide FieldNumber, ValueOf, IntOver;
    if s != [] {
      OverOne([], was, StrPart(at, s)[0], num);
    } else {
      IntOverNone(was, StrPart(at, s), num);
    }
  }

  lemma IntPartOver(was: uint64, at: int32, x: int64, num: int32)
    requires 0 < at < 16
    ensures IntOver(was, IntPart(at, x), num) == if at == num && x != 0 then ToUint64(x) else was
  {
    hide FieldNumber, IntOver, Number, Encode, IsTag;
    IntPartWire(at, x);
    if x != 0 {
      OverOne([], was, IntPart(at, x)[0], num);
      EncodeIsVarint(ToUint64(x));
    } else {
      IntOverNone(was, IntPart(at, x), num);
    }
  }

  // The value the parts of a chain leave under a number.
  lemma PartsOver(m: ConsumerChain, num: int32)
    requires |EncodeChain(m)| <= MAX_INT && (num == 4 || num == 5 || num == 6)
    ensures IntOver(0, ChainParts(m), num) == ToUint64(if num == 4 then m.status else if num == 5 then m.addedAt else m.sunsetAt)
  {
    hide StrPart, IntPart, IntOver, EncodeChain;
    PartsFit(m);
    var p1, p2, p3, p4, p5, p6, p7 := StrPart(1, m.chainId), StrPart(2, m.name), StrPart(3, m.version), IntPart(4, m.status),
                                      IntPart(5, m.addedAt), IntPart(6, m.sunsetAt), StrPart(7, m.moduleAccountAddress);
    IntOverConcat(0, p1 + p2 + p3 + p4 + p5 + p6, p7, num);
    IntOverConcat(0, p1 + p2 + p3 + p4 + p5, p6, num);
    IntOverConcat(0, p1 + p2 + p3 + p4, p5, num);
    IntOverConcat(0, p1 + p2 + p3, p4, num);
    IntOverConcat(0, p1 + p2, p3, num);
    IntOverConcat(0, p1, p2, num);
    StrPartOver(0, 1, m.chainId, num);
    StrPartOver(0, 2, m.name, num);
    StrPartOver(0, 3, m.version, num);
    IntPartOver(0, 4, m.status, num);
    var u4 := IntOver(0, p4, num);
    IntPartOver(u4, 5, m.addedAt, num);
    var u5 := IntOver(u4, p5, num);
    IntPartOver(u5, 6, m.sunsetAt, num);
    StrPartOver(IntOver(u5, p6, num), 7, m.moduleAccountAddress, num);
  }

  // 64 bits in two's complement.
  function Wide(x: int64): uint64
  {
    if x < 0 then x + 18446744073709551616 else x
  }

  /** Writing: the encoding of a chain is a list of well-formed fields in the order of their numbers, none
      twice and none zero, in which chain_id is field 1, name 2, version 3, status 4, added_at 5,
      sunset_at 6 and module_account_address 7, each absent iff it is empty or zero; a negative number,
      the 32-bit status included, is written as 64 bits. */
  lemma ChainWritten(m: ConsumerChain) returns (fs: seq<Field>)
    requires |EncodeChain(m)| <= MAX_INT
    ensures EncodeChain(m) == BytesOfAll(fs) && Orderly(fs, 8) && AllChainTyped(fs) && Means(fs, m)
    ensures LastInt(fs, 4, Wide(m.status)) && LastInt(fs, 5, Wide(m.addedAt)) && LastInt(fs, 6, Wide(m.sunsetAt))
  {
    hide EncodeChain, Decode, Means, ChainTyped, BytesOfAll, ChainParts, IntOver, LastInt;
    fs := ChainParts(m);
    WireForm(m);
    ChainRoundTrip(m);
    ChainRead(fs);
    NumbersAreLast(m, fs);
  }

  lemma NumbersAreLast(m: ConsumerChain, fs: seq<Field>)
    requires |EncodeChain(m)| <= MAX_INT && fs == ChainParts(m) && AllChainTyped(fs)
    ensures LastInt(fs, 4, Wide(m.status)) && LastInt(fs, 5, Wide(m.addedAt)) && LastInt(fs, 6, Wide(m.sunsetAt))
  {
    hide EncodeChain, ChainParts, IntOver, LastInt, FieldNumber;
    PartsOver(m, 4);
    PartsOver(m, 5);
    PartsOver(m, 6);
    assert forall i :: 0 <= i < |fs| ==> ChainTyped(fs[i]);
    IntIsLast(fs, 4);
    IntIsLast(fs, 5);
    IntIsLast(fs, 6);
  }

  /******* The response *******/

  // consumer_chains 1 and pagination 2 are messages.
  predicate ResponseTyped(f: Field)
  {
    var n := FieldNumber(f);
    n == 1 || n == 2 ==> f.LengthField?
  }

  // The contents of the length-delimited fields with the number, in order.
  function Bodies(fs: seq<Field>, num: int32): (bodies: seq<Str>)
    ensures forall i :: 0 <= i < |bodies| ==> |bodies[i]| <= |BytesOfAll(fs)|
    decreases |fs|
  {
    if fs == [] then []
    else (if FieldNumber(fs[0]) == num && fs[0].LengthField? then [fs[0].body] else []) + Bodies(fs[1..], num)
  }

  function Flat(parts: seq<Str>): Str
  {
    if parts == [] then [] else parts[0] + Flat(parts[1..])
  }

  // The bodies decode to these chains, one by one.
  ghost predicate ChainsAre(bodies: seq<Str>, cs: seq<ConsumerChain>)
    requires forall i :: 0 <= i < |bodies| ==> |bodies[i]| <= MAX_INT
  {
    |cs| == |bodies| && forall i :: 0 <= i < |bodies| ==> Decode(bodies[i]) == Ok(cs[i])
  }

  ghost predicate AllResponseTyped(fs: seq<Field>)
  {
    forall i :: 0 <= i < |fs| ==> ResponseTyped(fs[i])
  }

  // The page record after more records of it.
  function PageOver(page: Option<Str>, bodies: seq<Str>): Option<Str>
  {
    if bodies == [] then page else Some((if page.None? then [] else page.value) + Flat(bodies))
  }

  lemma PageFirst(page: Option<Str>, body: Str, bodies: seq<Str>)
    ensures PageOver(page, [body] + bodies) == PageOver(Some((if page.None? then [] else page.value) + body), bodies)
  {
    var all, start := [body] + bodies, if page.None? then [] else page.value;
    assert all[0] == body && all[1..] == bodies;
    assert start + (body + Flat(bodies)) == start + body + Flat(bodies);
    assert bodies == [] ==> Flat(bodies) == [] && start + body + [] == start + body;
  }

  ghost predicate AllRead(chains: seq<Str>)
    requires forall i :: 0 <= i < |chains| ==> |chains[i]| <= MAX_INT
  {
    forall i :: 0 <= i < |chains| ==> Decode(chains[i]).Ok?
  }

  ghost predicate AllTaken(accepts: Q.PageCodec, pages: seq<Str>)
  {
    forall i :: 0 <= i < |pages| ==> accepts(pages[i])
  }

  // Which lists are accepted: types as they should be, every chain decodes, every page record is taken.
  ghost predicate Acceptable(accepts: Q.PageCodec, fs: seq<Field>)
    requires |BytesOfAll(fs)| <= MAX_INT
  {
    AllResponseTyped(fs) && AllRead(Bodies(fs, 1)) && AllTaken(accepts, Bodies(fs, 2))
  }

  lemma FirstBody(fs: seq<Field>, num: int32)
    requires fs != []
    ensures Bodies(fs, num) == (if FieldNumber(fs[0]) == num && fs[0].LengthField? then [fs[0].body] else []) + Bodies(fs[1..], num)
    ensures |BytesOfAll(fs)| == |Bytes(fs[0])| + |BytesOfAll(fs[1..])|
  {
  }

  lemma AcceptableFirst(accepts: Q.PageCodec, fs: seq<Field>)
    requires fs != [] && |BytesOfAll(fs)| <= MAX_INT
    ensures |BytesOfAll(fs[1..])| <= MAX_INT
    ensures var f := fs[0];
      Acceptable(accepts, fs) <==>
        && ResponseTyped(f)
        && (FieldNumber(f) == 1 && f.LengthField? ==> |f.body| <= MAX_INT && Decode(f.body).Ok?)
        && (FieldNumber(f) == 2 && f.LengthField? ==> accepts(f.body))
        && Acceptable(accepts, fs[1..])
  {
    hide FieldNumber, Decode, Bytes, Bodies, ResponseTyped, AllResponseTyped, AllRead, AllTaken;
    var f, rest := fs[0], fs[1..];
    FirstBody(fs, 1);
    FirstBody(fs, 2);
    ResponseTypedFirst(fs);
    if FieldNumber(f) == 1 && f.LengthField? {
      assert Bodies(fs, 1)[0] == f.body;
      ReadFirst(f.body, Bodies(rest, 1));
    } else {
      Nothing(Bodies(rest, 1));
    }
    if FieldNumber(f) == 2 && f.LengthField? {
      TakenFirst(accepts, f.body, Bodies(rest, 2));
    } else {
      Nothing(Bodies(rest, 2));
    }
  }

  lemma Nothing<T>(rest: seq<T>)
    ensures [] + rest == rest
  {
  }

  lemma ReadFirst(body: Str, rest: seq<Str>)
    requires |body| <= MAX_INT && forall i :: 0 <= i < |rest| ==> |rest[i]| <= MAX_INT
    ensures AllRead([body] + rest) <==> Decode(body).Ok? && AllRead(rest)
  {
    hide Decode;
    var all := [body] + rest;
    assert all[0] == body && forall i :: 0 <= i < |rest| ==> all[i + 1] == rest[i];
  }

  lemma TakenFirst(accepts: Q.PageCodec, body: Str, rest: seq<Str>)
    ensures AllTaken(accepts, [body] + rest) <==> accepts(body) && AllTaken(accepts, rest)
  {
    var all := [body] + rest;
    assert all[0] == body && forall i :: 0 <= i < |rest| ==> all[i + 1] == rest[i];
  }

  lemma ResponseTypedFirst(fs: seq<Field>)
    requires fs != []
    ensures AllResponseTyped(fs) <==> ResponseTyped(fs[0]) && AllResponseTyped(fs[1..])
  {
    hide ResponseTyped;
    if ResponseTyped(fs[0]) && AllResponseTyped(fs[1..]) {
      forall i | 0 <= i < |fs| ensures ResponseTyped(fs[i]) {
        assert i > 0 ==> fs[i] == fs[1..][i - 1];
      }
    }
    if AllResponseTyped(fs) {
      assert forall i :: 0 <= i < |fs[1..]| ==> fs[1..][i] == fs[i + 1];
    }
  }

  // The first field read: a chain, a piece of the page record, or an unknown field that is passed over.
  function Taken(m: Q.ActiveChains, f: Field): Q.ActiveChains
    requires f.LengthField? && FieldNumber(f) == 1 ==> |f.body| <= MAX_INT && Decode(f.body).Ok?
  {
    if f.LengthField? && FieldNumber(f) == 1 then m.(consumerChains := m.consumerChains + [Decode(f.body).value])
    else if f.LengthField? && FieldNumber(f) == 2 then
      m.(pagination := Some((if m.pagination.None? then [] else m.pagination.value) + f.body))
    else m
  }

  // Whether the field, on its own, is accepted.
  predicate Takes(accepts: Q.PageCodec, f: Field)
    requires f.LengthField? ==> |f.body| <= MAX_INT
  {
    && ResponseTyped(f)
    && (FieldNumber(f) == 1 && f.LengthField? ==> Decode(f.body).Ok?)
    && (FieldNumber(f) == 2 && f.LengthField? ==> accepts(f.body))
  }

  lemma ResponseField(accepts: Q.PageCodec, m: Q.ActiveChains, base: nat, f: Field, rest: seq<byte>)
    requires WellFormed(f) && FieldNumber(f) > 0 && base + |Bytes(f) + rest| <= MAX_INT
    ensures Bytes(f) != [] && (f.LengthField? ==> |f.body| <= MAX_INT)
    ensures var next := NextRaw(ActiveChainsSchema, base, Bytes(f) + rest);
      if Takes(accepts, f) then
        next.Ok? && next.value.1 == |Bytes(f)| && Q.Apply(accepts, m, next.value.0) == Ok(Taken(m, f))
      else
        next.Err? || Q.Apply(accepts, m, next.value.0).Err?
  {
    hide FieldNumber, NextRaw, WellFormed, Decode;
    TagNotEmpty(f);
    if KindOf(ActiveChainsSchema, FieldNumber(f)) == Unknown {
      NextSkipped(ActiveChainsSchema, base, f, rest);
    } else if f.LengthField? {
      NextLength(ActiveChainsSchema, base, f, rest);
    } else {
      NextMisfit(ActiveChainsSchema, base, f, rest);
    }
  }

  // What a list of fields is read as, over a message already read.
  ghost predicate ReadsAs(accepts: Q.PageCodec, m: Q.ActiveChains, fs: seq<Field>, r: Result<Q.ActiveChains, DecodeError>)
    requires |BytesOfAll(fs)| <= MAX_INT
  {
    && (r.Ok? <==> Acceptable(accepts, fs))
    && (r.Ok? ==>
          && m.consumerChains <= r.value.consumerChains
          && ChainsAre(Bodies(fs, 1), r.value.consumerChains[|m.consumerChains|..])
          && r.value.pagination == PageOver(m.pagination, Bodies(fs, 2)))
  }

  lemma ReadsFirst(accepts: Q.PageCodec, m: Q.ActiveChains, fs: seq<Field>, r: Result<Q.ActiveChains, DecodeError>)
    requires fs != [] && |BytesOfAll(fs)| <= MAX_INT && (fs[0].LengthField? ==> |fs[0].body| <= MAX_INT)
    ensures |BytesOfAll(fs[1..])| <= MAX_INT
    ensures !Takes(accepts, fs[0]) && r.Err? ==> ReadsAs(accepts, m, fs, r)
    ensures Takes(accepts, fs[0]) && ReadsAs(accepts, Taken(m, fs[0]), fs[1..], r) ==> ReadsAs(accepts, m, fs, r)
  {
    hide FieldNumber, Decode, Bytes, Bodies, ResponseTyped, Acceptable, PageOver, ChainsAre;
    var f, rest := fs[0], fs[1..];
    AcceptableFirst(accepts, fs);
    if Takes(accepts, f) && ReadsAs(accepts, Taken(m, f), rest, r) && r.Ok? {
      MoreChains(m, f, fs, r.value.consumerChains);
      MorePage(m, f, fs);
      assert Acceptable(accepts, fs);
    }
  }

  lemma {:induction false} MoreChains(m: Q.ActiveChains, f: Field, fs: seq<Field>, cs: seq<ConsumerChain>)
    requires fs != [] && f == fs[0] && |BytesOfAll(fs)| <= MAX_INT && |BytesOfAll(fs[1..])| <= MAX_INT
    requires f.LengthField? && FieldNumber(f) == 1 ==> |f.body| <= MAX_INT && Decode(f.body).Ok?
    requires Taken(m, f).consumerChains <= cs && ChainsAre(Bodies(fs[1..], 1), cs[|Taken(m, f).consumerChains|..])
    ensures m.consumerChains <= cs && ChainsAre(Bodies(fs, 1), cs[|m.consumerChains|..])
  {
    hide FieldNumber, Decode, Bytes, Bodies, ChainsAre;
    FirstBody(fs, 1);
    var rest, n := Bodies(fs[1..], 1), |m.consumerChains|;
    if f.LengthField? && FieldNumber(f) == 1 {
      var c := Decode(f.body).value;
      ChainsFirst(f.body, c, rest, cs[n + 1..]);
      assert cs[n] == c;
      assert cs[n..] == [c] + cs[n + 1..];
    } else {
      Nothing(rest);
    }
  }

  lemma ChainsFirst(body: Str, c: ConsumerChain, rest: seq<Str>, cs: seq<ConsumerChain>)
    requires |body| <= MAX_INT && forall i :: 0 <= i < |rest| ==> |rest[i]| <= MAX_INT
    requires Decode(body) == Ok(c) && ChainsAre(rest, cs)
    ensures ChainsAre([body] + rest, [c] + cs)
  {
    hide Decode;
  }

  lemma {:induction false} MorePage(m: Q.ActiveChains, f: Field, fs: seq<Field>)
    requires fs != [] && f == fs[0]
    requires f.LengthField? && FieldNumber(f) == 1 ==> |f.body| <= MAX_INT && Decode(f.body).Ok?
    ensures PageOver(Taken(m, f).pagination, Bodies(fs[1..], 2)) == PageOver(m.pagination, Bodies(fs, 2))
  {
    hide FieldNumber, Decode, Bytes, Bodies, PageOver;
    FirstBody(fs, 2);
    if f.LengthField? && FieldNumber(f) == 2 {
      PageFirst(m.pagination, f.body, Bodies(fs[1..], 2));
    } else {
      assert Bodies(fs, 2) == Bodies(fs[1..], 2);
    }
  }

  lemma {:induction false} ReadResponse(accepts: Q.PageCodec, m: Q.ActiveChains, base: nat, fs: seq<Field>)
    requires AllWellFormed(fs) && Numbered(fs) && base + |BytesOfAll(fs)| <= MAX_INT
    ensures ReadsAs(accepts, m, fs, Q.DecodeResponseFrom(accepts, m, base, BytesOfAll(fs)))
    decreases |fs|
  {
    hide FieldNumber, NextRaw, Q.Apply, Taken, WellFormed, Bytes, ReadsAs, Decode, ResponseTyped;
    if fs == [] {
      NothingTaken(accepts, m);
    } else {
      var f, rest := fs[0], BytesOfAll(fs[1..]);
      var bs := Bytes(f) + rest;
      assert FieldNumber(f) > 0;
      assert forall i :: 0 <= i < |fs[1..]| ==> fs[1..][i] == fs[i + 1];
      ResponseField(accepts, m, base, f, rest);
      assert bs[|Bytes(f)|..] == rest;
      ReadsFirst(accepts, m, fs, Q.DecodeResponseFrom(accepts, m, base, bs));
      if Takes(accepts, f) {
        ReadResponse(accepts, Taken(m, f), base + |Bytes(f)|, fs[1..]);
      }
    }
  }

  lemma NothingTaken(accepts: Q.PageCodec, m: Q.ActiveChains)
    ensures BytesOfAll([]) == [] && ReadsAs(accepts, m, [], Ok(m))
  {
    assert m.consumerChains + [] == m.consumerChains;
  }

  /** Reading a response, for any list of well-formed fields in any order: it is accepted iff fields 1 and 2
      are length-delimited, every field 1 decodes as a chain and every field 2 is taken by the page codec;
      and then the chains are the fields 1 in order, and the page is the fields 2 joined, if there is one. */
  lemma ResponseRead(accepts: Q.PageCodec, fs: seq<Field>)
    requires AllWellFormed(fs) && Numbered(fs) && |BytesOfAll(fs)| <= MAX_INT
    ensures var r, chains, pages := Q.DecodeResponse(accepts, BytesOfAll(fs)), Bodies(fs, 1), Bodies(fs, 2);
      && (r.Ok? <==> AllResponseTyped(fs) && AllRead(chains) && AllTaken(accepts, pages))
      && (r.Ok? ==> && ChainsAre(chains, r.value.consumerChains)
                    && r.value.pagination == if pages == [] then None else Some(Flat(pages)))
  {
    hide FieldNumber, Decode, Q.DecodeResponseFrom, AllResponseTyped, AllRead, AllTaken, ChainsAre, Bodies, BytesOfAll;
    ReadResponse(accepts, Q.EMPTY, 0, fs);
    Nothing(Flat(Bodies(fs, 2)));
  }

  /******* Writing a response *******/

  function NestedField(num: int32, payload: Str): Field
    requires 0 < num < 16
  {
    LengthField([8 * num + 2], Encode(|payload|), payload)
  }

  lemma NestedWire(num: int32, payload: Str)
    requires 0 < num < 16 && |payload| <= MAX_INT
    ensures var f := NestedField(num, payload);
      Bytes(f) == Q.Nested(8 * num + 2, payload) && WellFormed(f) && FieldNumber(f) == num
  {
    hide Encode, Number, IsTag, IsVarint;
    SmallTag(num, 2);
    EncodeIsVarint(|payload|);
    ReadEncode(|payload|, []);
    assert [8 * num + 2] + Encode(|payload|) + payload == [8 * num + 2] + (Encode(|payload|) + payload);
  }

  function ChainFields(cs: seq<ConsumerChain>): (fs: seq<Field>)
  {
    if cs == [] then [] else [NestedField(1, EncodeChain(cs[0]))] + ChainFields(cs[1..])
  }

  function PageFields(page: Option<Str>): seq<Field>
  {
    match page
    case None => []
    case Some(raw) => [NestedField(2, raw)]
  }

  // The fields say what the response holds: one field 1 a chain, in order, then the page, if any.
  ghost predicate Holds(fs: seq<Field>, cs: seq<ConsumerChain>, page: Option<Str>)
  {
    && AllWellFormed(fs) && |fs| == |cs| + (if page.Some? then 1 else 0)
    && (forall i :: 0 <= i < |fs| ==> fs[i].LengthField? && FieldNumber(fs[i]) == if i < |cs| then 1 else 2)
    && (forall i :: 0 <= i < |cs| ==> fs[i].LengthField? && fs[i].body == EncodeChain(cs[i]))
    && (page.Some? ==> fs[|cs|].LengthField? && fs[|cs|].body == page.value)
  }

  lemma PageWire(page: Option<Str>)
    requires page.Some? ==> |page.value| <= MAX_INT
    ensures Holds(PageFields(page), [], page) && BytesOfAll(PageFields(page)) == Q.EncodePage(page)
  {
    hide FieldNumber, WellFormed, Bytes, Q.Nested, NestedField;
    if page.Some? {
      NestedWire(2, page.value);
      OneField(NestedField(2, page.value));
      NestedIs(2, page.value);
    }
  }

  lemma NestedIs(num: int32, payload: Str)
    requires 0 < num < 16
    ensures NestedField(num, payload).LengthField? && NestedField(num, payload).body == payload
  {
  }

  lemma {:induction false} ChainsWire(cs: seq<ConsumerChain>, page: Option<Str>)
    requires |Q.EncodeChains(cs)| + |Q.EncodePage(page)| <= MAX_INT
    ensures Holds(ChainFields(cs) + PageFields(page), cs, page)
    ensures BytesOfAll(ChainFields(cs) + PageFields(page)) == Q.EncodeChains(cs) + Q.EncodePage(page)
    decreases |cs|
  {
    hide FieldNumber, WellFormed, Bytes, Q.Nested, EncodeChain, NestedField, PageFields, Holds, BytesOfAll, AllWellFormed;
    var tail := PageFields(page);
    if cs == [] {
      PageFits(page);
      PageWire(page);
      assert ChainFields(cs) + tail == tail;
    } else {
      var f, rest := NestedField(1, EncodeChain(cs[0])), ChainFields(cs[1..]) + tail;
      ChainsWire(cs[1..], page);
      NestedWire(1, EncodeChain(cs[0]));
      NestedIs(1, EncodeChain(cs[0]));
      var fs := ChainFields(cs) + tail;
      assert fs == [f] + rest;
      Pushed(f, rest, cs, page, fs);
      BytesConcat([f], rest);
      OneField(f);
      Q.Regroup(Q.Nested(0x0a, EncodeChain(cs[0])), Q.EncodeChains(cs[1..]), Q.EncodePage(page));
    }
  }

  lemma PageFits(page: Option<Str>)
    requires |Q.EncodePage(page)| <= MAX_INT
    ensures page.Some? ==> |page.value| <= MAX_INT
  {
  }

  lemma Pushed(f: Field, rest: seq<Field>, cs: seq<ConsumerChain>, page: Option<Str>, fs: seq<Field>)
    requires cs != [] && Holds(rest, cs[1..], page) && fs == [f] + rest
    requires f.LengthField? && f.body == EncodeChain(cs[0]) && WellFormed(f) && FieldNumber(f) == 1
    ensures Holds(fs, cs, page)
  {
    hide FieldNumber, WellFormed, EncodeChain;
    assert fs[1..] == rest;
    forall i | 0 < i < |fs| ensures fs[i] == rest[i - 1] && (i < |cs| ==> cs[i] == cs[1..][i - 1]) {
    }
  }

  /** Writing a response: a list of well-formed fields, first one length-delimited field 1 for each chain, in
      order, holding the encoding of that chain, then one field 2 with the page, if there is a page. */
  lemma ResponseWritten(m: Q.ActiveChains) returns (fs: seq<Field>)
    requires |Q.EncodeResponse(m)| <= MAX_INT
    ensures Q.EncodeResponse(m) == BytesOfAll(fs) && Holds(fs, m.consumerChains, m.pagination)
  {
    fs := ChainFields(m.consumerChains) + PageFields(m.pagination);
    ChainsWire(m.consumerChains, m.pagination);
  }
}
