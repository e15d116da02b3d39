/**
 Which inputs the decoders accept: exactly the lists of well-formed fields of the right types. Format says what
 such a list is read as; here every accepted input is parsed into one.
 */
module Grammar {
  import opened GoTypes
  import opened Varint
  import opened Wire
  import opened ChainCodec
  import opened Format
  import Q = QueryCodec

  /******* What a skip passed over *******/

  // A number that was read is a varint of the grammar.
  lemma ReadVarint(bs: seq<byte>)
    requires Read(bs).Ok?
    ensures var (v, n) := Read(bs).value;
      n <= |bs| && IsVarint(bs[..n]) && Wrap(Number(bs[..n]), W64) == v
  {
    hide Number, Wrap;
    var n := Continuations(bs);
    ContinuationsUnique(bs[..n + 1], n);
  }

  // A field other than a group, from its tag to the index behind its body.
  lemma PlainField(bs: seq<byte>, i: nat, at: nat, wireType: nat, depth: nat) returns (f: Field)
    requires i < at <= |bs| <= MAX_INT && IsTag(bs[i..at], wireType) && wireType != 3 && wireType != 4
    requires SkipBody(bs, at, wireType, depth).Ok? && 0 <= SkipBody(bs, at, wireType, depth).value.0 <= |bs|
    ensures var (next, d) := SkipBody(bs, at, wireType, depth).value;
      d == depth && at <= next && WellFormed(f) && f.tag == bs[i..at] && Bytes(f) == bs[i..next]
  {
    hide Read, IsTag;
    match wireType
    case 0 => f := PlainVarint(bs, i, at);
    case 1 => f := Fixed64Field(bs[i..at], bs[at..at + 8]);
    case 2 => f := PlainLength(bs, i, at);
    case _ => f := Fixed32Field(bs[i..at], bs[at..at + 4]);
  }

  lemma PlainVarint(bs: seq<byte>, i: nat, at: nat) returns (f: Field)
    requires i < at <= |bs| <= MAX_INT && Read(bs[at..]).Ok? && IsTag(bs[i..at], 0)
    ensures var k := Read(bs[at..]).value.1;
      f == VarintField(bs[i..at], bs[at..at + k]) && WellFormed(f) && Bytes(f) == bs[i..at + k]
  {
    hide Read, Number, Wrap, IsVarint, IsTag;
    ReadVarint(bs[at..]);
    var k := Read(bs[at..]).value.1;
    assert bs[at..][..k] == bs[at..at + k];
    f := VarintField(bs[i..at], bs[at..at + k]);
    assert bs[i..at] + bs[at..at + k] == bs[i..at + k];
  }

  lemma PlainLength(bs: seq<byte>, i: nat, at: nat) returns (f: Field)
    requires i < at <= |bs| <= MAX_INT && Read(bs[at..]).Ok? && IsTag(bs[i..at], 2)
    requires ToInt64(Read(bs[at..]).value.0) >= 0
    requires at + Read(bs[at..]).value.1 + ToInt64(Read(bs[at..]).value.0) <= |bs|
    ensures var (u, k) := Read(bs[at..]).value;
      f == LengthField(bs[i..at], bs[at..at + k], bs[at + k..at + k + u]) && u == ToInt64(u)
      && WellFormed(f) && Bytes(f) == bs[i..at + k + u]
  {
    hide Read, Number, Wrap, IsVarint, IsTag;
    ReadVarint(bs[at..]);
    var (u, k) := Read(bs[at..]).value;
    assert bs[at..][..k] == bs[at..at + k];
    f := LengthField(bs[i..at], bs[at..at + k], bs[at + k..at + k + u]);
    assert bs[i..at] + bs[at..at + k] + bs[at + k..at + k + u] == bs[i..at + k + u];
  }

  // One list of fields and one end tag for each open group, the innermost first.
  datatype Level = Level(fields: seq<Field>, endTag: seq<byte>)

  function LevelBytes(levels: seq<Level>): seq<byte>
  {
    if levels == [] then [] else BytesOfAll(levels[0].fields) + levels[0].endTag + LevelBytes(levels[1..])
  }

  predicate GoodLevel(level: Level)
  {
    AllWellFormed(level.fields) && IsTag(level.endTag, 4)
  }

  ghost predicate GoodLevels(levels: seq<Level>)
  {
    forall j :: 0 <= j < |levels| ==> GoodLevel(levels[j])
  }

  lemma PutField(f: Field, levels: seq<Level>) returns (more: seq<Level>)
    requires levels != [] && GoodLevels(levels) && WellFormed(f)
    ensures |more| == |levels| && GoodLevels(more) && LevelBytes(more) == Bytes(f) + LevelBytes(levels)
  {
    hide Bytes, WellFormed, IsTag;
    var first := Level([f] + levels[0].fields, levels[0].endTag);
    assert ([f] + levels[0].fields)[1..] == levels[0].fields;
    assert GoodLevel(levels[0]);
    more := [first] + levels[1..];
    assert more[1..] == levels[1..];
    Associate(Bytes(f), BytesOfAll(levels[0].fields), levels[0].endTag, LevelBytes(levels[1..]));
  }

  lemma Associate(a: seq<byte>, b: seq<byte>, c: seq<byte>, d: seq<byte>)
    ensures a + b + c + d == a + (b + c + d)
  {
  }

  // A start tag closes the innermost level into a group of the next.
  lemma PutGroup(tag: seq<byte>, levels: seq<Level>) returns (more: seq<Level>)
    requires |levels| >= 2 && GoodLevels(levels) && IsTag(tag, 3)
    ensures |more| == |levels| - 1 && GoodLevels(more) && LevelBytes(more) == tag + LevelBytes(levels)
  {
    hide IsTag;
    var g := GroupField(tag, levels[0].fields, levels[0].endTag);
    assert GoodLevel(levels[0]);
    assert levels[1..] != [] && GoodLevels(levels[1..]);
    more := PutField(g, levels[1..]);
    Associate(tag, BytesOfAll(levels[0].fields), levels[0].endTag, LevelBytes(levels[1..]));
  }

  // An end tag opens an empty level.
  lemma PutEnd(tag: seq<byte>, levels: seq<Level>) returns (more: seq<Level>)
    requires GoodLevels(levels) && IsTag(tag, 4)
    ensures |more| == |levels| + 1 && GoodLevels(more) && LevelBytes(more) == tag + LevelBytes(levels)
  {
    hide IsTag;
    more := [Level([], tag)] + levels;
    assert more[1..] == levels;
    assert BytesOfAll([]) + tag == tag;
  }

  lemma Cut(bs: seq<byte>, i: nat, j: nat, k: nat)
    requires i <= j <= k <= |bs|
    ensures bs[i..k] == bs[i..j] + bs[j..k]
  {
  }

  lemma TagRead(bs: seq<byte>, i: nat)
    requires i < |bs| && Read(bs[i..]).Ok?
    ensures var (wire, n) := Read(bs[i..]).value; i + n <= |bs| && IsTag(bs[i..i + n], wire % 8)
  {
    hide Read, Number, Wrap, IsVarint;
    ReadVarint(bs[i..]);
    var n := Read(bs[i..]).value.1;
    assert bs[i..][..n] == bs[i..i + n];
  }

  // What a skip inside groups has passed over when it ends.
  lemma {:induction false} Levels(bs: seq<byte>, i: nat, depth: nat) returns (levels: seq<Level>)
    requires |bs| <= MAX_INT && depth > 0 && SkipAt(bs, i, depth).Ok? && SkipAt(bs, i, depth).value <= |bs|
    ensures |levels| == depth && GoodLevels(levels) && bs[i..SkipAt(bs, i, depth).value] == LevelBytes(levels)
    decreases |bs| - i
  {
    hide Read, IsTag, LevelBytes, GoodLevels, WellFormed, Bytes;
    var end := SkipAt(bs, i, depth).value;
    var (wire, n) := Read(bs[i..]).value;
    TagRead(bs, i);
    var at := i + n;
    if wire % 8 == 3 {
      var inner := Levels(bs, at, depth + 1);
      levels := PutGroup(bs[i..at], inner);
      Cut(bs, i, at, end);
    } else if wire % 8 == 4 {
      var outer := [];
      if depth == 1 {
        NoLevels();
      } else {
        outer := Levels(bs, at, depth - 1);
      }
      levels := PutEnd(bs[i..at], outer);
      Cut(bs, i, at, end);
    } else {
      var next := SkipBody(bs, at, wire % 8, depth).value.0;
      var f := PlainField(bs, i, at, wire % 8, depth);
      var rest := Levels(bs, next, depth);
      levels := PutField(f, rest);
      Cut(bs, i, next, end);
    }
  }

  lemma NoLevels()
    ensures GoodLevels([]) && LevelBytes([]) == []
  {
  }

  // At depth zero a skip that ends inside the input has passed over one well-formed field.
  lemma SkippedField(bs: seq<byte>) returns (f: Field)
    requires |bs| <= MAX_INT && SkipAt(bs, 0, 0).Ok? && SkipAt(bs, 0, 0).value <= |bs|
    ensures WellFormed(f) && Bytes(f) == bs[..SkipAt(bs, 0, 0).value]
    ensures Read(bs).Ok? && |f.tag| <= |bs| && f.tag == bs[..Read(bs).value.1]
  {
    hide Read, IsTag, LevelBytes, WellFormed, Bytes;
    var end := SkipAt(bs, 0, 0).value;
    assert bs[0..] == bs;
    var (wire, n) := Read(bs).value;
    TagRead(bs, 0);
    if wire % 8 == 3 {
      var levels := Levels(bs, n, 1);
      f := OneGroup(bs[..n], levels);
      Cut(bs, 0, n, end);
    } else {
      f := PlainField(bs, 0, n, wire % 8, 0);
    }
  }

  lemma OneGroup(tag: seq<byte>, levels: seq<Level>) returns (f: Field)
    requires |levels| == 1 && GoodLevels(levels) && IsTag(tag, 3)
    ensures WellFormed(f) && Bytes(f) == tag + LevelBytes(levels) && f.tag == tag
  {
    hide IsTag;
    f := GroupField(tag, levels[0].fields, levels[0].endTag);
    assert GoodLevel(levels[0]);
    assert levels[1..] == [] && LevelBytes(levels[1..]) == [];
    assert BytesOfAll(levels[0].fields) + levels[0].endTag + [] == BytesOfAll(levels[0].fields) + levels[0].endTag;
    Associate(tag, BytesOfAll(levels[0].fields), levels[0].endTag, []);
    assert tag + BytesOfAll(levels[0].fields) + levels[0].endTag + [] == Bytes(f);
  }

  /******* What a decoder read *******/

  // A field that was read is a well-formed field of the type its number calls for.
  lemma ReadField(schema: Schema, base: nat, bs: seq<byte>) returns (f: Field)
    requires bs != [] && base + |bs| <= MAX_INT && NextRaw(schema, base, bs).Ok?
    ensures WellFormed(f) && Bytes(f) == bs[..NextRaw(schema, base, bs).value.1]
    ensures FieldNumber(f) > 0 && Fits(schema, f)
  {
    hide Read, Number, Wrap, IsVarint, SkipAt, WellFormed, Bytes, KindOf, ReadPayload;
    var (wire, n) := Read(bs).value;
    assert bs[0..] == bs;
    TagRead(bs, 0);
    match KindOf(schema, ToInt32(wire / 8))
    case LengthDelimited =>
      f := ReadLength(base, bs, n);
      NumberRead(bs, f);
    case VarintValue =>
      f := ReadScalar(bs, n);
      NumberRead(bs, f);
    case Unknown =>
      f := SkippedField(bs);
      NumberRead(bs, f);
  }

  lemma NumberRead(bs: seq<byte>, f: Field)
    requires Read(bs).Ok? && f.tag == bs[..Read(bs).value.1]
    ensures FieldNumber(f) == ToInt32(Read(bs).value.0 / 8)
  {
    hide Read, Number, Wrap, IsVarint;
    ReadVarint(bs);
  }

  lemma ReadLength(base: nat, bs: seq<byte>, n: nat) returns (f: Field)
    requires 0 < n <= |bs| && base + |bs| <= MAX_INT && IsTag(bs[..n], 2) && ReadPayload(base + n, bs[n..]).Ok?
    ensures f.LengthField? && f.tag == bs[..n] && WellFormed(f) && Bytes(f) == bs[..n + ReadPayload(base + n, bs[n..]).value.1]
  {
    hide Read, IsTag;
    f := PlainLength(bs, 0, n);
  }

  lemma ReadScalar(bs: seq<byte>, n: nat) returns (f: Field)
    requires 0 < n <= |bs| <= MAX_INT && IsTag(bs[..n], 0) && Read(bs[n..]).Ok?
    ensures f.VarintField? && f.tag == bs[..n] && WellFormed(f) && Bytes(f) == bs[..n + Read(bs[n..]).value.1]
  {
    hide Read, IsTag;
    f := PlainVarint(bs, 0, n);
  }

  lemma {:induction false} ReadAll(m: ConsumerChain, base: nat, bs: seq<byte>) returns (fs: seq<Field>)
    requires base + |bs| <= MAX_INT && DecodeFrom(m, base, bs).Ok?
    ensures AllWellFormed(fs) && Numbered(fs) && BytesOfAll(fs) == bs
    decreases |bs|
  {
    hide NextRaw, Apply, WellFormed, Bytes, FieldNumber, Fits;
    fs := [];
    if bs != [] {
      var f := ReadField(ConsumerChainSchema, base, bs);
      var (raw, n) := NextRaw(ConsumerChainSchema, base, bs).value;
      var rest := ReadAll(Apply(m, raw), base + n, bs[n..]);
      fs := [f] + rest;
      assert fs[1..] == rest;
      assert bs == bs[..n] + bs[n..];
    }
  }

  // The bytes are this list of well-formed fields.
  ghost predicate IsWire(fs: seq<Field>, bs: seq<byte>)
  {
    AllWellFormed(fs) && Numbered(fs) && BytesOfAll(fs) == bs
  }

  /** A ConsumerChain is decoded without an error from exactly the lists of well-formed fields, groups included,
      in which the known numbers have their types; nothing truncated, overlong or mistyped is accepted. */
  lemma ChainAcceptedIff(bs: seq<byte>)
    requires |bs| <= MAX_INT
    ensures Decode(bs).Ok? <==> exists fs :: IsWire(fs, bs) && AllChainTyped(fs)
    ensures forall fs :: IsWire(fs, bs) && Decode(bs).Ok? ==> Means(fs, Decode(bs).value)
  {
    hide AllWellFormed, BytesOfAll, Numbered, AllChainTyped, Means, DecodeFrom;
    forall fs | IsWire(fs, bs)
      ensures Decode(bs).Ok? <==> AllChainTyped(fs)
      ensures Decode(bs).Ok? ==> Means(fs, Decode(bs).value)
    {
      ChainRead(fs);
    }
    if Decode(bs).Ok? {
      var fs := ReadAll(ZERO, 0, bs);
      assert IsWire(fs, bs);
    }
  }

  lemma {:induction false} ReadAllOfResponse(accepts: Q.PageCodec, m: Q.ActiveChains, base: nat, bs: seq<byte>)
    returns (fs: seq<Field>)
    requires base + |bs| <= MAX_INT && Q.DecodeResponseFrom(accepts, m, base, bs).Ok?
    ensures AllWellFormed(fs) && Numbered(fs) && BytesOfAll(fs) == bs
    decreases |bs|
  {
    hide NextRaw, Q.Apply, WellFormed, Bytes, FieldNumber, Fits;
    fs := [];
    if bs != [] {
      var f := ReadField(ActiveChainsSchema, base, bs);
      var (raw, n) := NextRaw(ActiveChainsSchema, base, bs).value;
      var rest := ReadAllOfResponse(accepts, Q.Apply(accepts, m, raw).value, base + n, bs[n..]);
      fs := [f] + rest;
      assert fs[1..] == rest;
      assert bs == bs[..n] + bs[n..];
    }
  }

  /** A response is decoded without an error from exactly the lists of well-formed fields whose fields 1 are
      chains and whose fields 2 the page codec takes; ResponseRead says what it is then. */
  lemma ResponseAcceptedIff(accepts: Q.PageCodec, bs: seq<byte>)
    requires |bs| <= MAX_INT
    ensures Q.DecodeResponse(accepts, bs).Ok? <==> exists fs :: IsWire(fs, bs) && Acceptable(accepts, fs)
  {
    hide AllWellFormed, BytesOfAll, Numbered, AllResponseTyped, AllRead, AllTaken, Q.DecodeResponseFrom;
    forall fs | IsWire(fs, bs) ensures Q.DecodeResponse(accepts, bs).Ok? <==> Acceptable(accepts, fs) {
      ResponseRead(accepts, fs);
    }
    if Q.DecodeResponse(accepts, bs).Ok? {
      var fs := ReadAllOfResponse(accepts, Q.EMPTY, 0, bs);
      assert IsWire(fs, bs);
    }
  }
}
