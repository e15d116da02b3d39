/** The header that names the chain of a multiplexed transaction: "ICS:<chain id>:<payload>". */
module Header {
  import opened GoTypes

  const COLON: byte := 58
  // "ICS:"
  const PREFIX: Str := [73, 67, 83, 58]

  datatype HeaderError = TooShort | BadPrefix | NoSeparator

  function CreateTransactionHeader(chainId: Str): Str
  {
    PREFIX + chainId + [COLON]
  }

  // bytes.IndexByte, None for -1
  function IndexByte(s: Str, b: byte): (i: Option<nat>)
    ensures i.Some? ==> i.value < |s| && s[i.value] == b && b !in s[..i.value]
    ensures i.None? ==> b !in s
  {
    if s == [] then None
    else if s[0] == b then Some(0)
    else
      match IndexByte(s[1..], b)
      case None => None
      case Some(i) =>
        assert s[..i + 1] == [s[0]] + s[1..][..i];
        Some(i + 1)
  }

  function ParseHeader(tx: Str): Result<(Str, Str), HeaderError>
  {
    if |tx| < 4 then Err(TooShort)
    else if tx[..4] != PREFIX then Err(BadPrefix)
    else
      var rest := tx[4..];
      match IndexByte(rest, COLON)
      case None => Err(NoSeparator)
      case Some(idx) => Ok((rest[..idx], rest[idx + 1..]))
  }

  predicate Addressed(tx: Str, chainId: Str)
  {
    ParseHeader(tx).Ok? && ParseHeader(tx).value.0 == chainId
  }

  // The transactions that parse are exactly the headers of colon-free IDs with a payload behind.
  lemma ParseHeaderIff(tx: Str, chainId: Str, payload: Str)
    ensures ParseHeader(tx) == Ok((chainId, payload)) <==>
            COLON !in chainId && tx == CreateTransactionHeader(chainId) + payload
  {
    if ParseHeader(tx) == Ok((chainId, payload)) {
      var rest := tx[4..];
      assert tx == tx[..4] + rest;
      assert rest == rest[..|chainId|] + [rest[|chainId|]] + rest[|chainId| + 1..];
    }
    if COLON !in chainId && tx == CreateTransactionHeader(chainId) + payload {
      var rest := tx[4..];
      assert tx[..4] == PREFIX;
      assert rest == chainId + ([COLON] + payload);
      FirstIndex(rest, COLON, |chainId|);
    }
  }

  lemma FirstIndex(s: Str, b: byte, i: nat)
    requires i < |s| && s[i] == b && forall j :: 0 <= j < i ==> s[j] != b
    ensures IndexByte(s, b) == Some(i)
  {
    var k := IndexByte(s, b);
    assert k.Some?;
  }

  // What CreateTransactionHeader writes, ParseHeader reads back, if and only if the ID has no colon.
  lemma HeaderRoundTrip(chainId: Str, payload: Str)
    ensures ParseHeader(CreateTransactionHeader(chainId) + payload) == Ok((chainId, payload)) <==> COLON !in chainId
  {
    ParseHeaderIff(CreateTransactionHeader(chainId) + payload, chainId, payload);
  }
}
