/** Genesis: validation, import, export, and the round trip between the last two. */
module Genesis {
  import opened GoTypes
  import opened ByteOrder
  import opened ChainCodec
  import opened Provider

  /******* GenesisState.Validate *******/

  function BadFields(c: ConsumerChain): Option<Error>
  {
    if c.chainId == [] then Some(InvalidChainID)
    else if c.addedAt < 0 || c.sunsetAt < 0 then Some(InvalidBlockHeight)
    else None
  }

  predicate DistinctIds(cs: seq<ConsumerChain>)
  {
    forall i, j :: 0 <= i < j < |cs| ==> cs[i].chainId != cs[j].chainId
  }

  // What is wrong with the chain at index i, given that the ones before it were accepted.
  function Offence(cs: seq<ConsumerChain>, i: nat): Option<Error>
    requires i < |cs|
  {
    if exists j :: 0 <= j < i && cs[j].chainId == cs[i].chainId then Some(ConsumerAlreadyExists)
    else BadFields(cs[i])
  }

  // The first offence in list order decides the error; without one the genesis is accepted.
  method Validate(gs: GenesisState) returns (e: Option<Error>)
    ensures ValidateParams(gs.params).Some? ==> e == ValidateParams(gs.params)
    ensures ValidateParams(gs.params).None? && e.Some? ==>
              exists i :: 0 <= i < |gs.consumerChains| && Offence(gs.consumerChains, i) == e
                && forall j :: 0 <= j < i ==> Offence(gs.consumerChains, j).None?
    ensures e.None? <==> Acceptable(gs)
  {
    var cs := gs.consumerChains;
    e := ValidateParams(gs.params);
    if e.Some? { return; }
    var chainIDs: set<Str> := {};
    for i := 0 to |cs|
      invariant chainIDs == set j | 0 <= j < i :: cs[j].chainId
      invariant forall j :: 0 <= j < i ==> Offence(cs, j).None?
    {
      if cs[i].chainId in chainIDs {
        e := Some(ConsumerAlreadyExists);
        assert Offence(cs, i) == e;
        return;
      }
      assert forall j :: 0 <= j < i ==> cs[j].chainId in chainIDs;
      e := BadFields(cs[i]);
      assert Offence(cs, i) == e;
      if e.Some? { return; }
      chainIDs := chainIDs + {cs[i].chainId};
    }
    e := None;
  }

  predicate Acceptable(gs: GenesisState)
  {
    ValidateParams(gs.params).None? && forall i :: 0 <= i < |gs.consumerChains| ==> Offence(gs.consumerChains, i).None?
  }

  lemma AcceptableMeans(gs: GenesisState)
    ensures Acceptable(gs) <==>
      && gs.params.feesPerBlock.amount >= 0 && gs.params.downtimeSlashingWindow >= 0
      && DistinctIds(gs.consumerChains)
      && forall c :: c in gs.consumerChains ==> c.chainId != [] && c.addedAt >= 0 && c.sunsetAt >= 0
  {
    var cs := gs.consumerChains;
    if DistinctIds(cs) && forall c :: c in cs ==> c.chainId != [] && c.addedAt >= 0 && c.sunsetAt >= 0 {
      forall i | 0 <= i < |cs| ensures Offence(cs, i).None? {
        assert cs[i] in cs;
      }
    }
    if forall i :: 0 <= i < |cs| ==> Offence(cs, i).None? {
      forall i, j | 0 <= i < j < |cs| ensures cs[i].chainId != cs[j].chainId {
        assert Offence(cs, j).None?;
      }
      forall c | c in cs ensures c.chainId != [] && c.addedAt >= 0 && c.sunsetAt >= 0 {
        var i :| 0 <= i < |cs| && cs[i] == c;
        assert Offence(cs, i).None?;
      }
    }
  }

  /******* InitGenesis *******/

  function Filled(env: Env, c: ConsumerChain): ConsumerChain
  {
    c.(moduleAccountAddress := env.format(ConsumerAddress(env, c.chainId)))
  }

  function Ids(cs: seq<ConsumerChain>): set<Str>
  {
    if cs == [] then {} else {cs[0].chainId} + Ids(cs[1..])
  }

  predicate NoAddresses(cs: seq<ConsumerChain>)
  {
    forall c :: c in cs ==> c.moduleAccountAddress == []
  }

  lemma {:induction false} FindId(cs: seq<ConsumerChain>, k: Str) returns (c: ConsumerChain)
    requires k in Ids(cs)
    ensures c in cs && c.chainId == k
  {
    if cs[0].chainId == k {
      c := cs[0];
    } else {
      c := FindId(cs[1..], k);
    }
  }

  // Whatever the list, and however far the import gets, the store invariant is kept.
  lemma {:induction false} InitKeepsInvariant(env: Env, l: Ledger, cs: seq<ConsumerChain>)
    requires GoodLedger(env, l)
    ensures GoodLedger(env, InitChains(env, l, cs).ledger)
    ensures InitChains(env, l, cs).error == if NoAddresses(cs) then None else Some(AddressNotEmpty)
    decreases |cs|
  {
    if cs != [] {
      assert forall c :: c in cs <==> c == cs[0] || c in cs[1..];
      assert forall k :: k in l.chains ==> GoodChain(env, k, l.chains[k]);
      InitKeepsInvariant(env, InitOne(env, l, cs[0]), cs[1..]);
    }
  }

  // With distinct IDs the import adds exactly the listed chains, each with its derived address.
  lemma {:induction false} InitEffect(env: Env, l: Ledger, cs: seq<ConsumerChain>)
    requires DistinctIds(cs) && NoAddresses(cs)
    requires forall i :: 0 <= i < |cs| ==> cs[i].chainId !in l.chains
    ensures var r := InitChains(env, l, cs);
      && r.error == None && r.ledger.params == l.params && r.ledger.balances == l.balances
      && r.ledger.chains.Keys == l.chains.Keys + Ids(cs)
      && (forall c :: c in cs ==> c.chainId in r.ledger.chains && r.ledger.chains[c.chainId] == Filled(env, c))
      && (forall k :: k in l.chains ==> r.ledger.chains[k] == l.chains[k])
    decreases |cs|
  {
    if cs != [] {
      assert cs[0] in cs && forall c :: c in cs <==> c == cs[0] || c in cs[1..];
      forall i, j | 0 <= i < j < |cs[1..]| ensures cs[1..][i].chainId != cs[1..][j].chainId {
        assert cs[1..][i] == cs[i + 1] && cs[1..][j] == cs[j + 1];
      }
      forall i | 0 <= i < |cs[1..]| ensures cs[1..][i].chainId !in InitOne(env, l, cs[0]).chains {
        assert cs[1..][i] == cs[i + 1];
      }
      InitEffect(env, InitOne(env, l, cs[0]), cs[1..]);
    }
  }

  // An import stops at the first chain whose address is filled in, with the chains before it imported.
  lemma {:induction false} InitStops(env: Env, l: Ledger, cs: seq<ConsumerChain>, i: nat)
    requires i < |cs| && cs[i].moduleAccountAddress != [] && NoAddresses(cs[..i])
    ensures InitChains(env, l, cs) == InitChains(env, l, cs[..i]).(error := Some(AddressNotEmpty))
    decreases |cs|
  {
    hide InitOne;
    if i > 0 {
      assert cs[..i][0] == cs[0] && cs[..i][0] in cs[..i];
      assert cs[..i][1..] == cs[1..][..i - 1];
      assert forall c :: c in cs[1..][..i - 1] ==> c in cs[..i];
      InitStops(env, InitOne(env, l, cs[0]), cs[1..], i - 1);
    } else {
      assert InitChains(env, l, cs[..0]) == Outcome(l, None);
    }
  }

  // An import makes the account of every listed chain, and no other.
  lemma {:induction false} InitAccounts(env: Env, l: Ledger, cs: seq<ConsumerChain>, a: Str)
    requires NoAddresses(cs)
    ensures var r := InitChains(env, l, cs).ledger;
      a in r.accounts <==> a in l.accounts || exists i :: 0 <= i < |cs| && ConsumerAddress(env, cs[i].chainId) == a
    decreases |cs|
  {
    hide ConsumerAddress;
    if cs != [] {
      assert cs[0] in cs && forall c :: c in cs[1..] ==> c in cs;
      InitAccounts(env, InitOne(env, l, cs[0]), cs[1..], a);
      assert forall i :: 0 <= i < |cs[1..]| ==> cs[1..][i] == cs[i + 1];
      assert forall i :: 0 < i < |cs| ==> cs[i] == cs[1..][i - 1];
    }
  }

  /******* The round trip *******/

  function Erased(c: ConsumerChain): ConsumerChain
  {
    c.(moduleAccountAddress := [])
  }

  function EraseAll(cs: seq<ConsumerChain>): (r: seq<ConsumerChain>)
    ensures |r| == |cs| && forall i :: 0 <= i < |cs| ==> r[i] == Erased(cs[i])
  {
    if cs == [] then [] else [Erased(cs[0])] + EraseAll(cs[1..])
  }

  ghost predicate SortedIds(cs: seq<ConsumerChain>)
  {
    forall i, j :: 0 <= i < j < |cs| ==> Less(cs[i].chainId, cs[j].chainId)
  }

  lemma ExportSorted(env: Env, l: Ledger)
    requires GoodLedger(env, l) && l.params.Some?
    ensures ExportGenesis(l).Ok? && ExportGenesis(l).value.params == l.params.value
    ensures SortedIds(ExportGenesis(l).value.consumerChains)
  {
    hide SortedKeys, Less, Values;
    ExportAt(env, l);
  }

  // Export lists every stored chain once, in the order of the keys.
  lemma ExportLists(env: Env, l: Ledger)
    requires GoodLedger(env, l) && l.params.Some?
    ensures ExportGenesis(l).Ok? && ExportGenesis(l).value.params == l.params.value
    ensures var cs := ExportGenesis(l).value.consumerChains;
      && SortedIds(cs)
      && (forall c :: c in cs <==> c.chainId in l.chains && l.chains[c.chainId] == c)
  {
    hide SortedKeys, Less, Values, SortedIds;
    ExportSorted(env, l);
    ExportAt(env, l);
    var keys := SortedKeys(l.chains.Keys);
    var cs := Values(l.chains, keys);
    forall c: ConsumerChain | c.chainId in l.chains && l.chains[c.chainId] == c ensures c in cs {
      assert c.chainId in Elements(keys);
      var i :| 0 <= i < |keys| && keys[i] == c.chainId;
      assert cs[i] == c;
    }
  }

  lemma ExportAt(env: Env, l: Ledger)
    requires GoodLedger(env, l)
    ensures var keys := SortedKeys(l.chains.Keys);
      && (forall k :: k in keys ==> k in l.chains)
      && forall i :: 0 <= i < |keys| ==>
           Values(l.chains, keys)[i] == l.chains[keys[i]] && l.chains[keys[i]].chainId == keys[i]
  {
    hide SortedKeys, Less, Values;
    var keys := SortedKeys(l.chains.Keys);
    assert forall k :: k in keys ==> k in Elements(keys);
    forall i | 0 <= i < |keys| ensures l.chains[keys[i]].chainId == keys[i] {
      assert keys[i] in keys;
      assert GoodChain(env, keys[i], l.chains[keys[i]]);
    }
  }

  /** Import then export: the same parameters, and the imported chains in key order with their
      derived addresses. Erasing the addresses and importing again rebuilds the same store. */
  lemma GenesisRoundTrip(env: Env, l: Ledger, empty: Ledger, gs: GenesisState)
    requires GoodEnv(env) && Acceptable(gs) && NoAddresses(gs.consumerChains)
    requires l.chains == map[] && empty.chains == map[]
    ensures var imported := InitGenesis(env, l, gs);
      && imported.error == None && GoodLedger(env, imported.ledger)
      && ExportGenesis(imported.ledger).Ok?
      && var out := ExportGenesis(imported.ledger).value;
      && out.params == gs.params
      && SortedIds(out.consumerChains)
      && (forall c :: c in out.consumerChains <==> Erased(c) in gs.consumerChains && c == Filled(env, c))
      && var again := InitGenesis(env, empty, GenesisState(out.params, EraseAll(out.consumerChains)));
      && again.error == None
      && again.ledger.chains == imported.ledger.chains && again.ledger.params == imported.ledger.params
  {
    hide GoodEnv, GoodLedger, InitChains, ExportGenesis, DistinctIds, Offence, Ids, SortedIds, EraseAll, Erased, Filled, NoAddresses;
    AcceptableMeans(gs);
    var start := l.(params := Some(gs.params));
    EmptyIsGood(env, start);
    InitKeepsInvariant(env, start, gs.consumerChains);
    InitEffect(env, start, gs.consumerChains);
    var l' := InitGenesis(env, l, gs).ledger;
    ExportLists(env, l');
    var out := ExportGenesis(l').value;
    forall c ensures c in out.consumerChains <==> Erased(c) in gs.consumerChains && c == Filled(env, c) {
      ImportedChain(env, l'.chains, gs.consumerChains, c);
    }
    Reimport(env, l', empty, out);
  }

  lemma EmptyIsGood(env: Env, l: Ledger)
    requires l.chains == map[] && FeesNotNegative(l)
    ensures GoodLedger(env, l)
  {
  }

  // What is stored after importing cs into an empty store.
  lemma ImportedChain(env: Env, chains: map<Str, ConsumerChain>, cs: seq<ConsumerChain>, c: ConsumerChain)
    requires NoAddresses(cs) && chains.Keys == Ids(cs)
    requires forall x :: x in cs ==> x.chainId in chains && chains[x.chainId] == Filled(env, x)
    ensures c.chainId in chains && chains[c.chainId] == c <==> Erased(c) in cs && c == Filled(env, c)
  {
    if c.chainId in chains && chains[c.chainId] == c {
      var d := FindId(cs, c.chainId);
      assert c == Filled(env, d) && Erased(c) == d;
    }
    if Erased(c) in cs && c == Filled(env, c) {
      assert Filled(env, Erased(c)) == c;
    }
  }

  // The entries of a store under some of its keys.
  function Restrict(chains: map<Str, ConsumerChain>, ks: set<Str>): map<Str, ConsumerChain>
  {
    map k | k in ks && k in chains :: chains[k]
  }

  lemma RestrictCons(start: map<Str, ConsumerChain>, chains: map<Str, ConsumerChain>, k: Str, ks: set<Str>)
    requires k in chains
    ensures start[k := chains[k]] + Restrict(chains, ks) == start + Restrict(chains, {k} + ks)
  {
  }

  // Importing the erased values of some keys puts those values back, addresses and all.
  lemma {:induction false} InitErased(env: Env, l: Ledger, start: Ledger, keys: seq<Str>)
    requires GoodLedger(env, l) && forall k :: k in keys ==> k in l.chains
    ensures var r := InitChains(env, start, EraseAll(Values(l.chains, keys)));
      && r.error == None && r.ledger.params == start.params
      && r.ledger.chains == start.chains + Restrict(l.chains, Elements(keys))
    decreases |keys|
  {
    hide InitChains, InitOne, EraseAll, Values, Erased, GoodLedger, Restrict;
    if keys == [] {
      InitNothing(env, l.chains, start);
      RestrictNothing(l.chains);
    } else {
      var next := InitErasedFirst(env, l, start, keys);
      InitErased(env, l, next, keys[1..]);
      ElementsCons(keys[0], keys[1..]);
      assert keys == [keys[0]] + keys[1..];
      RestrictCons(start.chains, l.chains, keys[0], Elements(keys[1..]));
    }
  }

  lemma RestrictNothing(chains: map<Str, ConsumerChain>)
    ensures Restrict(chains, Elements([])) == map[]
  {
  }

  lemma InitNothing(env: Env, chains: map<Str, ConsumerChain>, start: Ledger)
    ensures InitChains(env, start, EraseAll(Values(chains, []))) == Outcome(start, None)
  {
  }

  lemma InitErasedFirst(env: Env, l: Ledger, start: Ledger, keys: seq<Str>) returns (next: Ledger)
    requires GoodLedger(env, l) && keys != [] && forall k :: k in keys ==> k in l.chains
    ensures InitChains(env, start, EraseAll(Values(l.chains, keys)))
         == InitChains(env, next, EraseAll(Values(l.chains, keys[1..])))
    ensures next.params == start.params && next.chains == start.chains[keys[0] := l.chains[keys[0]]]
  {
    var c := l.chains[keys[0]];
    assert GoodChain(env, keys[0], c);
    var es := EraseAll(Values(l.chains, keys));
    assert es[0] == Erased(c) && es[1..] == EraseAll(Values(l.chains, keys[1..]));
    next := InitOne(env, start, es[0]);
  }

  // Importing an export with its addresses erased rebuilds the store it came from.
  lemma Reimport(env: Env, l: Ledger, empty: Ledger, out: GenesisState)
    requires GoodLedger(env, l) && l.params.Some? && ExportGenesis(l) == Ok(out)
    requires empty.chains == map[]
    ensures var again := InitGenesis(env, empty, GenesisState(out.params, EraseAll(out.consumerChains)));
      again.error == None && again.ledger.chains == l.chains && again.ledger.params == l.params
  {
    hide InitChains, EraseAll, SortedKeys, Values, GoodLedger;
    var keys := SortedKeys(l.chains.Keys);
    assert forall k :: k in keys ==> k in Elements(keys);
    assert Restrict(l.chains, Elements(keys)) == l.chains;
    InitErased(env, l, empty.(params := Some(out.params)), keys);
  }
}
