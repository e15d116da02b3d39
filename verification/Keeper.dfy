/** The keeper: the provider module's store and the bank, changed in place. */
module Keeper {
  import opened GoTypes
  import opened ByteOrder
  import opened Bank
  import opened ProRata
  import opened ChainCodec
  import P = Provider
  import opened Provider
  import opened Fees

  // The stored keys a walk has still to visit after the key it is at.
  function KeysAfter(chains: map<Str, ConsumerChain>, cursor: Option<Str>): set<Str>
  {
    set k | k in chains && (cursor.None? || Less(cursor.value, k))
  }

  lemma NextKey(chains: map<Str, ConsumerChain>, cursor: Option<Str>)
    requires KeysAfter(chains, cursor) != {}
    ensures var todo := KeysAfter(chains, cursor);
      KeysAfter(chains, Some(Min(todo))) == todo - {Min(todo)}
  {
    hide Min, Less;
    var todo := KeysAfter(chains, cursor);
    var m := Min(todo);
    forall k | k in chains ensures Less(m, k) <==> k in todo && k != m {
      if Less(m, k) {
        LessIrreflexive(m);
        if cursor.Some? { LessTrans(cursor.value, m, k); }
      }
    }
  }

  class Keeper {
    const env: Env
    var params: Option<Params>
    var chains: map<Str, ConsumerChain>
    var balances: Balances
    var accounts: set<Str>

    function View(): Ledger
      reads this
    {
      Ledger(params, chains, balances, accounts)
    }

    ghost predicate Valid()
      reads this
    {
      GoodEnv(env) && GoodLedger(env, View())
    }

    constructor (env: Env)
      requires GoodEnv(env)
      ensures Valid() && this.env == env
      ensures View() == Ledger(None, map[], map[], {})
    {
      this.env := env;
      params, chains, balances, accounts := None, map[], map[], {};
    }

    // The account is created if it is missing; its address is returned in text form.
    method CreateConsumerAccount(chainId: Str) returns (address: Str)
      modifies this`accounts
      ensures accounts == old(accounts) + {ConsumerAddress(env, chainId)}
      ensures address == env.format(ConsumerAddress(env, chainId))
    {
      var addr := env.moduleAddress(AccountName(chainId));
      if addr !in accounts {
        accounts := accounts + {addr};
      }
      address := env.format(addr);
    }

    // The callback CollectFeesFromConsumers hands to the walk.
    method ChargeConsumer(consumer: ConsumerChain, denom: Str, fee: nat) returns (paid: nat, error: Option<Error>)
      requires consumer.chainId in chains && chains[consumer.chainId] == consumer
      modifies this`chains, this`balances
      ensures Collection(View(), paid, error) == Charge(env, old(View()), denom, fee, consumer.chainId)
    {
      if !IsActive(consumer) && !IsOverdue(consumer) {
        return 0, None;
      }
      var address := env.parse(consumer.moduleAccountAddress);
      if address.None? {
        return 0, Some(BadAddress);
      }
      var updated := consumer;
      paid := 0;
      if Bal(balances, address.value, denom) < fee {
        updated := updated.(status := OVERDUE);
      } else {
        var sent := Send(balances, ConsumerAddress(env, consumer.chainId), CollectorAddress(env), denom, fee);
        if sent.None? {
          return 0, Some(InsufficientFunds);
        }
        balances := sent.value;
        paid := fee;
        updated := updated.(status := ACTIVE);
      }
      chains := chains[updated.chainId := updated];
      error := None;
    }

    /** A live walk: the next key is looked up in the store as the callbacks have left it. It comes
        to the callback applied in key order to the keys the store had at the start. */
    method CollectFeesFromConsumers(denom: Str, fee: nat) returns (total: nat, error: Option<Error>)
      requires Valid()
      modifies this`chains, this`balances
      ensures Valid() && chains.Keys == old(chains.Keys)
      ensures forall k :: k in SortedKeys(old(chains.Keys)) ==> k in old(chains)
      ensures Collection(View(), total, error)
           == Collect(env, old(View()), denom, fee, SortedKeys(old(chains.Keys)))
    {
      hide Charge, Collect, GoodEnv, GoodLedger, KeysAfter, SortedKeys;
      ghost var start, keys := View(), SortedKeys(chains.Keys);
      var cursor: Option<Str> := None;
      total := 0;
      FirstKeys(chains);
      KeysAreStored(chains, None);
      while KeysAfter(chains, cursor) != {}
        invariant Valid() && chains.Keys == start.chains.Keys
        invariant forall k :: k in SortedKeys(KeysAfter(chains, cursor)) ==> k in chains
        invariant Collect(env, start, denom, fee, keys)
               == Resume(total, Collect(env, View(), denom, fee, SortedKeys(KeysAfter(chains, cursor))))
        decreases KeysAfter(chains, cursor)
      {
        ghost var before := View();
        NextKey(chains, cursor);
        KeysAreStored(chains, cursor);
        WalkStep(env, before, denom, fee, KeysAfter(chains, cursor));
        var key := Min(KeysAfter(chains, cursor));
        var paid, err := ChargeConsumer(chains[key], denom, fee);
        SameKeysAfter(before.chains, chains, Some(key));
        cursor := Some(key);
        if err.Some? {
          return total, err;
        }
        total := total + paid;
      }
      NothingLeft(env, View(), denom, fee);
      error := None;
    }

    method DistributeFeesToValidators(denom: Str, fees: nat, bonded: Option<seq<Validator>>) returns (error: Option<Error>)
      modifies this`balances
      ensures Outcome(View(), error) == Distribute(env, old(View()), denom, fees, bonded)
    {
      hide Share;
      if bonded.None? {
        return Some(StakingFailed);
      }
      var vals := bonded.value;
      if |vals| == 0 {
        return None;
      }
      var totalPower := 0;
      for i := 0 to |vals|
        invariant TotalPower(vals) == totalPower + TotalPower(vals[i..])
      {
        assert vals[i..][1..] == vals[i + 1..];
        totalPower := totalPower + vals[i].power;
      }
      if totalPower == 0 {
        return Some(ZeroPower);
      }
      ghost var start := balances;
      assert vals[0..] == vals;
      for i := 0 to |vals|
        invariant params == old(params) && chains == old(chains) && accounts == old(accounts)
        invariant Pay(env, start, denom, fees, vals, totalPower) == Pay(env, balances, denom, fees, vals[i..], totalPower)
      {
        assert vals[i..][1..] == vals[i + 1..];
        var address := env.parse(vals[i].operator);
        if address.None? {
          return Some(BadOperator);
        }
        var share := Share(fees, vals[i].power, totalPower);
        if share != 0 {
          var sent := Send(balances, CollectorAddress(env), address.value, denom, share);
          if sent.None? {
            return Some(InsufficientFunds);
          }
          balances := sent.value;
        }
      }
      error := None;
    }

    method BeginBlocker(bonded: Option<seq<Validator>>) returns (error: Option<Error>)
      requires Valid()
      modifies this`chains, this`balances
      ensures Valid()
      ensures Outcome(View(), error) == BeginBlock(env, old(View()), bonded)
    {
      hide Collect, Pay, GoodEnv, GoodChain, SortedKeys;
      if params.None? {
        return Some(NoParams);
      }
      var coin := params.value.feesPerBlock;
      if coin.amount == 0 {
        return None;
      }
      var total, err := CollectFeesFromConsumers(coin.denom, coin.amount);
      if err.Some? {
        return err;
      }
      if total == 0 {
        return None;
      }
      error := DistributeFeesToValidators(coin.denom, total, bonded);
    }

    method UpdateParams(authority: Str, p: Params) returns (error: Option<Error>)
      requires Valid()
      modifies this`params
      ensures Valid()
      ensures Outcome(View(), error) == P.UpdateParams(env, old(View()), authority, p)
    {
      error := CheckSigner(env, authority);
      if error.Some? { return; }
      error := ValidateParams(p);
      if error.Some? { return; }
      params := Some(p);
    }

    method AddConsumer(height: int64, req: AddRequest) returns (error: Option<Error>)
      requires Valid()
      modifies this`chains, this`accounts
      ensures Valid()
      ensures Outcome(View(), error) == P.AddConsumer(env, old(View()), height, req)
    {
      error := CheckSigner(env, req.authority);
      if error.Some? { return; }
      if req.chainId == [] { return Some(InvalidChainID); }
      if req.blockHeight < 0 { return Some(InvalidBlockHeight); }
      if req.chainId in chains { return Some(ConsumerAlreadyExists); }
      if req.blockHeight <= height { return Some(InvalidBlockHeight); }
      var address := CreateConsumerAccount(req.chainId);
      var consumer := ConsumerChain(req.chainId, req.name, req.version, PENDING, req.blockHeight, 0, address);
      chains := chains[consumer.chainId := consumer];
    }

    method SunsetConsumer(height: int64, authority: Str, chainId: Str, blockHeight: int64) returns (error: Option<Error>)
      requires Valid()
      modifies this`chains
      ensures Valid()
      ensures Outcome(View(), error) == P.SunsetConsumer(env, old(View()), height, authority, chainId, blockHeight)
    {
      error := CheckSigner(env, authority);
      if error.Some? { return; }
      if chainId == [] { return Some(InvalidChainID); }
      if blockHeight < 0 { return Some(InvalidBlockHeight); }
      if chainId !in chains { return Some(ConsumerNotFound); }
      var consumer := chains[chainId];
      if consumer.status == SUNSET || consumer.status == REMOVED { return Some(ConsumerAlreadySunset); }
      if blockHeight <= height {
        consumer := consumer.(status := REMOVED);
      } else {
        consumer := consumer.(status := SUNSET);
      }
      consumer := consumer.(sunsetAt := blockHeight);
      chains := chains[consumer.chainId := consumer];
    }

    method UpgradeConsumer(height: int64, req: UpgradeRequest) returns (error: Option<Error>)
      requires Valid()
      modifies this`chains
      ensures Valid()
      ensures Outcome(View(), error) == P.UpgradeConsumer(env, old(View()), height, req)
    {
      error := CheckSigner(env, req.authority);
      if error.Some? { return; }
      if req.chainId == [] { return Some(InvalidChainID); }
      if req.version == [] { return Some(EmptyVersion); }
      if req.blockHeight < 0 { return Some(InvalidBlockHeight); }
      if req.chainId !in chains { return Some(ConsumerNotFound); }
      var consumer := chains[req.chainId];
      if !CanUpgrade(consumer) { return Some(ConsumerNotActive); }
      if req.blockHeight <= height { return Some(InvalidBlockHeight); }
      chains := chains[consumer.chainId := consumer];
    }

    // The genesis is taken as it comes; a negative fee, which validation refuses, is stored as it is.
    method InitGenesis(gs: GenesisState) returns (error: Option<Error>)
      requires Valid()
      modifies this`params, this`chains, this`accounts
      ensures gs.params.feesPerBlock.amount >= 0 ==> Valid()
      ensures forall k :: k in chains ==> GoodChain(env, k, chains[k])
      ensures Outcome(View(), error) == P.InitGenesis(env, old(View()), gs)
    {
      hide GoodEnv;
      params := Some(gs.params);
      ghost var start := View();
      var cs := gs.consumerChains;
      assert cs[0..] == cs;
      for i := 0 to |cs|
        invariant params == Some(gs.params) && forall k :: k in chains ==> GoodChain(env, k, chains[k])
        invariant balances == old(balances)
        invariant InitChains(env, start, cs) == InitChains(env, View(), cs[i..])
      {
        assert cs[i..][1..] == cs[i + 1..];
        var consumer := cs[i];
        if consumer.moduleAccountAddress != [] {
          return Some(AddressNotEmpty);
        }
        ghost var before := View();
        var address := CreateConsumerAccount(consumer.chainId);
        consumer := consumer.(moduleAccountAddress := address);
        chains := chains[consumer.chainId := consumer];
        assert View() == InitOne(env, before, cs[i]);
      }
      error := None;
    }

    method ExportGenesis() returns (r: Result<GenesisState, Error>)
      ensures r == P.ExportGenesis(View())
    {
      if params.None? {
        return Err(NoParams);
      }
      var consumers := Walk();
      r := Ok(GenesisState(params.value, consumers));
    }

    // Collections' Walk by cursor, its callback appending each value: GetAllConsumerChains.
    method Walk() returns (consumers: seq<ConsumerChain>)
      ensures forall k :: k in SortedKeys(chains.Keys) ==> k in chains
      ensures consumers == Values(chains, SortedKeys(chains.Keys))
    {
      hide Values, SortedKeys, KeysAfter, Min, ValuesAfter;
      var cursor: Option<Str> := None;
      consumers := [];
      AllValues(chains);
      while KeysAfter(chains, cursor) != {}
        invariant ValuesAfter(chains, None) == consumers + ValuesAfter(chains, cursor)
        decreases KeysAfter(chains, cursor)
      {
        NextKey(chains, cursor);
        NextValue(chains, cursor, consumers);
        var key := Min(KeysAfter(chains, cursor));
        consumers := consumers + [chains[key]];
        cursor := Some(key);
      }
      NoValues(chains, cursor);
    }

    // The query behind the multiplexer's active set.
    method ActiveConsumerChains() returns (active: seq<ConsumerChain>)
      ensures active == P.ActiveConsumerChains(View())
    {
      hide SortedKeys, Values, KeepActive;
      var all := Walk();
      active := [];
      assert all[0..] == all;
      NoneActive();
      assert all[|all|..] == [];
      for i := 0 to |all|
        invariant KeepActive(all) == active + KeepActive(all[i..])
      {
        KeepActiveStep(all, i);
        if IsActive(all[i]) {
          active := active + [all[i]];
        }
      }
    }
  }

  // A fold that has already taken in total, and has the rest to go.
  function Resume(total: nat, rest: Collection): Collection
  {
    rest.(total := total + rest.total)
  }

  lemma FirstKeys(chains: map<Str, ConsumerChain>)
    ensures KeysAfter(chains, None) == chains.Keys
  {
  }

  lemma KeysAreStored(chains: map<Str, ConsumerChain>, cursor: Option<Str>)
    ensures KeysAfter(chains, cursor) <= chains.Keys
    ensures forall k :: k in SortedKeys(KeysAfter(chains, cursor)) ==> k in chains
  {
    var keys := SortedKeys(KeysAfter(chains, cursor));
    assert forall k :: k in keys ==> k in Elements(keys);
  }

  lemma ValuesFirst(chains: map<Str, ConsumerChain>, todo: set<Str>)
    requires todo != {} && todo <= chains.Keys
    ensures var rest := SortedKeys(todo - {Min(todo)});
      && (forall k :: k in SortedKeys(todo) ==> k in chains) && (forall k :: k in rest ==> k in chains)
      && Values(chains, SortedKeys(todo)) == [chains[Min(todo)]] + Values(chains, rest)
  {
    hide Min, Less;
    var keys, rest := SortedKeys(todo), SortedKeys(todo - {Min(todo)});
    assert keys == [Min(todo)] + rest;
    assert forall k :: k in keys ==> k in Elements(keys);
    assert forall k :: k in rest ==> k in Elements(rest);
    assert keys[1..] == rest;
  }

  // What a walk at the cursor has still to visit.
  function ValuesAfter(chains: map<Str, ConsumerChain>, cursor: Option<Str>): seq<ConsumerChain>
  {
    KeysAreStored(chains, cursor);
    Values(chains, SortedKeys(KeysAfter(chains, cursor)))
  }

  lemma AllValues(chains: map<Str, ConsumerChain>)
    ensures forall k :: k in SortedKeys(chains.Keys) ==> k in chains
    ensures ValuesAfter(chains, None) == Values(chains, SortedKeys(chains.Keys))
  {
    hide SortedKeys, Values;
    FirstKeys(chains);
    KeysAreStored(chains, None);
  }

  lemma NextValue(chains: map<Str, ConsumerChain>, cursor: Option<Str>, before: seq<ConsumerChain>)
    requires KeysAfter(chains, cursor) != {}
    ensures var key := Min(KeysAfter(chains, cursor));
      && key in chains
      && before + ValuesAfter(chains, cursor) == before + [chains[key]] + ValuesAfter(chains, Some(key))
  {
    hide SortedKeys, Values, Min, KeysAfter;
    NextKey(chains, cursor);
    KeysAreStored(chains, cursor);
    ValuesFirst(chains, KeysAfter(chains, cursor));
  }

  lemma NoValues(chains: map<Str, ConsumerChain>, cursor: Option<Str>)
    requires KeysAfter(chains, cursor) == {}
    ensures ValuesAfter(chains, cursor) == []
  {
  }

  lemma SameKeysAfter(a: map<Str, ConsumerChain>, b: map<Str, ConsumerChain>, cursor: Option<Str>)
    requires a.Keys == b.Keys
    ensures KeysAfter(a, cursor) == KeysAfter(b, cursor)
  {
    assert forall k :: k in a <==> k in b;
  }

  lemma StoredUnderId(env: Env, l: Ledger, key: Str)
    requires GoodLedger(env, l) && key in l.chains
    ensures l.chains[key].chainId == key
  {
    assert GoodChain(env, key, l.chains[key]);
  }

  lemma NothingLeft(env: Env, l: Ledger, denom: Str, fee: nat)
    ensures SortedKeys({}) == [] && Collect(env, l, denom, fee, []) == Collection(l, 0, None)
  {
  }

  lemma CollectFirst(env: Env, l: Ledger, denom: Str, fee: nat, key: Str, rest: seq<Str>)
    requires key in l.chains && forall k :: k in rest ==> k in l.chains
    ensures forall k :: k in [key] + rest ==> k in l.chains
    ensures var first := Charge(env, l, denom, fee, key);
      Collect(env, l, denom, fee, [key] + rest)
      == if first.error.Some? then first else Resume(first.total, Collect(env, first.ledger, denom, fee, rest))
  {
    hide Charge;
    assert ([key] + rest)[1..] == rest;
  }

  // One turn of the walk: the smallest key still to visit, then the others on the store it leaves.
  lemma WalkStep(env: Env, l: Ledger, denom: Str, fee: nat, todo: set<Str>)
    requires GoodEnv(env) && GoodLedger(env, l) && todo != {} && todo <= l.chains.Keys
    ensures forall k :: k in SortedKeys(todo) ==> k in l.chains
    ensures Min(todo) in l.chains && l.chains[Min(todo)].chainId == Min(todo)
    ensures var first := Charge(env, l, denom, fee, Min(todo));
      && first.ledger.chains.Keys == l.chains.Keys && GoodLedger(env, first.ledger)
      && (forall k :: k in SortedKeys(todo - {Min(todo)}) ==> k in first.ledger.chains)
      && Collect(env, l, denom, fee, SortedKeys(todo))
         == if first.error.Some? then first
            else Resume(first.total, Collect(env, first.ledger, denom, fee, SortedKeys(todo - {Min(todo)})))
  {
    hide Charge, Collect, GoodEnv, GoodLedger, Less, Bal, Min;
    var key := Min(todo);
    var rest := SortedKeys(todo - {key});
    StoredUnderId(env, l, key);
    ChargeStore(env, l, denom, fee, key);
    assert SortedKeys(todo) == [key] + rest;
    assert forall k :: k in rest ==> k in Elements(rest);
    CollectFirst(env, l, denom, fee, key, rest);
  }

  lemma NoneActive()
    ensures KeepActive([]) == []
  {
  }

  lemma KeepActiveStep(cs: seq<ConsumerChain>, i: nat)
    requires i < |cs|
    ensures KeepActive(cs[i..]) == (if IsActive(cs[i]) then [cs[i]] else []) + KeepActive(cs[i + 1..])
  {
    assert cs[i..][1..] == cs[i + 1..];
  }
}
