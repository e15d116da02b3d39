/** What the collection of one block's fees does to the store and the bank. */
module Fees {
  import opened GoTypes
  import opened ByteOrder
  import opened Bank
  import opened ProRata
  import opened ChainCodec
  import opened Provider

  /******* Collection *******/

  // A chain pays if it is asked to and its account covers the fee when the block starts.
  predicate Pays(env: Env, l: Ledger, denom: Str, fee: nat, k: Str)
    requires k in l.chains
  {
    Chargeable(l.chains[k]) && Bal(l.balances, ConsumerAddress(env, k), denom) >= fee
  }

  function Billed(env: Env, l: Ledger, denom: Str, fee: nat, k: Str): ConsumerChain
    requires k in l.chains
  {
    if !Chargeable(l.chains[k]) then l.chains[k]
    else l.chains[k].(status := if Pays(env, l, denom, fee, k) then ACTIVE else OVERDUE)
  }

  ghost function Payers(env: Env, l: Ledger, denom: Str, fee: nat, ks: set<Str>): set<Str>
    requires ks <= l.chains.Keys
  {
    set k | k in ks && Pays(env, l, denom, fee, k)
  }

  // The accounts the collection from the chains ks may touch.
  ghost predicate Touched(env: Env, ks: set<Str>, a: Str)
  {
    a == CollectorAddress(env) || exists k :: k in ks && ConsumerAddress(env, k) == a
  }

  /** The result of charging exactly the chains ks, read off the state before: statuses, the total,
      one debit for each payer, one credit of the total, and nothing else. */
  ghost predicate Collected(env: Env, l: Ledger, denom: Str, fee: nat, ks: set<Str>, r: Collection)
    requires ks <= l.chains.Keys
  {
    && StoreCollected(env, l, denom, fee, ks, r)
    && BankCollected(env, l, denom, fee, ks, r.ledger.balances)
    && Bal(r.ledger.balances, CollectorAddress(env), denom) == Bal(l.balances, CollectorAddress(env), denom) + r.total
  }

  ghost predicate StoreCollected(env: Env, l: Ledger, denom: Str, fee: nat, ks: set<Str>, r: Collection)
    requires ks <= l.chains.Keys
  {
    && r.error == None
    && r.ledger.params == l.params && r.ledger.accounts == l.accounts
    && r.ledger.chains == (map k | k in l.chains :: if k in ks then Billed(env, l, denom, fee, k) else l.chains[k])
    && r.total == fee * |Payers(env, l, denom, fee, ks)|
  }

  ghost predicate BankCollected(env: Env, l: Ledger, denom: Str, fee: nat, ks: set<Str>, b: Balances)
    requires ks <= l.chains.Keys
  {
    && (forall k :: k in ks ==> Bal(b, ConsumerAddress(env, k), denom) == DebitedBal(env, l, denom, fee, k))
    && (forall a, d :: d != denom || !Touched(env, ks, a) ==> Bal(b, a, d) == Bal(l.balances, a, d))
  }

  function DebitedBal(env: Env, l: Ledger, denom: Str, fee: nat, k: Str): int
    requires k in l.chains
  {
    Bal(l.balances, ConsumerAddress(env, k), denom) - (if Pays(env, l, denom, fee, k) then fee else 0)
  }

  // The balance is checked under the stored address and taken by module name: under the invariant
  // these are one account, so the transfer cannot fail.
  lemma ChargeCases(env: Env, l: Ledger, denom: Str, fee: nat, k: Str)
    requires GoodEnv(env) && GoodLedger(env, l) && k in l.chains
    ensures !Chargeable(l.chains[k]) ==> Charge(env, l, denom, fee, k) == Collection(l, 0, None)
    ensures Chargeable(l.chains[k]) && !Pays(env, l, denom, fee, k) ==>
              Charge(env, l, denom, fee, k)
              == Collection(l.(chains := l.chains[k := l.chains[k].(status := OVERDUE)]), 0, None)
    ensures Pays(env, l, denom, fee, k) ==>
              var sent := Send(l.balances, ConsumerAddress(env, k), CollectorAddress(env), denom, fee);
              && sent.Some?
              && Charge(env, l, denom, fee, k)
                 == Collection(l.(balances := sent.value, chains := l.chains[k := l.chains[k].(status := ACTIVE)]), fee, None)
  {
    assert GoodChain(env, k, l.chains[k]);
  }

  // The store after charging k, and who has paid.
  lemma ChargedChains(env: Env, l: Ledger, denom: Str, fee: nat, k: Str)
    requires GoodEnv(env) && GoodLedger(env, l) && k in l.chains
    ensures var r := Charge(env, l, denom, fee, k);
      && r.error == None && r.ledger.params == l.params && r.ledger.accounts == l.accounts
      && r.ledger.chains == l.chains[k := Billed(env, l, denom, fee, k)]
      && r.total == if Pays(env, l, denom, fee, k) then fee else 0
  {
    hide Charge, Send, Bal, GoodEnv, GoodLedger;
    ChargeCases(env, l, denom, fee, k);
    assert l.chains[k := l.chains[k]] == l.chains;
  }

  lemma OnePayer(env: Env, l: Ledger, denom: Str, fee: nat, k: Str)
    requires k in l.chains
    ensures Payers(env, l, denom, fee, {k}) == if Pays(env, l, denom, fee, k) then {k} else {}
  {
  }

  lemma BilledOne(env: Env, l: Ledger, denom: Str, fee: nat, k: Str)
    requires GoodLedger(env, l) && k in l.chains
    ensures l.chains[k := Billed(env, l, denom, fee, k)]
         == map x | x in l.chains :: if x in {k} then Billed(env, l, denom, fee, x) else l.chains[x]
    ensures GoodChain(env, k, Billed(env, l, denom, fee, k))
  {
    hide Pays;
    assert GoodChain(env, k, l.chains[k]);
  }

  lemma ChargeStore(env: Env, l: Ledger, denom: Str, fee: nat, k: Str)
    requires GoodEnv(env) && GoodLedger(env, l) && k in l.chains
    ensures StoreCollected(env, l, denom, fee, {k}, Charge(env, l, denom, fee, k))
    ensures Charge(env, l, denom, fee, k).error == None
    ensures GoodLedger(env, Charge(env, l, denom, fee, k).ledger)
  {
    hide Charge, Pays, Payers, Billed, GoodEnv, GoodChain;
    ChargedChains(env, l, denom, fee, k);
    OnePayer(env, l, denom, fee, k);
    BilledOne(env, l, denom, fee, k);
  }

  lemma ChargeBank(env: Env, l: Ledger, denom: Str, fee: nat, k: Str)
    requires GoodEnv(env) && GoodLedger(env, l) && k in l.chains
    ensures var r := Charge(env, l, denom, fee, k);
      && BankCollected(env, l, denom, fee, {k}, r.ledger.balances)
      && Bal(r.ledger.balances, CollectorAddress(env), denom) == Bal(l.balances, CollectorAddress(env), denom) + r.total
  {
    hide Charge, Send, Bal, GoodEnv;
    ChargeCases(env, l, denom, fee, k);
    AddressesDistinct(env, k, k);
    assert Touched(env, {k}, ConsumerAddress(env, k)) by { assert k in {k}; }
    if Pays(env, l, denom, fee, k) {
      forall a, d
        ensures Bal(Charge(env, l, denom, fee, k).ledger.balances, a, d) ==
            Bal(l.balances, a, d) - (if a == ConsumerAddress(env, k) && d == denom then fee else 0)
            + (if a == CollectorAddress(env) && d == denom then fee else 0)
      {
        SendEffect(l.balances, ConsumerAddress(env, k), CollectorAddress(env), denom, fee, a, d);
      }
    }
  }

  // Charging k first changes nothing for the chains that come later.
  lemma LaterChains(env: Env, l: Ledger, denom: Str, fee: nat, k: Str, ks: set<Str>)
    requires GoodEnv(env) && GoodLedger(env, l) && k in l.chains && ks <= l.chains.Keys && k !in ks
    ensures var l' := Charge(env, l, denom, fee, k).ledger;
      && l'.chains.Keys == l.chains.Keys
      && (forall x :: x in ks ==> Pays(env, l', denom, fee, x) == Pays(env, l, denom, fee, x))
      && (forall x :: x in ks ==> Billed(env, l', denom, fee, x) == Billed(env, l, denom, fee, x))
      && (forall x :: x in ks ==> DebitedBal(env, l', denom, fee, x) == DebitedBal(env, l, denom, fee, x))
      && Payers(env, l', denom, fee, ks) == Payers(env, l, denom, fee, ks)
  {
    hide Charge, Bal, GoodEnv;
    ChargeStore(env, l, denom, fee, k);
    ChargeBank(env, l, denom, fee, k);
    var l' := Charge(env, l, denom, fee, k).ledger;
    forall x | x in ks
      ensures l'.chains[x] == l.chains[x]
      ensures Bal(l'.balances, ConsumerAddress(env, x), denom) == Bal(l.balances, ConsumerAddress(env, x), denom)
    {
      AddressesDistinct(env, x, k);
      assert !Touched(env, {k}, ConsumerAddress(env, x));
    }
  }

  lemma PayersCons(env: Env, l: Ledger, denom: Str, fee: nat, k: Str, ks: set<Str>)
    requires k in l.chains && ks <= l.chains.Keys && k !in ks
    ensures |Payers(env, l, denom, fee, {k} + ks)| ==
            |Payers(env, l, denom, fee, {k})| + |Payers(env, l, denom, fee, ks)|
  {
    hide Pays;
    var one, rest := Payers(env, l, denom, fee, {k}), Payers(env, l, denom, fee, ks);
    assert Payers(env, l, denom, fee, {k} + ks) == one + rest;
    assert one !! rest;
  }

  // One charge followed by the charges of ks is the charge of them all.
  lemma StoreCons(env: Env, l: Ledger, denom: Str, fee: nat, k: Str, ks: set<Str>, rest: Collection)
    requires GoodEnv(env) && GoodLedger(env, l) && k in l.chains && ks <= l.chains.Keys && k !in ks
    requires ks <= Charge(env, l, denom, fee, k).ledger.chains.Keys
    requires StoreCollected(env, Charge(env, l, denom, fee, k).ledger, denom, fee, ks, rest)
    ensures StoreCollected(env, l, denom, fee, {k} + ks, rest.(total := Charge(env, l, denom, fee, k).total + rest.total))
  {
    hide Charge, Bal, Billed, Pays, Payers, GoodEnv, GoodLedger;
    ChargeStore(env, l, denom, fee, k);
    LaterChains(env, l, denom, fee, k, ks);
    PayersCons(env, l, denom, fee, k, ks);
    MulAdd(fee, |Payers(env, l, denom, fee, {k})|, |Payers(env, l, denom, fee, ks)|);
  }

  lemma BankCons(env: Env, l: Ledger, denom: Str, fee: nat, k: Str, ks: set<Str>, b: Balances)
    requires GoodEnv(env) && GoodLedger(env, l) && k in l.chains && ks <= l.chains.Keys && k !in ks
    requires ks <= Charge(env, l, denom, fee, k).ledger.chains.Keys
    requires BankCollected(env, Charge(env, l, denom, fee, k).ledger, denom, fee, ks, b)
    ensures BankCollected(env, l, denom, fee, {k} + ks, b)
  {
    hide Charge, Bal, Pays, Payers, Billed, DebitedBal, GoodEnv, GoodLedger, ConsumerAddress;
    ChargeBank(env, l, denom, fee, k);
    LaterChains(env, l, denom, fee, k, ks);
    forall y | y in ks ensures ConsumerAddress(env, y) != ConsumerAddress(env, k) {
      AddressesDistinct(env, y, k);
    }
    AddressesDistinct(env, k, k);
    assert !Touched(env, ks, ConsumerAddress(env, k));
    assert Bal(b, ConsumerAddress(env, k), denom) == DebitedBal(env, l, denom, fee, k) by { assert k in {k}; }
    forall a, d | d != denom || !Touched(env, {k} + ks, a)
      ensures Bal(b, a, d) == Bal(l.balances, a, d)
    {
      assert d == denom ==> !Touched(env, {k}, a) && !Touched(env, ks, a) by { assert k in {k} + ks; }
    }
  }

  /** Write-while-walking is harmless: charging the keys of any list without repetitions, each read
      from the live store, gives the result stated on the store as it was before the walk. */
  lemma {:induction false} CollectEffect(env: Env, l: Ledger, denom: Str, fee: nat, keys: seq<Str>)
    requires GoodEnv(env) && GoodLedger(env, l)
    requires Distinct(keys) && forall k :: k in keys ==> k in l.chains
    ensures Elements(keys) <= l.chains.Keys
    ensures Collected(env, l, denom, fee, Elements(keys), Collect(env, l, denom, fee, keys))
    ensures GoodLedger(env, Collect(env, l, denom, fee, keys).ledger)
    decreases |keys|
  {
    hide Charge, Bal, Billed, Pays, GoodEnv, GoodLedger, BankCollected, StoreCollected;
    if keys == [] {
      assert Elements(keys) == {};
      NothingCollected(env, l, denom, fee);
    } else {
      var k, ks := keys[0], Elements(keys[1..]);
      ElementsCons(k, keys[1..]);
      assert keys == [k] + keys[1..];
      ChargeStore(env, l, denom, fee, k);
      ChargeBank(env, l, denom, fee, k);
      var first := Charge(env, l, denom, fee, k);
      LaterChains(env, l, denom, fee, k, ks);
      var rest := Collect(env, first.ledger, denom, fee, keys[1..]);
      CollectEffect(env, first.ledger, denom, fee, keys[1..]);
      StoreCons(env, l, denom, fee, k, ks, rest);
      BankCons(env, l, denom, fee, k, ks, rest.ledger.balances);
    }
  }

  lemma NothingCollected(env: Env, l: Ledger, denom: Str, fee: nat)
    ensures Collected(env, l, denom, fee, {}, Collection(l, 0, None))
  {
    assert Payers(env, l, denom, fee, {}) == {};
  }

  // Any visiting order of the same keys gives the same statuses, total and balances.
  lemma CollectOrder(env: Env, l: Ledger, denom: Str, fee: nat, keys: seq<Str>, keys': seq<Str>, a: Str, d: Str)
    requires GoodEnv(env) && GoodLedger(env, l)
    requires Distinct(keys) && Distinct(keys') && Elements(keys) == Elements(keys') <= l.chains.Keys
    ensures forall k :: k in keys || k in keys' ==> k in l.chains
    ensures var r, r' := Collect(env, l, denom, fee, keys), Collect(env, l, denom, fee, keys');
      && r.error == r'.error == None && r.total == r'.total
      && r.ledger.chains == r'.ledger.chains
      && Bal(r.ledger.balances, a, d) == Bal(r'.ledger.balances, a, d)
  {
    assert forall k :: k in keys ==> k in Elements(keys);
    assert forall k :: k in keys' ==> k in Elements(keys');
    CollectEffect(env, l, denom, fee, keys);
    CollectEffect(env, l, denom, fee, keys');
    var ks := Elements(keys);
    if d == denom && a != CollectorAddress(env) && Touched(env, ks, a) {
      var k :| k in ks && ConsumerAddress(env, k) == a;
    }
  }

  // After an error-free pass over the whole store the ACTIVE chains are exactly those that paid.
  lemma ActiveAfterCollect(env: Env, l: Ledger, denom: Str, fee: nat, k: Str)
    requires GoodEnv(env) && GoodLedger(env, l) && k in l.chains
    ensures var r := Collect(env, l, denom, fee, SortedKeys(l.chains.Keys));
      && k in r.ledger.chains
      && (IsActive(r.ledger.chains[k]) <==> Pays(env, l, denom, fee, k))
      && r.total == fee * |set x | x in r.ledger.chains && IsActive(r.ledger.chains[x])|
  {
    hide Charge, Collect, Bal;
    var keys := SortedKeys(l.chains.Keys);
    SortedDistinct(keys);
    assert forall x :: x in keys ==> x in Elements(keys);
    CollectEffect(env, l, denom, fee, keys);
    var r := Collect(env, l, denom, fee, keys);
    assert Payers(env, l, denom, fee, Elements(keys)) == set x | x in r.ledger.chains && IsActive(r.ledger.chains[x]);
  }
}
