/**
 From the provider's store to the chains a block is sent to: filter, marshal, unmarshal, collect the
 IDs, dispatch. The ledger here is the one the provider answers the query from.
 */
module ActiveSet {
  import opened GoTypes
  import opened ByteOrder
  import opened ChainCodec
  import QueryCodec
  import opened ProRata
  import opened Provider
  import Fees
  import Distribution
  import Lifecycle
  import opened Mux

  function ActiveIds(l: Ledger): set<Str>
  {
    set k | k in l.chains && IsActive(l.chains[k])
  }

  // The response the query handler builds: no pagination.
  function Response(l: Ledger): QueryCodec.ActiveChains
  {
    QueryCodec.ActiveChains(ActiveConsumerChains(l), None)
  }

  function AnswerFrom(l: Ledger): Option<QueryReply>
  {
    Some(QueryReply(0, QueryCodec.EncodeResponse(Response(l))))
  }

  function IdsOf(cs: seq<ConsumerChain>): set<Str>
  {
    set c | c in cs :: c.chainId
  }

  lemma IdsCons(c: ConsumerChain, cs: seq<ConsumerChain>)
    ensures IdsOf([c] + cs) == {c.chainId} + IdsOf(cs)
  {
    var all := [c] + cs;
    assert all[0] == c && all[1..] == cs;
    forall x | x in IdsOf(cs) ensures x in IdsOf(all) {
      var d :| d in cs && d.chainId == x;
      assert d in all;
    }
  }

  // The filter keeps the ACTIVE chains of the keys walked, each under its own ID.
  lemma {:induction false} FilteredIds(env: Env, chains: map<Str, ConsumerChain>, keys: seq<Str>)
    requires forall k :: k in keys ==> k in chains && GoodChain(env, k, chains[k])
    ensures IdsOf(KeepActive(Values(chains, keys))) == set k | k in Elements(keys) && k in chains && IsActive(chains[k])
  {
    hide Elements, IdsOf, GoodChain;
    if keys == [] {
      NoIds();
    } else {
      var k, rest := keys[0], keys[1..];
      FilteredIds(env, chains, rest);
      ElementsCons(k, rest);
      assert keys == [k] + rest;
      IdsCons(chains[k], KeepActive(Values(chains, rest)));
      assert chains[k].chainId == k by { KeyIsId(env, k, chains[k]); }
      assert [] + KeepActive(Values(chains, rest)) == KeepActive(Values(chains, rest));
    }
  }

  // The list of the query: every ACTIVE (2) entry of the store once, in the order of the keys.
  lemma {:induction false} Listed(chains: map<Str, ConsumerChain>, keys: seq<Str>) returns (kept: seq<Str>)
    requires Sorted(keys) && forall k :: k in keys ==> k in chains
    ensures Sorted(kept) && forall k :: k in kept <==> k in keys && k in chains && chains[k].status == 2
    ensures Lists(chains, kept, KeepActive(Values(chains, keys)))
  {
    hide Sorted, KeepActive, Values, Lists;
    if keys == [] {
      kept := [];
      NoneListed(chains);
    } else {
      var k, rest := keys[0], keys[1..];
      FirstKey(keys);
      kept := Listed(chains, rest);
      OneListed(chains, keys, kept);
      assert forall x :: x in keys <==> x == k || x in rest by { assert keys == [k] + rest; }
      if chains[k].status == 2 {
        kept := [k] + kept;
      }
    }
  }

  // The chains are those stored under the keys.
  ghost predicate Lists(chains: map<Str, ConsumerChain>, keys: seq<Str>, cs: seq<ConsumerChain>)
  {
    |cs| == |keys| && forall i :: 0 <= i < |keys| ==> keys[i] in chains && cs[i] == chains[keys[i]]
  }

  lemma NoneListed(chains: map<Str, ConsumerChain>)
    ensures Sorted([]) && Lists(chains, [], KeepActive(Values(chains, [])))
  {
  }

  lemma FirstKey(keys: seq<Str>)
    requires Sorted(keys) && keys != []
    ensures Sorted(keys[1..]) && forall k :: k in keys[1..] ==> Less(keys[0], k)
  {
    hide Less;
  }

  lemma KeepFirst(chains: map<Str, ConsumerChain>, keys: seq<Str>)
    requires keys != [] && forall k :: k in keys ==> k in chains
    ensures KeepActive(Values(chains, keys))
         == (if chains[keys[0]].status == 2 then [chains[keys[0]]] else []) + KeepActive(Values(chains, keys[1..]))
  {
    var cs := Values(chains, keys);
    assert cs[0] == chains[keys[0]] && cs[1..] == Values(chains, keys[1..]);
  }

  lemma SortedCons(k: Str, kept: seq<Str>)
    requires Sorted(kept) && forall x :: x in kept ==> Less(k, x)
    ensures Sorted([k] + kept)
  {
    hide Less;
  }

  lemma OneListed(chains: map<Str, ConsumerChain>, keys: seq<Str>, kept: seq<Str>)
    requires keys != [] && forall k :: k in keys ==> k in chains
    requires Sorted(kept) && Lists(chains, kept, KeepActive(Values(chains, keys[1..])))
    requires forall k :: k in kept ==> Less(keys[0], k)
    ensures chains[keys[0]].status == 2 ==>
              Sorted([keys[0]] + kept) && Lists(chains, [keys[0]] + kept, KeepActive(Values(chains, keys)))
    ensures chains[keys[0]].status != 2 ==> Lists(chains, kept, KeepActive(Values(chains, keys)))
  {
    hide Less, Sorted, Values, KeepActive;
    KeepFirst(chains, keys);
    SortedCons(keys[0], kept);
    var rest := KeepActive(Values(chains, keys[1..]));
    assert [] + rest == rest;
  }

  lemma ActiveListed(l: Ledger) returns (kept: seq<Str>)
    ensures Sorted(kept) && forall k :: k in kept <==> k in l.chains && l.chains[k].status == 2
    ensures Lists(l.chains, kept, ActiveConsumerChains(l))
  {
    WalkedKeys(l.chains.Keys);
    kept := Listed(l.chains, SortedKeys(l.chains.Keys));
  }

  lemma NoIds()
    ensures IdsOf([]) == {} && Elements([]) == {}
  {
  }

  lemma KeyIsId(env: Env, k: Str, c: ConsumerChain)
    requires GoodChain(env, k, c)
    ensures c.chainId == k
  {
  }

  lemma WalkedKeys(keys: set<Str>)
    ensures forall k :: k in SortedKeys(keys) <==> k in keys
  {
    assert forall k :: k in SortedKeys(keys) <==> k in Elements(SortedKeys(keys));
  }

  /** Agreement: what the multiplexer decodes from the provider's answer is the set of IDs whose
      status is ACTIVE in the queried store, no more and no less. */
  lemma QueryAgrees(env: Env, cfg: Config, l: Ledger)
    requires GoodLedger(env, l) && |AnswerFrom(l).value.value| <= MAX_INT
    ensures QueriedIds(cfg, AnswerFrom(l)) == Some(ActiveIds(l))
  {
    hide QueryCodec.EncodeResponse, QueryCodec.DecodeResponse, SortedKeys, Values, KeepActive, GoodChain, Elements;
    QueryCodec.ResponseRoundTrip(cfg.pages, Response(l));
    WalkedKeys(l.chains.Keys);
    FilteredIds(env, l.chains, SortedKeys(l.chains.Keys));
    assert ChainIds(Response(l)) == IdsOf(ActiveConsumerChains(l));
    assert IdsOf(ActiveConsumerChains(l)) == ActiveIds(l);
  }

  /** So a block above height 1 is dispatched to exactly the chains that are ACTIVE in that store,
      registered, not rejected, and initialized by then; to none that is PENDING, OVERDUE, SUNSET or
      REMOVED, whatever the multiplexer believed before. */
  lemma DispatchedAreActive(env: Env, cfg: Config, m: Mux, req: Request, l: Ledger, apps: Str -> Consumer, c: Str)
    requires GoodLedger(env, l) && |AnswerFrom(l).value.value| <= MAX_INT && req.height > 1
    ensures c in Dispatched(Refreshed(cfg, m, req, AnswerFrom(l)), req, apps) <==>
        && c in l.chains && l.chains[c].status == ACTIVE
        && c in m.handlers && c !in m.rejected
        && (c in m.initialized || Initializes(m, req, apps(c), c))
  {
    hide QueriedIds, AnswerFrom;
    QueryAgrees(env, cfg, l);
  }

  lemma StoreAfterBlock(env: Env, l: Ledger, bonded: Option<seq<Validator>>)
    requires GoodLedger(env, l) && l.params.Some? && l.params.value.feesPerBlock.amount > 0
    ensures forall k :: k in SortedKeys(l.chains.Keys) ==> k in l.chains
    ensures var p := l.params.value.feesPerBlock;
      BeginBlock(env, l, bonded).ledger.chains
      == Collect(env, l, p.denom, p.amount, SortedKeys(l.chains.Keys)).ledger.chains
  {
    hide Collect, Pay, TotalPower, SortedKeys;
    WalkedKeys(l.chains.Keys);
  }

  // Who is ACTIVE after a BeginBlocker that charges a fee: those that could pay.
  lemma ActiveIffPaid(env: Env, before: Ledger, bonded: Option<seq<Validator>>, c: Str)
    requires GoodEnv(env) && GoodLedger(env, before)
    requires before.params.Some? && before.params.value.feesPerBlock.amount > 0
    ensures var fee := before.params.value.feesPerBlock;
      var l := BeginBlock(env, before, bonded).ledger;
      c in ActiveIds(l) <==> c in before.chains && Fees.Pays(env, before, fee.denom, fee.amount, c)
  {
    hide BeginBlock, Collect, GoodEnv, GoodChain, SortedKeys, Fees.Pays;
    var fee := before.params.value.feesPerBlock;
    Lifecycle.BeginBlockStore(env, before, bonded);
    StoreAfterBlock(env, before, bonded);
    if c in before.chains {
      Fees.ActiveAfterCollect(env, before, fee.denom, fee.amount, c);
    }
  }

  // The rest of a block: messages and transfers, no BeginBlocker.
  predicate Deliveries(ops: seq<Lifecycle.Op>)
  {
    forall i :: 0 <= i < |ops| ==> !ops[i].BeginBlockOp?
  }

  // One message or transfer ends a chain or leaves its status alone, and makes none ACTIVE.
  lemma DeliveryKeeps(env: Env, l: Ledger, op: Lifecycle.Op, c: Str)
    requires GoodEnv(env) && GoodLedger(env, l) && !op.BeginBlockOp?
    ensures var l' := Lifecycle.Apply(env, l, op).ledger;
      c in ActiveIds(l') <==> c in ActiveIds(l) && c in l'.chains && !Lifecycle.Ended(l'.chains[c].status)
  {
    hide GoodEnv, CheckSigner, BeginBlock;
    assert forall k :: k in l.chains ==> GoodChain(env, k, l.chains[k]);
  }

  lemma {:induction false} DeliveriesKeep(env: Env, l: Ledger, ops: seq<Lifecycle.Op>, c: Str)
    requires GoodEnv(env) && GoodLedger(env, l) && Deliveries(ops)
    ensures var l' := Lifecycle.Run(env, l, ops);
      c in ActiveIds(l') <==> c in ActiveIds(l) && c in l'.chains && !Lifecycle.Ended(l'.chains[c].status)
    decreases |ops|
  {
    hide GoodEnv, GoodChain, Lifecycle.Apply;
    if ops != [] {
      Lifecycle.ApplyStep(env, l, ops[0]);
      DeliveryKeeps(env, l, ops[0], c);
      var next := Lifecycle.Apply(env, l, ops[0]).ledger;
      DeliveriesKeep(env, next, ops[1..], c);
      if c in next.chains && Lifecycle.Ended(next.chains[c].status) {
        Lifecycle.EndedForever(env, next, ops[1..], c, 0);
      }
    }
  }

  lemma BlockThenRest(env: Env, before: Ledger, bonded: Option<seq<Validator>>, ops: seq<Lifecycle.Op>)
    requires GoodEnv(env) && GoodLedger(env, before)
    ensures var after := BeginBlock(env, before, bonded).ledger;
      && GoodLedger(env, after)
      && Lifecycle.Run(env, before, [Lifecycle.BeginBlockOp(bonded)] + ops) == Lifecycle.Run(env, after, ops)
  {
    hide BeginBlock, GoodEnv, GoodChain;
    Distribution.BeginBlockErrors(env, before, bonded);
    var all := [Lifecycle.BeginBlockOp(bonded)] + ops;
    assert all[1..] == ops;
  }

  /** Fees decide who runs. Take a BeginBlocker that charges a fee, however its distribution turns out,
      and then any messages and transfers of the block. A registered chain in good standing is sent the
      block answered from the ledger they leave iff it was billed (ACTIVE or OVERDUE), its account
      covered the fee, and no message has ended it since. */
  lemma DispatchedIffPaid(env: Env, cfg: Config, m: Mux, req: Request, before: Ledger,
                          bonded: Option<seq<Validator>>, ops: seq<Lifecycle.Op>, apps: Str -> Consumer, c: Str)
    requires GoodEnv(env) && GoodLedger(env, before) && Deliveries(ops)
    requires before.params.Some? && before.params.value.feesPerBlock.amount > 0
    requires |AnswerFrom(Lifecycle.Run(env, before, [Lifecycle.BeginBlockOp(bonded)] + ops)).value.value| <= MAX_INT
    requires req.height > 1 && c in m.handlers && c in m.initialized && c !in m.rejected
    ensures var l := Lifecycle.Run(env, before, [Lifecycle.BeginBlockOp(bonded)] + ops);
      var fee := before.params.value.feesPerBlock;
      c in Dispatched(Refreshed(cfg, m, req, AnswerFrom(l)), req, apps) <==>
        && c in before.chains && Fees.Pays(env, before, fee.denom, fee.amount, c)
        && c in l.chains && !Lifecycle.Ended(l.chains[c].status)
  {
    hide BeginBlock, AnswerFrom, Dispatched, GoodEnv, GoodChain, Fees.Pays, Lifecycle.Run;
    var after := BeginBlock(env, before, bonded).ledger;
    BlockThenRest(env, before, bonded, ops);
    var l := Lifecycle.Run(env, after, ops);
    Lifecycle.RunInvariant(env, after, ops, c);
    ActiveIffPaid(env, before, bonded, c);
    DeliveriesKeep(env, after, ops, c);
    DispatchedAreActive(env, cfg, m, req, l, apps, c);
  }

  // Over any run of messages, blocks and transfers: whoever is ACTIVE at the end was ACTIVE or OVERDUE
  // at its start.
  lemma ActiveSinceStart(env: Env, l: Ledger, ops: seq<Lifecycle.Op>, c: Str)
    requires GoodEnv(env) && GoodLedger(env, l)
    requires c in ActiveIds(Lifecycle.Run(env, l, ops))
    ensures c in l.chains && Chargeable(l.chains[c])
  {
    hide Lifecycle.Run, GoodEnv, GoodChain;
    Lifecycle.RunInvariant(env, l, ops, c);
  }
}
