/** The consumer store over every run of messages, BeginBlockers and bank transfers. */
module Lifecycle {
  import opened GoTypes
  import opened ByteOrder
  import opened Bank
  import opened ProRata
  import opened ChainCodec
  import opened Provider
  import opened Fees
  import opened Distribution

  datatype Op =
    | UpdateParamsOp(signer: Str, params: Params)
    | AddOp(height: int64, add: AddRequest)
    | SunsetOp(height: int64, signer: Str, chainId: Str, blockHeight: int64)
    | UpgradeOp(height: int64, upgrade: UpgradeRequest)
    | BeginBlockOp(bonded: Option<seq<Validator>>)
    | TransferOp(from: Str, to: Str, denom: Str, amount: nat)   // any other bank activity

  function Apply(env: Env, l: Ledger, op: Op): Outcome
    requires FeesNotNegative(l)
  {
    match op
    case UpdateParamsOp(signer, params) => UpdateParams(env, l, signer, params)
    case AddOp(height, req) => AddConsumer(env, l, height, req)
    case SunsetOp(height, signer, chainId, blockHeight) => SunsetConsumer(env, l, height, signer, chainId, blockHeight)
    case UpgradeOp(height, req) => UpgradeConsumer(env, l, height, req)
    case BeginBlockOp(bonded) => BeginBlock(env, l, bonded)
    case TransferOp(from, to, denom, amount) =>
      match Send(l.balances, from, to, denom, amount)
      case None => Outcome(l, Some(InsufficientFunds))
      case Some(b) => Outcome(l.(balances := b), None)
  }

  predicate Ended(status: int32)
  {
    status == SUNSET || status == REMOVED
  }

  // The status machine: paying and failing to pay go back and forth, ending is for good.
  predicate Reaches(s: int32, t: int32)
  {
    || s == t
    || ((s == ACTIVE || s == OVERDUE) && (t == ACTIVE || t == OVERDUE))
    || (!Ended(s) && Ended(t))
  }

  // Identity, version, start height and account never change; an ended chain does not change at all.
  predicate Evolves(c: ConsumerChain, c': ConsumerChain)
  {
    && Reaches(c.status, c'.status)
    && c' == c.(status := c'.status, sunsetAt := c'.sunsetAt)
    && (Ended(c.status) ==> c' == c)
    && (!Ended(c'.status) ==> c'.sunsetAt == c.sunsetAt)
  }

  lemma EvolvesTrans(a: ConsumerChain, b: ConsumerChain, c: ConsumerChain)
    requires Evolves(a, b) && Evolves(b, c)
    ensures Evolves(a, c)
  {
  }

  // Only the message that adds a chain creates a store entry, and it creates a PENDING one.
  ghost predicate StoreStep(l: Ledger, l': Ledger)
  {
    && (forall k :: k in l.chains ==> k in l'.chains && Evolves(l.chains[k], l'.chains[k]))
    && (forall k :: k in l'.chains && k !in l.chains ==> l'.chains[k].status == PENDING)
  }

  lemma BeginBlockStore(env: Env, l: Ledger, bonded: Option<seq<Validator>>)
    requires GoodEnv(env) && GoodLedger(env, l)
    ensures StoreStep(l, BeginBlock(env, l, bonded).ledger)
  {
    hide Collect, Pay, Payers, GoodEnv, GoodChain, SortedKeys, TotalPower, Bal, BankCollected;
    if l.params.Some? && l.params.value.feesPerBlock.amount > 0 {
      var denom, fee := l.params.value.feesPerBlock.denom, l.params.value.feesPerBlock.amount;
      CollectWholeStore(env, l, denom, fee);
      var c := Collect(env, l, denom, fee, SortedKeys(l.chains.Keys));
      assert BeginBlock(env, l, bonded).ledger.chains == c.ledger.chains;
      forall k | k in l.chains ensures k in c.ledger.chains && Evolves(l.chains[k], c.ledger.chains[k]) {
        assert c.ledger.chains[k] == Billed(env, l, denom, fee, k);
      }
    }
  }

  // Replacing one entry by one it evolves to keeps the invariant.
  lemma PutStep(env: Env, l: Ledger, l': Ledger, k: Str, c: ConsumerChain)
    requires GoodLedger(env, l) && k in l.chains && Evolves(l.chains[k], c)
    requires l' == l.(chains := l.chains[k := c])
    ensures GoodLedger(env, l') && StoreStep(l, l')
  {
    assert GoodChain(env, k, l.chains[k]);
    forall x | x in l.chains ensures Evolves(l.chains[x], l'.chains[x]) {
      EvolvesRefl(l.chains[x]);
    }
  }

  lemma SameStore(l: Ledger, l': Ledger)
    requires l'.chains == l.chains
    ensures StoreStep(l, l')
  {
  }

  lemma AddStep(env: Env, l: Ledger, height: int64, req: AddRequest)
    requires GoodLedger(env, l)
    ensures GoodLedger(env, AddConsumer(env, l, height, req).ledger)
    ensures StoreStep(l, AddConsumer(env, l, height, req).ledger)
  {
    hide CheckSigner;
  }

  lemma SunsetStep(env: Env, l: Ledger, height: int64, signer: Str, k: Str, at: int64)
    requires GoodLedger(env, l)
    ensures GoodLedger(env, SunsetConsumer(env, l, height, signer, k, at).ledger)
    ensures StoreStep(l, SunsetConsumer(env, l, height, signer, k, at).ledger)
  {
    hide CheckSigner, GoodLedger, StoreStep;
    var l' := SunsetConsumer(env, l, height, signer, k, at).ledger;
    if SunsetConsumer(env, l, height, signer, k, at).error.None? {
      StoredAs(env, l, k);
      PutStep(env, l, l', k, l.chains[k].(status := if at <= height then REMOVED else SUNSET, sunsetAt := at));
    } else {
      SameStore(l, l');
    }
  }

  lemma StoredAs(env: Env, l: Ledger, k: Str)
    requires GoodLedger(env, l) && k in l.chains
    ensures l.chains[k].chainId == k
  {
    assert GoodChain(env, k, l.chains[k]);
  }

  lemma ApplyStep(env: Env, l: Ledger, op: Op)
    requires GoodEnv(env) && GoodLedger(env, l)
    ensures GoodLedger(env, Apply(env, l, op).ledger)
    ensures StoreStep(l, Apply(env, l, op).ledger)
  {
    hide BeginBlock, GoodEnv, GoodChain, Send, CheckSigner, StoreStep, AddConsumer, SunsetConsumer, UpgradeConsumer;
    match op
    case AddOp(height, req) => AddStep(env, l, height, req);
    case SunsetOp(height, signer, k, at) => SunsetStep(env, l, height, signer, k, at);
    case UpgradeOp(height, req) =>
      UpgradeChangesNothing(env, l, height, req);
      SameStore(l, l);
    case BeginBlockOp(bonded) =>
      BeginBlockErrors(env, l, bonded);
      BeginBlockStore(env, l, bonded);
    case UpdateParamsOp(_, _) => SameStore(l, Apply(env, l, op).ledger);
    case TransferOp(_, _, _, _) => SameStore(l, Apply(env, l, op).ledger);
  }

  // An upgrade announces an event; the stored chains stay as they are.
  lemma UpgradeChangesNothing(env: Env, l: Ledger, height: int64, req: UpgradeRequest)
    requires GoodLedger(env, l)
    ensures UpgradeConsumer(env, l, height, req).ledger == l
  {
    if req.chainId in l.chains {
      assert GoodChain(env, req.chainId, l.chains[req.chainId]);
      assert l.chains[req.chainId := l.chains[req.chainId]] == l.chains;
    }
  }

  ghost function Run(env: Env, l: Ledger, ops: seq<Op>): Ledger
    requires GoodEnv(env) && GoodLedger(env, l)
    decreases |ops|
  {
    if ops == [] then l
    else
      ApplyStep(env, l, ops[0]);
      Run(env, Apply(env, l, ops[0]).ledger, ops[1..])
  }

  /** Over every run: the store invariant holds, no entry is ever deleted, each evolves as the status
      machine allows, and an entry made during the run is PENDING, SUNSET or REMOVED: no message
      and no block activates a chain, so only genesis makes chains that pay and are dispatched. */
  lemma {:induction false} RunInvariant(env: Env, l: Ledger, ops: seq<Op>, k: Str)
    requires GoodEnv(env) && GoodLedger(env, l)
    ensures GoodLedger(env, Run(env, l, ops))
    ensures k in l.chains ==> k in Run(env, l, ops).chains && Evolves(l.chains[k], Run(env, l, ops).chains[k])
    ensures k in Run(env, l, ops).chains && k !in l.chains ==>
              Run(env, l, ops).chains[k].status == PENDING || Ended(Run(env, l, ops).chains[k].status)
    decreases |ops|
  {
    hide Apply, GoodEnv, GoodChain, Evolves;
    if ops == [] {
      if k in l.chains {
        EvolvesRefl(l.chains[k]);
      }
    } else {
      ApplyStep(env, l, ops[0]);
      var l' := Apply(env, l, ops[0]).ledger;
      RunInvariant(env, l', ops[1..], k);
      if k in l.chains {
        EvolvesTrans(l.chains[k], l'.chains[k], Run(env, l', ops[1..]).chains[k]);
      } else if k in l'.chains {
        PendingEvolves(l'.chains[k], Run(env, l', ops[1..]).chains[k]);
      }
    }
  }

  lemma EvolvesRefl(c: ConsumerChain)
    ensures Evolves(c, c)
  {
  }

  lemma PendingEvolves(c: ConsumerChain, c': ConsumerChain)
    requires Evolves(c, c') && c.status == PENDING
    ensures c'.status == PENDING || Ended(c'.status)
  {
  }

  // A chain that was sunset or removed is out for good: whatever happens afterwards, its entry stays
  // as it is, it is never charged, and no message to sunset or upgrade it succeeds.
  lemma EndedForever(env: Env, l: Ledger, ops: seq<Op>, k: Str, height: int64)
    requires GoodEnv(env) && GoodLedger(env, l) && k in l.chains && Ended(l.chains[k].status)
    ensures var l' := Run(env, l, ops);
      && k in l'.chains && l'.chains[k] == l.chains[k]
      && (forall denom, fee :: !Pays(env, l', denom, fee, k))
      && (forall signer, at :: SunsetConsumer(env, l', height, signer, k, at).error.Some?)
      && (forall req: UpgradeRequest :: req.chainId == k ==> UpgradeConsumer(env, l', height, req).error.Some?)
  {
    hide Run, GoodEnv, GoodChain, Bal;
    RunInvariant(env, l, ops, k);
  }

  /** Sunsetting succeeds for the authority only, for a stored chain that has not ended, and a height that
      is not negative. The chain is REMOVED if the height has come and SUNSET if not, at that height, and
      stays so over every run: a SUNSET chain is not moved on to REMOVED. */
  lemma SunsetIsFinal(env: Env, l: Ledger, height: int64, signer: Str, k: Str, at: int64, ops: seq<Op>)
    requires GoodEnv(env) && GoodLedger(env, l)
    ensures SunsetConsumer(env, l, height, signer, k, at).error == None <==>
              env.parse(signer) == Some(env.authority) && k != [] && at >= 0 && k in l.chains && !Ended(l.chains[k].status)
    ensures var l' := SunsetConsumer(env, l, height, signer, k, at).ledger;
      SunsetConsumer(env, l, height, signer, k, at).error == None ==>
        && GoodLedger(env, l') && k in Run(env, l', ops).chains
        && Run(env, l', ops).chains[k]
           == l.chains[k].(status := if at <= height then REMOVED else SUNSET, sunsetAt := at)
  {
    hide Run, GoodEnv;
    if SunsetConsumer(env, l, height, signer, k, at).error == None {
      ApplyStep(env, l, SunsetOp(height, signer, k, at));
      assert GoodChain(env, k, l.chains[k]);
      EndedForever(env, SunsetConsumer(env, l, height, signer, k, at).ledger, ops, k, height);
    }
  }

  /** Adding a chain succeeds for the authority only, for a fresh nonempty ID and a future height; from
      then on, whatever the run, the entry keeps the requested name, version and start height, its
      own account, and a status that is not ACTIVE or OVERDUE. */
  lemma AddedChainStays(env: Env, l: Ledger, height: int64, req: AddRequest, ops: seq<Op>)
    requires GoodEnv(env) && GoodLedger(env, l)
    ensures AddConsumer(env, l, height, req).error == None <==>
              && env.parse(req.authority) == Some(env.authority) && req.chainId != []
              && req.chainId !in l.chains && req.blockHeight >= 0 && req.blockHeight > height
    ensures var l' := AddConsumer(env, l, height, req).ledger;
      AddConsumer(env, l, height, req).error == None ==>
        && GoodLedger(env, l')
        && ConsumerAddress(env, req.chainId) in l'.accounts
        && req.chainId in Run(env, l', ops).chains
        && var c := Run(env, l', ops).chains[req.chainId];
           && c.name == req.name && c.version == req.version && c.addedAt == req.blockHeight
           && GoodChain(env, req.chainId, c)
           && ((c.status == PENDING && c.sunsetAt == 0) || Ended(c.status))
  {
    hide Run, GoodEnv;
    if AddConsumer(env, l, height, req).error == None {
      ApplyStep(env, l, AddOp(height, req));
      var l' := AddConsumer(env, l, height, req).ledger;
      RunInvariant(env, l', ops, req.chainId);
      PendingEvolves(l'.chains[req.chainId], Run(env, l', ops).chains[req.chainId]);
    }
  }

  // The chain a message is about.
  function Target(op: Op): Option<Str>
  {
    match op
    case AddOp(_, req) => Some(req.chainId)
    case SunsetOp(_, _, k, _) => Some(k)
    case _ => None
  }

  // What a message or transfer leaves alone: everything if it is refused; otherwise the entries of the other
  // chains, all accounts but the new chain's, the balances unless it is a transfer, and the parameters.
  lemma MessageFrame(env: Env, l: Ledger, op: Op, k: Str)
    requires GoodLedger(env, l) && !op.BeginBlockOp?
    ensures var r := Apply(env, l, op);
      && (r.error.Some? ==> r.ledger == l)
      && (Target(op) != Some(k) ==> (k in r.ledger.chains <==> k in l.chains))
      && (Target(op) != Some(k) && k in l.chains ==> r.ledger.chains[k] == l.chains[k])
      && (r.ledger.accounts
          == l.accounts + if op.AddOp? && r.error.None? then {ConsumerAddress(env, op.add.chainId)} else {})
      && (!op.TransferOp? ==> r.ledger.balances == l.balances)
      && (!op.UpdateParamsOp? ==> r.ledger.params == l.params)
  {
    hide CheckSigner, ConsumerAddress;
    match op
    case SunsetOp(_, _, id, _) =>
      if id in l.chains {
        StoredAs(env, l, id);
      }
    case UpgradeOp(height, req) =>
      UpgradeChangesNothing(env, l, height, req);
    case _ =>
  }

  /** Parameters over every run: they are those of the last update that was signed by the authority with a fee
      and a window that are not negative, or the first ones if there was none. An update that is refused
      changes nothing, an accepted one only the parameters. */
  lemma {:induction false} ParamsSource(env: Env, l: Ledger, ops: seq<Op>) returns (k: Option<nat>)
    requires GoodEnv(env) && GoodLedger(env, l)
    ensures k.None? ==> Run(env, l, ops).params == l.params && forall i :: 0 <= i < |ops| ==> !Updates(env, ops[i])
    ensures k.Some? ==> && k.value < |ops| && Updates(env, ops[k.value])
                        && Run(env, l, ops).params == Some(ops[k.value].params)
                        && forall i :: k.value < i < |ops| ==> !Updates(env, ops[i])
    decreases |ops|
  {
    hide Apply, GoodEnv, GoodLedger, Updates;
    k := None;
    if ops != [] {
      ApplyStep(env, l, ops[0]);
      UpdateMeans(env, l, ops[0]);
      GoodFees(env, l);
      var rest := ParamsSource(env, Apply(env, l, ops[0]).ledger, ops[1..]);
      if rest.Some? {
        k := Some(rest.value + 1);
        assert forall i :: k.value < i < |ops| ==> ops[i] == ops[1..][i - 1];
      } else {
        k := if Updates(env, ops[0]) then Some(0) else None;
        assert forall i :: 0 < i < |ops| ==> ops[i] == ops[1..][i - 1];
      }
    }
  }

  // The operation is an update of the parameters that is accepted.
  predicate Updates(env: Env, op: Op)
  {
    && op.UpdateParamsOp? && env.parse(op.signer) == Some(env.authority)
    && op.params.feesPerBlock.amount >= 0 && op.params.downtimeSlashingWindow >= 0
  }

  lemma UpdateMeans(env: Env, l: Ledger, op: Op)
    requires GoodEnv(env) && GoodLedger(env, l)
    ensures Apply(env, l, op).ledger.params == if Updates(env, op) then Some(op.params) else l.params
    ensures op.UpdateParamsOp? ==> (Apply(env, l, op).error == None <==> Updates(env, op))
    ensures op.UpdateParamsOp? ==> Apply(env, l, op).ledger == l.(params := Apply(env, l, op).ledger.params)
  {
    hide BeginBlock, GoodEnv, GoodLedger, Supply;
    if op.BeginBlockOp? {
      GoodFees(env, l);
      BeginBlockConserves(env, l, op.bonded, []);
    }
  }

  lemma GoodFees(env: Env, l: Ledger)
    requires GoodLedger(env, l)
    ensures FeesNotNegative(l)
  {
  }

  // Exactly when an upgrade is announced: for a chain that is PENDING (1), ACTIVE (2) or OVERDUE (5).
  lemma UpgradeAccepted(env: Env, l: Ledger, height: int64, req: UpgradeRequest)
    ensures UpgradeConsumer(env, l, height, req).error == None <==>
              && env.parse(req.authority) == Some(env.authority)
              && req.chainId != [] && req.version != [] && req.blockHeight >= 0 && req.blockHeight > height
              && req.chainId in l.chains
              && var s := l.chains[req.chainId].status; s == 1 || s == 2 || s == 5
  {
  }

  // Money over runs: messages move none, transfers and blocks make none.
  lemma {:induction false} RunSupply(env: Env, l: Ledger, ops: seq<Op>, d: Str)
    requires GoodEnv(env) && GoodLedger(env, l)
    ensures Supply(Run(env, l, ops).balances, d) == Supply(l.balances, d)
    decreases |ops|
  {
    hide BeginBlock, GoodEnv, GoodChain, Supply;
    if ops != [] {
      var op := ops[0];
      ApplyStep(env, l, op);
      if op.BeginBlockOp? {
        BeginBlockConserves(env, l, op.bonded, d);
      } else if op.TransferOp? && Send(l.balances, op.from, op.to, op.denom, op.amount).Some? {
        SendConserves(l.balances, op.from, op.to, op.denom, op.amount, d);
      }
      RunSupply(env, Apply(env, l, op).ledger, ops[1..], d);
    }
  }

  // Transfers that neither take from the fee collector nor give to it.
  predicate LeavesCollector(env: Env, op: Op)
  {
    op.TransferOp? ==> op.from != CollectorAddress(env) && op.to != CollectorAddress(env)
  }

  // What the blocks of a run can leave in the fee collector at most: one unit less than the number of
  // validators for each block that can pay them, the revenue of each other block.
  ghost function MostLeftOver(env: Env, l: Ledger, ops: seq<Op>, d: Str): nat
    requires GoodEnv(env) && GoodLedger(env, l)
    decreases |ops|
  {
    if ops == [] then 0
    else
      ApplyStep(env, l, ops[0]);
      (if ops[0].BeginBlockOp? then MostLeft(env, l, ops[0].bonded, d) else 0)
      + MostLeftOver(env, Apply(env, l, ops[0]).ledger, ops[1..], d)
  }

  lemma MessageMovesNothing(env: Env, l: Ledger, op: Op, d: Str)
    requires FeesNotNegative(l) && !op.BeginBlockOp? && LeavesCollector(env, op)
    ensures Bal(Apply(env, l, op).ledger.balances, CollectorAddress(env), d) == Bal(l.balances, CollectorAddress(env), d)
  {
    hide Bal, CheckSigner;
    if op.TransferOp? && Send(l.balances, op.from, op.to, op.denom, op.amount).Some? {
      SendEffect(l.balances, op.from, op.to, op.denom, op.amount, CollectorAddress(env), d);
    }
  }

  /** Dust over every run of messages, blocks and transfers that leave the fee collector alone, in any
      denomination, fee changes included: the fee collector never shrinks, and gains at most the dust of
      the blocks that could pay their validators and the revenue of those that could not. */
  lemma {:induction false} DustOverRuns(env: Env, l: Ledger, ops: seq<Op>, d: Str)
    requires GoodEnv(env) && GoodLedger(env, l)
    requires forall i :: 0 <= i < |ops| ==> LeavesCollector(env, ops[i])
    ensures var before, after := Bal(l.balances, CollectorAddress(env), d),
                                 Bal(Run(env, l, ops).balances, CollectorAddress(env), d);
      before <= after <= before + MostLeftOver(env, l, ops, d)
    decreases |ops|
  {
    hide Apply, BeginBlock, Bal, GoodEnv, GoodChain, MostLeft, LeavesCollector, CollectorAddress;
    if ops != [] {
      var op, l' := ops[0], Apply(env, l, ops[0]).ledger;
      ApplyStep(env, l, op);
      if op.BeginBlockOp? {
        ApplyBlock(env, l, op);
        BeginBlockLeaves(env, l, op.bonded, d);
      } else {
        MessageMovesNothing(env, l, op, d);
      }
      forall i | 0 <= i < |ops[1..]| ensures LeavesCollector(env, ops[1..][i]) {
        assert ops[1..][i] == ops[i + 1];
      }
      DustOverRuns(env, l', ops[1..], d);
    }
  }

  lemma ApplyBlock(env: Env, l: Ledger, op: Op)
    requires FeesNotNegative(l) && op.BeginBlockOp?
    ensures Apply(env, l, op) == BeginBlock(env, l, op.bonded)
  {
  }
}
