/**
 The provider module's state and its transitions: fee collection and distribution, governance
 messages and genesis. Each function is the effect of one keeper call on the whole ledger.
 */
module Provider {
  import opened GoTypes
  import opened ByteOrder
  import opened Bank
  import opened ProRata
  import opened ChainCodec

  const UNSPECIFIED: int32 := 0
  const PENDING: int32 := 1
  const ACTIVE: int32 := 2
  const SUNSET: int32 := 3
  const REMOVED: int32 := 4
  const OVERDUE: int32 := 5

  // "consumer_"
  const ACCOUNT_PREFIX: Str := [99, 111, 110, 115, 117, 109, 101, 114, 95]
  // "fee_collector"
  const FEE_COLLECTOR: Str := [102, 101, 101, 95, 99, 111, 108, 108, 101, 99, 116, 111, 114]

  datatype Coin = Coin(denom: Str, amount: int)

  datatype Params = Params(feesPerBlock: Coin, downtimeSlashingWindow: int64)

  datatype GenesisState = GenesisState(params: Params, consumerChains: seq<ConsumerChain>)

  /** The parts of the SDK the module calls: the module-address derivation, the address codec,
      and the address of the governance account. */
  datatype Env = Env(
    moduleAddress: Str -> Str,
    format: Str -> Str,
    parse: Str -> Option<Str>,
    authority: Str)

  ghost predicate GoodEnv(env: Env)
  {
    && (forall a, b :: env.moduleAddress(a) == env.moduleAddress(b) ==> a == b)
    && (forall x :: env.parse(env.format(x)) == Some(x))
  }

  datatype Ledger = Ledger(
    params: Option<Params>,
    chains: map<Str, ConsumerChain>,
    balances: Balances,
    accounts: set<Str>)

  datatype Error =
    | BadAddress | InsufficientFunds | BadOperator | StakingFailed | ZeroPower | NoParams
    | InvalidSigner | InvalidChainID | InvalidBlockHeight | ConsumerAlreadyExists | ConsumerNotFound
    | ConsumerAlreadySunset | ConsumerNotActive | EmptyVersion | NegativeFees | NegativeWindow
    | AddressNotEmpty

  // The ledger after a call, and the error it returned.
  datatype Outcome = Outcome(ledger: Ledger, error: Option<Error>)

  /******* keys.go, provider.go *******/

  function AccountName(chainId: Str): Str
  {
    ACCOUNT_PREFIX + chainId
  }

  function ConsumerAddress(env: Env, chainId: Str): Str
  {
    env.moduleAddress(AccountName(chainId))
  }

  function CollectorAddress(env: Env): Str
  {
    env.moduleAddress(FEE_COLLECTOR)
  }

  predicate IsActive(c: ConsumerChain) { c.status == ACTIVE }

  predicate IsOverdue(c: ConsumerChain) { c.status == OVERDUE }

  predicate CanUpgrade(c: ConsumerChain) { c.status == ACTIVE || c.status == PENDING || c.status == OVERDUE }

  predicate CanSunset(c: ConsumerChain) { c.status != SUNSET && c.status != REMOVED }

  // No two consumers share an account, and none has the fee collector's.
  lemma AddressesDistinct(env: Env, a: Str, b: Str)
    requires GoodEnv(env)
    ensures ConsumerAddress(env, a) == ConsumerAddress(env, b) ==> a == b
    ensures ConsumerAddress(env, a) != CollectorAddress(env)
  {
    assert AccountName(a)[0] == 99;
    if ConsumerAddress(env, a) == ConsumerAddress(env, b) {
      assert AccountName(a)[|ACCOUNT_PREFIX|..] == a;
      assert AccountName(b)[|ACCOUNT_PREFIX|..] == b;
    }
  }

  /******* The invariant of the store *******/

  ghost predicate GoodChain(env: Env, key: Str, c: ConsumerChain)
  {
    c.chainId == key && c.moduleAccountAddress == env.format(ConsumerAddress(env, key))
  }

  ghost predicate GoodLedger(env: Env, l: Ledger)
  {
    && (forall k :: k in l.chains ==> GoodChain(env, k, l.chains[k]))
    && (l.params.Some? ==> l.params.value.feesPerBlock.amount >= 0)
  }

  /******* CollectFeesFromConsumers *******/

  datatype Collection = Collection(ledger: Ledger, total: nat, error: Option<Error>)

  predicate Chargeable(c: ConsumerChain)
  {
    IsActive(c) || IsOverdue(c)
  }

  // The callback of the walk, on the value stored under key when it is visited.
  function Charge(env: Env, l: Ledger, denom: Str, fee: nat, key: Str): (r: Collection)
    requires key in l.chains
    ensures r.ledger.chains.Keys >= l.chains.Keys
    ensures r.error.Some? ==> r.total == 0 && r.ledger == l
  {
    var c := l.chains[key];
    if !Chargeable(c) then Collection(l, 0, None)
    else
      match env.parse(c.moduleAccountAddress)
      case None => Collection(l, 0, Some(BadAddress))
      case Some(address) =>
        if Bal(l.balances, address, denom) < fee then
          Collection(l.(chains := l.chains[c.chainId := c.(status := OVERDUE)]), 0, None)
        else
          match Send(l.balances, ConsumerAddress(env, c.chainId), CollectorAddress(env), denom, fee)
          case None => Collection(l, 0, Some(InsufficientFunds))
          case Some(b) =>
            Collection(l.(balances := b, chains := l.chains[c.chainId := c.(status := ACTIVE)]), fee, None)
  }

  // The callback applied to the keys of a list, one after the other, until one returns an error.
  function Collect(env: Env, l: Ledger, denom: Str, fee: nat, keys: seq<Str>): (r: Collection)
    requires forall k :: k in keys ==> k in l.chains
    decreases |keys|
  {
    if keys == [] then Collection(l, 0, None)
    else
      var first := Charge(env, l, denom, fee, keys[0]);
      if first.error.Some? then first
      else
        var rest := Collect(env, first.ledger, denom, fee, keys[1..]);
        rest.(total := first.total + rest.total)
  }

  /******* DistributeFeesToValidators *******/

  datatype Payout = Payout(balances: Balances, error: Option<Error>)

  function Pay(env: Env, b: Balances, denom: Str, fees: nat, vals: seq<Validator>, total: nat): Payout
    requires total > 0
    decreases |vals|
  {
    if vals == [] then Payout(b, None)
    else
      match env.parse(vals[0].operator)
      case None => Payout(b, Some(BadOperator))
      case Some(address) =>
        var share := Share(fees, vals[0].power, total);
        if share == 0 then Pay(env, b, denom, fees, vals[1..], total)
        else
          match Send(b, CollectorAddress(env), address, denom, share)
          case None => Payout(b, Some(InsufficientFunds))
          case Some(b') => Pay(env, b', denom, fees, vals[1..], total)
  }

  // bonded is what the staking module answers, None if it fails.
  function Distribute(env: Env, l: Ledger, denom: Str, fees: nat, bonded: Option<seq<Validator>>): Outcome
  {
    match bonded
    case None => Outcome(l, Some(StakingFailed))
    case Some(vals) =>
      if vals == [] then Outcome(l, None)
      else if TotalPower(vals) == 0 then Outcome(l, Some(ZeroPower))
      else
        var p := Pay(env, l.balances, denom, fees, vals, TotalPower(vals));
        Outcome(l.(balances := p.balances), p.error)
  }

  /******* BeginBlocker *******/

  predicate FeesNotNegative(l: Ledger)
  {
    l.params.Some? ==> l.params.value.feesPerBlock.amount >= 0
  }

  function BeginBlock(env: Env, l: Ledger, bonded: Option<seq<Validator>>): Outcome
    requires FeesNotNegative(l)
  {
    match l.params
    case None => Outcome(l, Some(NoParams))
    case Some(params) =>
      var denom, fee := params.feesPerBlock.denom, params.feesPerBlock.amount;
      if fee == 0 then Outcome(l, None)
      else
        var c := Collect(env, l, denom, fee, SortedKeys(l.chains.Keys));
        if c.error.Some? then Outcome(c.ledger, c.error)
        else if c.total == 0 then Outcome(c.ledger, None)
        else Distribute(env, c.ledger, denom, c.total, bonded)
  }

  /******* Governance messages *******/

  // The signer check every message starts with.
  function CheckSigner(env: Env, authority: Str): Option<Error>
  {
    match env.parse(authority)
    case None => Some(BadAddress)
    case Some(address) => if address != env.authority then Some(InvalidSigner) else None
  }

  function ValidateParams(p: Params): (e: Option<Error>)
    ensures e.None? ==> p.feesPerBlock.amount >= 0
  {
    if p.feesPerBlock.amount < 0 then Some(NegativeFees)
    else if p.downtimeSlashingWindow < 0 then Some(NegativeWindow)
    else None
  }

  function UpdateParams(env: Env, l: Ledger, authority: Str, params: Params): Outcome
  {
    if CheckSigner(env, authority).Some? then Outcome(l, CheckSigner(env, authority))
    else
      match ValidateParams(params)
      case Some(e) => Outcome(l, Some(e))
      case None => Outcome(l.(params := Some(params)), None)
  }

  datatype AddRequest = AddRequest(authority: Str, chainId: Str, name: Str, version: Str, blockHeight: int64)

  function AddConsumer(env: Env, l: Ledger, height: int64, req: AddRequest): Outcome
  {
    if CheckSigner(env, req.authority).Some? then Outcome(l, CheckSigner(env, req.authority))
    else if req.chainId == [] then Outcome(l, Some(InvalidChainID))
    else if req.blockHeight < 0 then Outcome(l, Some(InvalidBlockHeight))
    else if req.chainId in l.chains then Outcome(l, Some(ConsumerAlreadyExists))
    else if req.blockHeight <= height then Outcome(l, Some(InvalidBlockHeight))
    else
      var address := ConsumerAddress(env, req.chainId);
      var c := ConsumerChain(req.chainId, req.name, req.version, PENDING, req.blockHeight, 0, env.format(address));
      Outcome(l.(accounts := l.accounts + {address}, chains := l.chains[req.chainId := c]), None)
  }

  function SunsetConsumer(env: Env, l: Ledger, height: int64, authority: Str, chainId: Str, blockHeight: int64): Outcome
  {
    if CheckSigner(env, authority).Some? then Outcome(l, CheckSigner(env, authority))
    else if chainId == [] then Outcome(l, Some(InvalidChainID))
    else if blockHeight < 0 then Outcome(l, Some(InvalidBlockHeight))
    else if chainId !in l.chains then Outcome(l, Some(ConsumerNotFound))
    else if !CanSunset(l.chains[chainId]) then Outcome(l, Some(ConsumerAlreadySunset))
    else
      var c := l.chains[chainId].(status := if blockHeight <= height then REMOVED else SUNSET, sunsetAt := blockHeight);
      Outcome(l.(chains := l.chains[c.chainId := c]), None)
  }

  datatype UpgradeRequest = UpgradeRequest(authority: Str, chainId: Str, version: Str, blockHeight: int64)

  function UpgradeConsumer(env: Env, l: Ledger, height: int64, req: UpgradeRequest): Outcome
  {
    if CheckSigner(env, req.authority).Some? then Outcome(l, CheckSigner(env, req.authority))
    else if req.chainId == [] then Outcome(l, Some(InvalidChainID))
    else if req.version == [] then Outcome(l, Some(EmptyVersion))
    else if req.blockHeight < 0 then Outcome(l, Some(InvalidBlockHeight))
    else if req.chainId !in l.chains then Outcome(l, Some(ConsumerNotFound))
    else if !CanUpgrade(l.chains[req.chainId]) then Outcome(l, Some(ConsumerNotActive))
    else if req.blockHeight <= height then Outcome(l, Some(InvalidBlockHeight))
    else
      var c := l.chains[req.chainId];
      Outcome(l.(chains := l.chains[c.chainId := c]), None)
  }

  /******* Genesis *******/

  // The loop of InitGenesis: it stops at the first chain whose address is filled in.
  function InitChains(env: Env, l: Ledger, cs: seq<ConsumerChain>): Outcome
    decreases |cs|
  {
    if cs == [] then Outcome(l, None)
    else if cs[0].moduleAccountAddress != [] then Outcome(l, Some(AddressNotEmpty))
    else InitChains(env, InitOne(env, l, cs[0]), cs[1..])
  }

  function InitOne(env: Env, l: Ledger, c: ConsumerChain): Ledger
  {
    var address := ConsumerAddress(env, c.chainId);
    l.(accounts := l.accounts + {address},
       chains := l.chains[c.chainId := c.(moduleAccountAddress := env.format(address))])
  }

  function InitGenesis(env: Env, l: Ledger, gs: GenesisState): Outcome
  {
    InitChains(env, l.(params := Some(gs.params)), gs.consumerChains)
  }

  // The values of the store in key order.
  function Values(chains: map<Str, ConsumerChain>, keys: seq<Str>): (vs: seq<ConsumerChain>)
    requires forall k :: k in keys ==> k in chains
    ensures |vs| == |keys| && forall i :: 0 <= i < |keys| ==> vs[i] == chains[keys[i]]
  {
    if keys == [] then [] else [chains[keys[0]]] + Values(chains, keys[1..])
  }

  function ExportGenesis(l: Ledger): Result<GenesisState, Error>
  {
    match l.params
    case None => Err(NoParams)
    case Some(params) => Ok(GenesisState(params, Values(l.chains, SortedKeys(l.chains.Keys))))
  }

  /******* Query *******/

  function KeepActive(cs: seq<ConsumerChain>): seq<ConsumerChain>
  {
    if cs == [] then [] else (if IsActive(cs[0]) then [cs[0]] else []) + KeepActive(cs[1..])
  }

  function ActiveConsumerChains(l: Ledger): seq<ConsumerChain>
  {
    KeepActive(Values(l.chains, SortedKeys(l.chains.Keys)))
  }
}
