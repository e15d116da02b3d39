/**
 What each ABCI call of the multiplexer does: its routing state, the calls each consumer receives,
 and the reply. Applications are oracles, given here as the answers they would make in the call.
 */
module Mux {
  import opened GoTypes
  import opened ByteOrder
  import opened Header
  import opened Routing
  import opened QueryCodec

  datatype Config = Config(providerId: Str, haltHeight: uint64, haltTime: uint64, pages: PageCodec)

  datatype InitRequest = InitRequest(
    chainId: Str,
    time: int64,
    initialHeight: int64,
    validators: seq<Str>,
    params: Str,
    appState: Str)

  // The calls a consumer application receives, with what is asked of it.
  datatype Call =
    | InfoCall(hasState: bool)
    | InitChainCall(req: InitRequest, ok: bool)
    | ProcessCall(txs: seq<Str>)
    | FinalizeCall(txs: seq<Str>)
    | CommitCall

  // The provider's genesis validators and consensus parameters, kept for starting consumers.
  datatype Launch = Launch(validators: seq<Str>, params: Str)

  datatype Mux = Mux(
    handlers: set<Str>,
    rejected: set<Str>,
    initialized: set<Str>,
    active: set<Str>,
    launch: Launch,
    trace: map<Str, seq<Call>>)

  function Trace(m: Mux, c: Str): seq<Call>
  {
    if c in m.trace then m.trace[c] else []
  }

  // Every chain of cs receives the given calls, in this order; the others receive nothing.
  function AddCalls(trace: map<Str, seq<Call>>, cs: set<Str>, calls: Str -> seq<Call>): (t: map<Str, seq<Call>>)
  {
    map c | c in trace.Keys + cs ::
      (if c in trace then trace[c] else []) + (if c in cs then calls(c) else [])
  }

  function OneCall(call: Call): Str -> seq<Call>
  {
    c => [call]
  }

  // The payloads each chain is handed.
  function Shares(routes: seq<Route>, txs: seq<Str>): Str -> seq<Str>
    requires |routes| == |txs|
  {
    c => Payloads(routes, PayloadsOf(txs), To(c))
  }

  /******* The app hash *******/

  function ConcatHashes(ids: seq<Str>, hashes: map<Str, Str>): Str
    requires forall c :: c in ids ==> c in hashes
  {
    if ids == [] then [] else hashes[ids[0]] + ConcatHashes(ids[1..], hashes)
  }

  lemma SortedKeysIn(hashes: map<Str, Str>)
    ensures forall c :: c in SortedKeys(hashes.Keys) ==> c in hashes
  {
    var ids := SortedKeys(hashes.Keys);
    assert forall c :: c in ids ==> c in Elements(ids);
  }

  // One segment per answering chain, in the sorted order of the chain IDs.
  function CombineHashes(hashes: map<Str, Str>): Str
  {
    SortedKeysIn(hashes);
    ConcatHashes(SortedKeys(hashes.Keys), hashes)
  }

  /******* InitChain *******/

  // A consumer's side of InitChain: its genesis file, if it loads, and the app hash it answers to a
  // request, None for an error.
  datatype InitApp = InitApp(genesis: Option<Str>, init: InitRequest -> Option<Str>)

  datatype InitReply = InitReply(appHash: Str, validators: seq<Str>, params: Str)

  // The request that starts consumer c, at the engine's time and height, from its own genesis state
  // and the provider's validators and parameters.
  function StartRequest(launch: Launch, a: InitApp, c: Str, time: int64, height: int64): InitRequest
    requires a.genesis.Some?
  {
    InitRequest(c, time, height, launch.validators, launch.params, a.genesis.value)
  }

  // The app hash the consumer starts with, None if it does not start.
  function Started(launch: Launch, a: InitApp, c: Str, time: int64, height: int64): Option<Str>
  {
    if a.genesis.None? then None else a.init(StartRequest(launch, a, c, time, height))
  }

  function StartCalls(launch: Launch, a: InitApp, c: Str, time: int64, height: int64): seq<Call>
  {
    if a.genesis.None? then []
    else [InitChainCall(StartRequest(launch, a, c, time, height), Started(launch, a, c, time, height).Some?)]
  }

  function LaunchOf(reply: InitReply): Launch
  {
    Launch(reply.validators, reply.params)
  }

  function InitAnswers(m: Mux, req: InitRequest, apps: Str -> InitApp): set<Str>
  {
    set c | c in m.handlers && Started(m.launch, apps(c), c, req.time, req.initialHeight).Some?
  }

  function InitAsked(m: Mux, apps: Str -> InitApp): set<Str>
  {
    set c | c in m.handlers && apps(c).genesis.Some?
  }

  function InitChainCalls(launch: Launch, req: InitRequest, apps: Str -> InitApp): Str -> seq<Call>
  {
    c => StartCalls(launch, apps(c), c, req.time, req.initialHeight)
  }

  // The provider's hash and those of the chains ok.
  function InitHashes(cfg: Config, hash: Str, launch: Launch, req: InitRequest, apps: Str -> InitApp, ok: set<Str>): map<Str, Str>
  {
    map c | c in ok + {cfg.providerId} ::
      if c == cfg.providerId then hash
      else
        match Started(launch, apps(c), c, req.time, req.initialHeight)
        case None => []
        case Some(h) => h
  }

  // The response carries the provider's validators and parameters; the consumers' are ignored.
  function InitChain(cfg: Config, m: Mux, req: InitRequest, provider: InitRequest -> Option<InitReply>, apps: Str -> InitApp)
    : (Mux, Option<InitReply>)
  {
    match provider(req)
    case None => (m, None)
    case Some(p) =>
      var ready := m.(launch := LaunchOf(p));
      var ok := InitAnswers(ready, req, apps);
      (ready.(initialized := m.initialized + ok,
              trace := AddCalls(m.trace, InitAsked(m, apps), InitChainCalls(ready.launch, req, apps))),
       Some(p.(appHash := CombineHashes(InitHashes(cfg, p.appHash, ready.launch, req, apps, ok)))))
  }

  /******* ProcessProposal *******/

  const ACCEPT: int := 1
  const REJECT: int := 2

  // The status an application answers to a list of transactions, None for an error.
  type Judge = seq<Str> -> Option<int>

  datatype Verdict = Status(status: int) | Failed

  function PayloadOf(tx: Str): Str
  {
    match ParseHeader(tx)
    case Err(_) => []
    case Ok((_, payload)) => payload
  }

  function PayloadsOf(txs: seq<Str>): (ps: seq<Str>)
    ensures |ps| == |txs| && forall i :: 0 <= i < |txs| ==> ps[i] == PayloadOf(txs[i])
  {
    seq(|txs|, i requires 0 <= i < |txs| => PayloadOf(txs[i]))
  }

  function ProposalRoute(cfg: Config, m: Mux, tx: Str): Route
  {
    match ParseHeader(tx)
    case Err(_) => Bad
    case Ok((c, _)) =>
      if c != cfg.providerId && (c !in m.handlers || c !in m.initialized) then Skip else To(c)
  }

  function ProposalRoutes(cfg: Config, m: Mux, txs: seq<Str>): (rs: seq<Route>)
    ensures |rs| == |txs| && forall i :: 0 <= i < |txs| ==> rs[i] == ProposalRoute(cfg, m, txs[i])
  {
    seq(|txs|, i requires 0 <= i < |txs| => ProposalRoute(cfg, m, txs[i]))
  }

  function Answer(routes: seq<Route>, txs: seq<Str>, judges: Str -> Judge, c: Str): Option<int>
    requires |routes| == |txs|
  {
    judges(c)(Shares(routes, txs)(c))
  }

  function Refusers(cfg: Config, routes: seq<Route>, txs: seq<Str>, judges: Str -> Judge): set<Str>
    requires |routes| == |txs|
  {
    set c | c in Called(routes) && c != cfg.providerId
      && Answer(routes, txs, judges, c).Some? && Answer(routes, txs, judges, c).value != ACCEPT
  }

  predicate Approved(cfg: Config, routes: seq<Route>, txs: seq<Str>, judges: Str -> Judge)
    requires |routes| == |txs|
  {
    && (forall c :: c in Called(routes) ==> Answer(routes, txs, judges, c).Some?)
    && (cfg.providerId in Called(routes) ==> Answer(routes, txs, judges, cfg.providerId) == Some(ACCEPT))
  }

  // The loop over the results of a proposal, in their order of arrival: it stops at the first error
  // and at a refusal of the provider, and notes the consumers that refuse. Called chains only.
  function Tally(cfg: Config, answers: Str -> Option<int>, order: seq<Str>, noted: set<Str>): (set<Str>, Verdict)
    decreases |order|
  {
    if order == [] then (noted, Status(ACCEPT))
    else
      match answers(order[0])
      case None => (noted, Failed)
      case Some(status) =>
        if status == ACCEPT then Tally(cfg, answers, order[1..], noted)
        else if order[0] == cfg.providerId then (noted, Status(status))
        else Tally(cfg, answers, order[1..], noted + {order[0]})
  }

  function Answers(routes: seq<Route>, txs: seq<Str>, judges: Str -> Judge): Str -> Option<int>
    requires |routes| == |txs|
  {
    c => Answer(routes, txs, judges, c)
  }

  function ProcessCalls(share: Str -> seq<Str>): Str -> seq<Call>
  {
    c => [ProcessCall(share(c))]
  }

  /** Which verdicts and states a proposal can lead to. The handler returns at the first error or
      provider refusal that arrives, so which of the two it reports, and how many refusers it has
      noted by then, depends on the order of arrival; acceptance and its effect do not. */
  ghost predicate ProcessProposal(cfg: Config, m: Mux, txs: seq<Str>, judges: Str -> Judge, m': Mux, v: Verdict)
  {
    var routes := ProposalRoutes(cfg, m, txs);
    if Bad in routes then
      m' == m && v == Status(REJECT)
    else
      && m' == m.(rejected := m'.rejected,
                  trace := AddCalls(m.trace, Called(routes) - {cfg.providerId}, ProcessCalls(Shares(routes, txs))))
      && m'.rejected <= Refusers(cfg, routes, txs, judges)
      && (Approved(cfg, routes, txs, judges) ==>
            v == Status(ACCEPT) && m'.rejected == Refusers(cfg, routes, txs, judges))
      && (!Approved(cfg, routes, txs, judges) ==>
            match v
            case Failed => exists c :: c in Called(routes) && Answer(routes, txs, judges, c).None?
            case Status(s) =>
              s != ACCEPT && cfg.providerId in Called(routes) && Answer(routes, txs, judges, cfg.providerId) == Some(s))
  }

  /******* FinalizeBlock *******/

  datatype Request = Request(height: int64, time: int64, txs: seq<Str>)

  type Event = Str

  datatype FinalizeReply = FinalizeReply(
    txResults: seq<TxResult>,
    appHash: Str,
    events: seq<Event>,
    validatorUpdates: seq<Str>,
    consensusParamUpdates: Str)

  // None is an error.
  type FinalizeApp = seq<Str> -> Option<FinalizeReply>

  // A consumer's side of FinalizeBlock: what Info would show (height and app hash), how it starts,
  // and its own FinalizeBlock.
  datatype Consumer = Consumer(info: Option<(int64, Str)>, start: InitApp, finalize: FinalizeApp)

  // The provider's answer to the query for the active chains, None if the query itself failed.
  datatype QueryReply = QueryReply(code: nat, value: seq<byte>)

  datatype FinalizeOutcome =
    | Halt
    | InvalidTx(index: nat)
    | ProviderFailed
    | Done(
        txResults: seq<Option<TxResult>>,
        appHash: Str,
        validatorUpdates: seq<Str>,
        consensusParamUpdates: Str)

  // checkHaltConditions
  predicate ShouldHalt(cfg: Config, req: Request)
  {
    || (cfg.haltHeight > 0 && ToUint64(req.height) >= cfg.haltHeight)
    || (cfg.haltTime > 0 && req.time >= ToInt64(cfg.haltTime))
  }

  function BlockRoute(cfg: Config, m: Mux, tx: Str): Route
  {
    match ParseHeader(tx)
    case Err(_) => Bad
    case Ok((c, _)) =>
      if c in m.rejected then Skip
      else if c != cfg.providerId && c !in m.handlers then Skip
      else To(c)
  }

  function BlockRoutes(cfg: Config, m: Mux, txs: seq<Str>): (rs: seq<Route>)
    ensures |rs| == |txs| && forall i :: 0 <= i < |txs| ==> rs[i] == BlockRoute(cfg, m, txs[i])
  {
    seq(|txs|, i requires 0 <= i < |txs| => BlockRoute(cfg, m, txs[i]))
  }

  // The payloads FinalizeBlock hands to each chain.
  function BlockShares(cfg: Config, m: Mux, req: Request): Str -> seq<Str>
  {
    Shares(BlockRoutes(cfg, m, req.txs), req.txs)
  }

  function ChainIds(m: ActiveChains): set<Str>
  {
    set c | c in m.consumerChains :: c.chainId
  }

  // getActiveChainIDsFromProvider, None for any of its errors.
  function QueriedIds(cfg: Config, reply: Option<QueryReply>): Option<set<Str>>
    requires reply.Some? ==> |reply.value.value| <= MAX_INT
  {
    match reply
    case None => None
    case Some(r) =>
      if r.code != 0 then None
      else
        match DecodeResponse(cfg.pages, r.value)
        case Err(_) => None
        case Ok(chains) => Some(ChainIds(chains))
  }

  // The active set FinalizeBlock works with: refreshed above height 1, kept if the query fails.
  function ActiveFor(cfg: Config, m: Mux, req: Request, reply: Option<QueryReply>): set<Str>
    requires reply.Some? ==> |reply.value.value| <= MAX_INT
  {
    if req.height > 1 && QueriedIds(cfg, reply).Some? then QueriedIds(cfg, reply).value else m.active
  }

  function Refreshed(cfg: Config, m: Mux, req: Request, reply: Option<QueryReply>): Mux
    requires reply.Some? ==> |reply.value.value| <= MAX_INT
  {
    m.(active := ActiveFor(cfg, m, req, reply))
  }

  predicate HasState(a: Consumer)
  {
    a.info.Some? && (a.info.value.0 > 0 || |a.info.value.1| > 0)
  }

  predicate Initializes(m: Mux, req: Request, a: Consumer, c: Str)
  {
    HasState(a) || Started(m.launch, a.start, c, req.time, req.height).Some?
  }

  // The calls initChainIfNeeded makes.
  function InitCalls(m: Mux, req: Request, a: Consumer, c: Str): seq<Call>
  {
    if c in m.initialized then []
    else if HasState(a) then [InfoCall(true)]
    else [InfoCall(false)] + StartCalls(m.launch, a.start, c, req.time, req.height)
  }

  // The chains the dispatch loop does not skip for being rejected or unregistered.
  function Candidates(m: Mux): set<Str>
  {
    set c | c in m.active && c !in m.rejected && c in m.handlers
  }

  // The chains FinalizeBlock is sent to.
  function Dispatched(m: Mux, req: Request, apps: Str -> Consumer): set<Str>
  {
    set c | c in Candidates(m) && (c in m.initialized || Initializes(m, req, apps(c), c))
  }

  function DispatchCalls(m: Mux, req: Request, share: Str -> seq<Str>, apps: Str -> Consumer): Str -> seq<Call>
  {
    c => InitCalls(m, req, apps(c), c) + (if c in Dispatched(m, req, apps) then [FinalizeCall(share(c))] else [])
  }

  // The state after the dispatch loop, given the state with the active set already refreshed.
  function Dispatch(m: Mux, req: Request, share: Str -> seq<Str>, apps: Str -> Consumer): Mux
  {
    m.(initialized := m.initialized + Dispatched(m, req, apps),
       trace := AddCalls(m.trace, Candidates(m), DispatchCalls(m, req, share, apps)))
  }

  // The consumers that answer without an error, and what they answer.
  function Replies(m: Mux, req: Request, share: Str -> seq<Str>, apps: Str -> Consumer): (r: map<Str, FinalizeReply>)
  {
    map c | c in Dispatched(m, req, apps) && apps(c).finalize(share(c)).Some? :: apps(c).finalize(share(c)).value
  }

  function Results(replies: map<Str, FinalizeReply>): map<Str, seq<TxResult>>
  {
    map c | c in replies :: replies[c].txResults
  }

  function Hashes(replies: map<Str, FinalizeReply>): map<Str, Str>
  {
    map c | c in replies :: replies[c].appHash
  }

  // The response, from the provider's reply and those of the consumers. Events are kept apart: they
  // alone depend on the order of arrival.
  function Respond(cfg: Config, routes: seq<Route>, provider: FinalizeReply, replies: map<Str, FinalizeReply>): FinalizeOutcome
  {
    var all := replies[cfg.providerId := provider];
    Done(Table(routes, Results(all), true), CombineHashes(Hashes(all)),
         provider.validatorUpdates, provider.consensusParamUpdates)
  }

  function FirstBad(routes: seq<Route>): (i: nat)
    requires Bad in routes
    ensures i < |routes| && routes[i] == Bad && Bad !in routes[..i]
  {
    if routes[0] == Bad then 0
    else
      var i := FirstBad(routes[1..]);
      assert routes[..i + 1] == [routes[0]] + routes[1..][..i];
      i + 1
  }

  lemma SameBad(r1: seq<Route>, r2: seq<Route>)
    requires SameWay(r1, r2, Bad)
    ensures Bad in r1 <==> Bad in r2
    ensures Bad in r1 ==> FirstBad(r1) == FirstBad(r2)
  {
    if Bad in r1 {
      var i :| 0 <= i < |r1| && r1[i] == Bad;
      assert r2[i] == Bad;
      var j, k := FirstBad(r1), FirstBad(r2);
    }
  }

  function FinalizeBlock(cfg: Config, m: Mux, req: Request, provider: FinalizeApp, reply: Option<QueryReply>,
                         apps: Str -> Consumer): (Mux, FinalizeOutcome)
    requires reply.Some? ==> |reply.value.value| <= MAX_INT
  {
    var routes := BlockRoutes(cfg, m, req.txs);
    if ShouldHalt(cfg, req) then (m, Halt)
    else if Bad in routes then (m, InvalidTx(FirstBad(routes)))
    else
      var share := BlockShares(cfg, m, req);
      match provider(share(cfg.providerId))
      case None => (m, ProviderFailed)
      case Some(p) =>
        var ready := Refreshed(cfg, m, req, reply);
        (Dispatch(ready, req, share, apps), Respond(cfg, routes, p, Replies(ready, req, share, apps)))
  }

  // The events of the given chains' replies, in this order.
  function EventsOf(order: seq<Str>, replies: map<Str, FinalizeReply>): seq<Event>
  {
    if order == [] then []
    else (if order[0] in replies then replies[order[0]].events else []) + EventsOf(order[1..], replies)
  }

  /******* Commit *******/

  function Committed(m: Mux): set<Str>
  {
    set c | c in m.active && c in m.initialized && c !in m.rejected && c in m.handlers
  }

  // The response when the consumers commit in this order: the last one's that answers, else the provider's.
  function Retained(order: seq<Str>, provider: nat, apps: Str -> Option<nat>): nat
  {
    if order == [] then provider
    else
      var last := |order| - 1;
      match apps(order[last])
      case Some(r) => r
      case None => Retained(order[..last], provider, apps)
  }

  // Nothing changes but the traces; a failing provider stops the call before any consumer.
  function Commit(m: Mux, providerOk: bool): Mux
  {
    if !providerOk then m else m.(trace := AddCalls(m.trace, Committed(m), OneCall(CommitCall)))
  }
}
