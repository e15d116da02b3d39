/**
 Whole runs of the multiplexer under the ABCI call grammar: at most one InitChain at the start,
 then for each height some ProcessProposal calls, one FinalizeBlock and one Commit. An error from
 FinalizeBlock, Commit or InitChain ends the run.
 */
module MuxRuns {
  import opened GoTypes
  import opened Routing
  import opened Mux
  import M = Mux

  /******* What a consumer may be asked, and when *******/

  datatype Phase = New | Ready | Busy | Wrong

  function Next(p: Phase, call: Call): Phase
  {
    match (p, call)
    case (New, InfoCall(hasState)) => if hasState then Ready else New
    case (New, InitChainCall(_, ok)) => if ok then Ready else New
    case (Ready, ProcessCall(_)) => Ready
    case (Ready, FinalizeCall(_)) => Busy
    case (Busy, CommitCall) => Ready
    case _ => Wrong
  }

  function Phases(p: Phase, calls: seq<Call>): Phase
    decreases |calls|
  {
    if calls == [] then p else Phases(Next(p, calls[0]), calls[1..])
  }

  lemma {:induction false} PhasesAppend(p: Phase, a: seq<Call>, b: seq<Call>)
    ensures Phases(p, a + b) == Phases(Phases(p, a), b)
    decreases |a|
  {
    if a == [] {
      assert a + b == b;
    } else {
      assert (a + b)[1..] == a[1..] + b;
      PhasesAppend(Next(p, a[0]), a[1..], b);
    }
  }

  lemma {:induction false} WrongStays(calls: seq<Call>)
    ensures Phases(Wrong, calls) == Wrong
  {
    if calls != [] {
      WrongStays(calls[1..]);
    }
  }

  // The FinalizeBlock and Commit calls of a trace.
  function Blocks(calls: seq<Call>): seq<Call>
  {
    if calls == [] then []
    else (if calls[0].FinalizeCall? || calls[0].CommitCall? then [calls[0]] else []) + Blocks(calls[1..])
  }

  // A prefix of (FinalizeBlock, Commit)*, which starts with Commit if busy.
  predicate Alternates(calls: seq<Call>, busy: bool)
  {
    calls == [] || ((if busy then calls[0].CommitCall? else calls[0].FinalizeCall?) && Alternates(calls[1..], !busy))
  }

  predicate Succeeds(call: Call)
  {
    (call.InitChainCall? && call.ok) || call == InfoCall(true)
  }

  // In a trace the phases accept, FinalizeBlock and Commit alternate.
  lemma {:induction false} BlocksAlternate(p: Phase, calls: seq<Call>)
    requires Phases(p, calls) != Wrong
    ensures Alternates(Blocks(calls), p == Busy)
    decreases |calls|
  {
    if calls != [] {
      WrongStays(calls[1..]);
      BlocksAlternate(Next(p, calls[0]), calls[1..]);
      var first := calls[0];
      if first.FinalizeCall? || first.CommitCall? {
        assert Blocks(calls) == [first] + Blocks(calls[1..]);
        assert Blocks(calls)[1..] == Blocks(calls[1..]);
      } else {
        assert Blocks(calls) == Blocks(calls[1..]);
      }
    }
  }

  // Once the consumer has state it is neither asked for it nor initialized again.
  lemma {:induction false} NoSecondInit(p: Phase, calls: seq<Call>, i: nat)
    requires Phases(p, calls) != Wrong && p != New && i < |calls|
    ensures !calls[i].InfoCall? && !calls[i].InitChainCall?
    decreases |calls|
  {
    WrongStays(calls[1..]);
    if i > 0 {
      NoSecondInit(Next(p, calls[0]), calls[1..], i - 1);
    }
  }

  lemma {:induction false} OneSuccess(p: Phase, calls: seq<Call>, i: nat, j: nat)
    requires Phases(p, calls) != Wrong && i < j < |calls| && Succeeds(calls[i])
    ensures !Succeeds(calls[j])
    decreases |calls|
  {
    WrongStays(calls[1..]);
    if i > 0 {
      OneSuccess(Next(p, calls[0]), calls[1..], i - 1, j - 1);
    } else {
      NoSecondInit(Next(p, calls[0]), calls[1..], j - 1);
    }
  }

  // No block before the consumer has shown or been given state.
  lemma {:induction false} SuccessBeforeBlock(calls: seq<Call>, j: nat) returns (i: nat)
    requires Phases(New, calls) != Wrong && j < |calls| && calls[j].FinalizeCall?
    ensures i < j && Succeeds(calls[i])
    decreases |calls|
  {
    WrongStays(calls[1..]);
    i := 0;
    if !Succeeds(calls[0]) {
      i := SuccessBeforeBlock(calls[1..], j - 1);
      i := i + 1;
    }
  }

  /******* Runs *******/

  datatype Stage =
    | Start     // no call yet
    | Idle      // between heights
    | Decided   // FinalizeBlock has answered, Commit is due
    | Dead      // an error was returned to the engine

  datatype Conf = Conf(mux: Mux, stage: Stage)

  datatype Event =
    | InitEvent(start: InitRequest, launcher: InitRequest -> Option<InitReply>, inits: Str -> InitApp)
    | ProposalEvent(txs: seq<Str>, judges: Str -> Judge, verdict: Verdict)
    | BlockEvent(req: Request, provider: FinalizeApp, reply: Option<QueryReply>, apps: Str -> Consumer)
    | CommitEvent(providerOk: bool)

  ghost predicate Step(cfg: Config, a: Conf, e: Event, b: Conf)
  {
    match e
    case InitEvent(start, launcher, inits) =>
      && a.stage == Start
      && b == Conf(InitChain(cfg, a.mux, start, launcher, inits).0, if launcher(start).Some? then Idle else Dead)
    case ProposalEvent(txs, judges, verdict) =>
      && (a.stage == Start || a.stage == Idle)
      && ProcessProposal(cfg, a.mux, txs, judges, b.mux, verdict) && b.stage == Idle
    case BlockEvent(req, provider, reply, apps) =>
      && (a.stage == Start || a.stage == Idle)
      && (reply.Some? ==> |reply.value.value| <= MAX_INT)
      && var (m, out) := FinalizeBlock(cfg, a.mux, req, provider, reply, apps);
         b == Conf(m, if out.Done? then Decided else Dead)
    case CommitEvent(ok) =>
      && a.stage == Decided
      && b == Conf(Commit(a.mux, ok), if ok then Idle else Dead)
  }

  ghost predicate Behavior(cfg: Config, confs: seq<Conf>, events: seq<Event>)
  {
    && |confs| == |events| + 1
    && forall i :: 0 <= i < |events| ==> Step(cfg, confs[i], events[i], confs[i + 1])
  }

  // A freshly started process with its configured chains.
  predicate Initial(cfg: Config, a: Conf)
  {
    a.stage == Start && a.mux == M.Mux(a.mux.handlers, {}, {}, {}, a.mux.launch, map[]) && cfg.providerId !in a.mux.handlers
  }

  // The phase a registered consumer is in.
  predicate InPhase(a: Conf, c: Str)
  {
    var p := Phases(New, Trace(a.mux, c));
    if c !in a.mux.initialized then p == New
    else if a.stage == Decided && c in Committed(a.mux) then p == Busy
    else if a.stage == Dead then p == Ready || p == Busy
    else p == Ready
  }

  ghost predicate Inv(cfg: Config, a: Conf)
  {
    && cfg.providerId !in a.mux.handlers
    && a.mux.rejected <= a.mux.initialized <= a.mux.handlers
    && (a.stage == Start ==> a.mux.initialized == {} && a.mux.trace == map[])
    && (forall c :: c !in a.mux.handlers ==> Trace(a.mux, c) == [])
    && (forall c :: c in a.mux.handlers ==> InPhase(a, c))
  }

  lemma AskedMeans(m: Mux, req: InitRequest, inits: Str -> InitApp, c: Str)
    ensures c in InitAsked(m, inits) <==> c in m.handlers && inits(c).genesis.Some?
    ensures c in InitAnswers(m, req, inits) <==> c in m.handlers && Started(m.launch, inits(c), c, req.time, req.initialHeight).Some?
  {
  }

  // What the calls that start a consumer do to its phase.
  lemma StartPhase(launch: Launch, a: InitApp, c: Str, time: int64, height: int64)
    ensures Phases(New, StartCalls(launch, a, c, time, height)) == if Started(launch, a, c, time, height).Some? then Ready else New
  {
    if a.genesis.Some? {
      OneStep(New, InitChainCall(StartRequest(launch, a, c, time, height), Started(launch, a, c, time, height).Some?));
    }
  }

  lemma InitStep(cfg: Config, a: Conf, e: Event, b: Conf)
    requires Inv(cfg, a) && e.InitEvent? && Step(cfg, a, e, b)
    ensures Inv(cfg, b)
  {
    hide AddCalls, Trace, InitHashes, CombineHashes, InitAnswers, InitAsked, Phases, Started, StartCalls;
    if e.launcher(e.start).Some? {
      var ready := a.mux.(launch := LaunchOf(e.launcher(e.start).value));
      var asked, calls := InitAsked(a.mux, e.inits), InitChainCalls(ready.launch, e.start, e.inits);
      forall c ensures c !in b.mux.handlers ==> Trace(b.mux, c) == []
               ensures c in b.mux.handlers ==> InPhase(b, c)
      {
        TraceStep(a.mux, b.mux, asked, calls, c);
        AskedMeans(ready, e.start, e.inits, c);
        AskedMeans(a.mux, e.start, e.inits, c);
        PhasesAppend(New, Trace(a.mux, c), calls(c));
        StartPhase(ready.launch, e.inits(c), c, e.start.time, e.start.initialHeight);
        Unloaded(ready.launch, e.inits(c), c, e.start.time, e.start.initialHeight);
        assert c in b.mux.handlers ==> InPhase(a, c);
      }
      forall c | c in b.mux.initialized ensures c in b.mux.handlers {
        AskedMeans(ready, e.start, e.inits, c);
      }
    }
  }

  lemma Unloaded(launch: Launch, a: InitApp, c: Str, time: int64, height: int64)
    ensures a.genesis.None? ==> Started(launch, a, c, time, height).None?
  {
  }

  lemma OneStep(p: Phase, call: Call)
    ensures Phases(p, [call]) == Next(p, call)
  {
    assert [call][1..] == [];
  }

  // Consumers are asked about a proposal only if they are registered and initialized.
  lemma CalledConsumers(cfg: Config, m: Mux, txs: seq<Str>, c: Str)
    requires c in Called(ProposalRoutes(cfg, m, txs)) && c != cfg.providerId
    ensures c in m.handlers && c in m.initialized
  {
  }

  lemma ProposalStep(cfg: Config, a: Conf, e: Event, b: Conf)
    requires Inv(cfg, a) && e.ProposalEvent? && Step(cfg, a, e, b)
    ensures Inv(cfg, b)
  {
    hide AddCalls, Called, Approved, Answer, Trace;
    var routes := ProposalRoutes(cfg, a.mux, e.txs);
    if Bad !in routes {
      var asked, share := Called(routes) - {cfg.providerId}, Shares(routes, e.txs);
      forall c | c in asked ensures c in a.mux.initialized {
        CalledConsumers(cfg, a.mux, e.txs, c);
      }
      forall c ensures c !in b.mux.handlers ==> Trace(b.mux, c) == []
               ensures c in b.mux.handlers ==> InPhase(b, c)
      {
        TraceStep(a.mux, b.mux, asked, ProcessCalls(share), c);
        if c in asked {
          PhasesAppend(New, Trace(a.mux, c), [ProcessCall(share(c))]);
          OneStep(Ready, ProcessCall(share(c)));
          assert InPhase(a, c);
        }
      }
      forall c | c in b.mux.rejected ensures c in a.mux.initialized {
        assert c in Refusers(cfg, routes, e.txs, e.judges);
        CalledConsumers(cfg, a.mux, e.txs, c);
      }
    }
  }

  lemma TraceStep(m: Mux, m': Mux, cs: set<Str>, calls: Str -> seq<Call>, c: Str)
    requires m'.trace == AddCalls(m.trace, cs, calls)
    ensures Trace(m', c) == Trace(m, c) + (if c in cs then calls(c) else [])
    ensures c !in cs ==> Trace(m', c) == Trace(m, c)
  {
  }

  // The chains Commit will be sent to are exactly those FinalizeBlock was sent to, whether or not
  // they answered with an error.
  lemma DispatchedAreCommitted(m: Mux, req: Request, share: Str -> seq<Str>, apps: Str -> Consumer)
    requires m.initialized <= m.handlers
    ensures Committed(Dispatch(m, req, share, apps)) == Dispatched(m, req, apps)
  {
  }

  lemma InitPhase(m: Mux, req: Request, a: Consumer, c: Str)
    requires c !in m.initialized
    ensures Phases(New, InitCalls(m, req, a, c)) == if Initializes(m, req, a, c) then Ready else New
  {
    hide Started, StartCalls;
    OneStep(New, InfoCall(true));
    OneStep(New, InfoCall(false));
    var start := StartCalls(m.launch, a.start, c, req.time, req.height);
    PhasesAppend(New, [InfoCall(false)], start);
    StartPhase(m.launch, a.start, c, req.time, req.height);
  }

  lemma DispatchPhase(m: Mux, req: Request, share: Str -> seq<Str>, apps: Str -> Consumer, c: Str)
    requires c in Candidates(m)
    requires Phases(New, Trace(m, c)) == if c in m.initialized then Ready else New
    ensures Phases(New, Trace(Dispatch(m, req, share, apps), c)) ==
            if c in Dispatched(m, req, apps) then Busy else if c in m.initialized then Ready else New
  {
    hide AddCalls, Trace, Initializes;
    var calls := InitCalls(m, req, apps(c), c);
    var more := if c in Dispatched(m, req, apps) then [FinalizeCall(share(c))] else [];
    TraceStep(m, Dispatch(m, req, share, apps), Candidates(m), DispatchCalls(m, req, share, apps), c);
    PhasesAppend(New, Trace(m, c), calls + more);
    PhasesAppend(Phases(New, Trace(m, c)), calls, more);
    if c !in m.initialized {
      InitPhase(m, req, apps(c), c);
    }
    OneStep(Ready, FinalizeCall(share(c)));
  }

  lemma RespondDone(cfg: Config, routes: seq<Route>, provider: FinalizeReply, replies: map<Str, FinalizeReply>)
    ensures Respond(cfg, routes, provider, replies).Done?
  {
  }

  // When a block is answered, and what the answer is.
  lemma BlockDone(cfg: Config, m: Mux, req: Request, provider: FinalizeApp, reply: Option<QueryReply>, apps: Str -> Consumer)
    requires reply.Some? ==> |reply.value.value| <= MAX_INT
    ensures var routes, share := BlockRoutes(cfg, m, req.txs), BlockShares(cfg, m, req);
      var p := provider(share(cfg.providerId));
      var (n, o) := FinalizeBlock(cfg, m, req, provider, reply, apps);
      var ready := Refreshed(cfg, m, req, reply);
      && (o.Done? <==> !ShouldHalt(cfg, req) && Bad !in routes && p.Some?)
      && (o.Done? ==> n == Dispatch(ready, req, share, apps)
                      && o == Respond(cfg, routes, p.value, Replies(ready, req, share, apps)))
  {
    hide FirstBad, Shares, BlockShares, Replies, Respond, Dispatch, QueriedIds, BlockRoutes, ShouldHalt;
    var share := BlockShares(cfg, m, req);
    var p := provider(share(cfg.providerId));
    if p.Some? {
      RespondDone(cfg, BlockRoutes(cfg, m, req.txs), p.value, Replies(Refreshed(cfg, m, req, reply), req, share, apps));
    }
  }

  // A block either fails and changes nothing, or is dispatched with the refreshed active set: no
  // error return comes after dispatch.
  lemma BlockOutcome(cfg: Config, m: Mux, req: Request, provider: FinalizeApp, reply: Option<QueryReply>, apps: Str -> Consumer)
    requires reply.Some? ==> |reply.value.value| <= MAX_INT
    ensures var (m', out) := FinalizeBlock(cfg, m, req, provider, reply, apps);
      m' == if out.Done? then Dispatch(Refreshed(cfg, m, req, reply), req, BlockShares(cfg, m, req), apps) else m
  {
    hide Respond, Replies, Dispatch, QueriedIds, FirstBad, Shares;
    var routes := BlockRoutes(cfg, m, req.txs);
    if !ShouldHalt(cfg, req) && Bad !in routes {
      var p := provider(BlockShares(cfg, m, req)(cfg.providerId));
      if p.Some? {
        RespondDone(cfg, routes, p.value, Replies(Refreshed(cfg, m, req, reply), req, BlockShares(cfg, m, req), apps));
      }
    }
  }

  lemma BlockStep(cfg: Config, a: Conf, e: Event, b: Conf)
    requires Inv(cfg, a) && e.BlockEvent? && Step(cfg, a, e, b)
    ensures Inv(cfg, b)
  {
    hide AddCalls, Trace, FinalizeBlock, QueriedIds, Phases;
    BlockOutcome(cfg, a.mux, e.req, e.provider, e.reply, e.apps);
    if b.stage == Decided {
      var ready, share := Refreshed(cfg, a.mux, e.req, e.reply), BlockShares(cfg, a.mux, e.req);
      SameTraces(a.mux, ready);
      DispatchedAreCommitted(ready, e.req, share, e.apps);
      forall c ensures c !in b.mux.handlers ==> Trace(b.mux, c) == []
               ensures c in b.mux.handlers ==> InPhase(b, c)
      {
        assert Trace(ready, c) == Trace(a.mux, c);
        TraceStep(ready, b.mux, Candidates(ready), DispatchCalls(ready, e.req, share, e.apps), c);
        if c in b.mux.handlers {
          assert InPhase(a, c);
          assert c in Dispatched(ready, e.req, e.apps) ==> c in Candidates(ready);
          if c in Candidates(ready) {
            DispatchPhase(ready, e.req, share, e.apps, c);
          }
        }
      }
      assert Dispatched(ready, e.req, e.apps) <= a.mux.handlers;
    } else {
      forall c | c in b.mux.handlers ensures InPhase(b, c) {
        assert InPhase(a, c);
      }
    }
  }

  lemma SameTraces(m: Mux, m': Mux)
    requires m.trace == m'.trace
    ensures forall c :: Trace(m, c) == Trace(m', c)
  {
  }

  lemma CommitStep(cfg: Config, a: Conf, e: Event, b: Conf)
    requires Inv(cfg, a) && e.CommitEvent? && Step(cfg, a, e, b)
    ensures Inv(cfg, b)
  {
    hide AddCalls, Trace;
    if e.providerOk {
      forall c ensures c !in b.mux.handlers ==> Trace(b.mux, c) == []
               ensures c in b.mux.handlers ==> InPhase(b, c)
      {
        TraceStep(a.mux, b.mux, Committed(a.mux), OneCall(CommitCall), c);
        if c in b.mux.handlers {
          assert InPhase(a, c);
          PhasesAppend(New, Trace(a.mux, c), [CommitCall]);
          OneStep(Busy, CommitCall);
        }
      }
    } else {
      assert b.mux == a.mux;
      forall c | c in b.mux.handlers ensures InPhase(b, c) {
        assert InPhase(a, c);
      }
    }
  }

  // Every state of every run: the invariant; and initialized chains stay initialized.
  lemma {:induction false} RunInvariant(cfg: Config, confs: seq<Conf>, events: seq<Event>, i: nat)
    requires Behavior(cfg, confs, events) && Initial(cfg, confs[0]) && i < |confs|
    ensures Inv(cfg, confs[i])
    ensures i > 0 ==> confs[i - 1].mux.initialized <= confs[i].mux.initialized
    ensures confs[i].mux.handlers == confs[0].mux.handlers
  {
    hide AddCalls;
    if i > 0 {
      RunInvariant(cfg, confs, events, i - 1);
      var a, e, b := confs[i - 1], events[i - 1], confs[i];
      assert Step(cfg, a, e, b);
      match e
      case InitEvent(_, _, _) => InitStep(cfg, a, e, b);
      case ProposalEvent(_, _, _) => ProposalStep(cfg, a, e, b);
      case BlockEvent(_, _, _, _) => BlockStep(cfg, a, e, b);
      case CommitEvent(_) => CommitStep(cfg, a, e, b);
    }
  }

  /** Call discipline, for every consumer at every moment of every run: its FinalizeBlock and Commit
      calls form a prefix of (FinalizeBlock, Commit)*; each FinalizeBlock comes after a successful
      InitChain or an Info reply that showed existing state; and there is at most one such success. */
  lemma CallDiscipline(cfg: Config, confs: seq<Conf>, events: seq<Event>, i: nat, c: Str)
    requires Behavior(cfg, confs, events) && Initial(cfg, confs[0]) && i < |confs|
    ensures var calls := Trace(confs[i].mux, c);
      && Alternates(Blocks(calls), false)
      && (forall j, k :: 0 <= j < k < |calls| && Succeeds(calls[j]) ==> !Succeeds(calls[k]))
      && (forall k :: 0 <= k < |calls| && calls[k].FinalizeCall? ==> exists j :: 0 <= j < k && Succeeds(calls[j]))
  {
    RunInvariant(cfg, confs, events, i);
    assert c in confs[i].mux.handlers ==> InPhase(confs[i], c);
    var calls := Trace(confs[i].mux, c);
    BlocksAlternate(New, calls);
    forall j, k | 0 <= j < k < |calls| && Succeeds(calls[j]) ensures !Succeeds(calls[k]) {
      OneSuccess(New, calls, j, k);
    }
    forall k | 0 <= k < |calls| && calls[k].FinalizeCall? ensures exists j :: 0 <= j < k && Succeeds(calls[j]) {
      var j := SuccessBeforeBlock(calls, k);
    }
  }

  /** Per height: if FinalizeBlock answers and Commit follows, the consumers whose trace grows by
      Commit are exactly those whose trace grew by FinalizeBlock. */
  lemma CommitMatchesFinalize(cfg: Config, confs: seq<Conf>, events: seq<Event>, i: nat, c: Str)
    requires Behavior(cfg, confs, events) && Initial(cfg, confs[0])
    requires i + 1 < |events| && events[i].BlockEvent? && events[i + 1] == CommitEvent(true)
    ensures var t0, t1, t2 := Trace(confs[i].mux, c), Trace(confs[i + 1].mux, c), Trace(confs[i + 2].mux, c);
      var sent := FinalizeCall(BlockShares(cfg, confs[i].mux, events[i].req)(c));
      && t0 <= t1
      && (sent in t1[|t0|..] <==> t2 == t1 + [CommitCall])
      && (sent !in t1[|t0|..] <==> t2 == t1)
      && (forall call :: call in t1[|t0|..] && call.FinalizeCall? ==> call == sent)
  {
    hide AddCalls, Trace, FinalizeBlock, QueriedIds;
    RunInvariant(cfg, confs, events, i);
    var a, e, b := confs[i], events[i], confs[i + 1];
    assert Step(cfg, a, e, b) && Step(cfg, b, events[i + 1], confs[i + 2]);
    BlockOutcome(cfg, a.mux, e.req, e.provider, e.reply, e.apps);
    var ready, share := Refreshed(cfg, a.mux, e.req, e.reply), BlockShares(cfg, a.mux, e.req);
    SameTraces(a.mux, ready);
    DispatchedAreCommitted(ready, e.req, share, e.apps);
    TraceStep(ready, b.mux, Candidates(ready), DispatchCalls(ready, e.req, share, e.apps), c);
    TraceStep(b.mux, confs[i + 2].mux, Committed(b.mux), OneCall(CommitCall), c);
    var t0, t1 := Trace(a.mux, c), Trace(b.mux, c);
    assert t1[|t0|..] == if c in Candidates(ready) then DispatchCalls(ready, e.req, share, e.apps)(c) else [];
  }

  // A run finalizes no block at or past a configured halt height or time. Both are unsigned and
  // compared after conversion: a negative height halts, and a halt time past the int64 range wraps.
  lemma FinalizedBelowHalt(cfg: Config, confs: seq<Conf>, events: seq<Event>, i: nat)
    requires Behavior(cfg, confs, events) && i < |events| && events[i].BlockEvent? && confs[i + 1].stage == Decided
    ensures cfg.haltHeight > 0 ==> events[i].req.height < cfg.haltHeight
    ensures 0 < cfg.haltHeight <= TWO_63 ==> events[i].req.height >= 0
    ensures 0 < cfg.haltTime <= MAX_INT ==> events[i].req.time < cfg.haltTime
    ensures cfg.haltTime > MAX_INT ==> events[i].req.time < cfg.haltTime - TWO_64
  {
    hide BlockRoutes, Replies, Respond, QueriedIds, FirstBad, Payloads, Dispatch;
    assert Step(cfg, confs[i], events[i], confs[i + 1]);
  }

  /******* What consumers are started with *******/

  // Every InitChain among the calls is chain c's own, with the given validators and parameters.
  predicate Launched(launch: Launch, c: Str, calls: seq<Call>)
  {
    forall i :: 0 <= i < |calls| && calls[i].InitChainCall? ==>
      calls[i].req.chainId == c && calls[i].req.validators == launch.validators && calls[i].req.params == launch.params
  }

  lemma LaunchedAppend(launch: Launch, c: Str, a: seq<Call>, b: seq<Call>)
    requires Launched(launch, c, a) && Launched(launch, c, b)
    ensures Launched(launch, c, a + b)
  {
  }

  lemma LaunchedDispatch(m: Mux, req: Request, share: Str -> seq<Str>, apps: Str -> Consumer, c: Str)
    ensures Launched(m.launch, c, DispatchCalls(m, req, share, apps)(c))
  {
    hide Launched, Dispatched, Started;
    var start := StartCalls(m.launch, apps(c).start, c, req.time, req.height);
    var more := if c in Dispatched(m, req, apps) then [FinalizeCall(share(c))] else [];
    LaunchedCalls(m.launch, c, start);
    LaunchedCalls(m.launch, c, [InfoCall(false)]);
    LaunchedCalls(m.launch, c, [InfoCall(true)]);
    LaunchedCalls(m.launch, c, []);
    LaunchedCalls(m.launch, c, more);
    LaunchedAppend(m.launch, c, [InfoCall(false)], start);
    LaunchedAppend(m.launch, c, InitCalls(m, req, apps(c), c), more);
  }

  lemma LaunchedStep(cfg: Config, a: Conf, e: Event, b: Conf, c: Str)
    requires Step(cfg, a, e, b) && Launched(a.mux.launch, c, Trace(a.mux, c))
    requires a.stage == Start ==> Trace(a.mux, c) == []
    ensures Launched(b.mux.launch, c, Trace(b.mux, c))
    ensures !e.InitEvent? ==> b.mux.launch == a.mux.launch
    ensures e.InitEvent? && e.launcher(e.start).Some? ==> b.mux.launch == LaunchOf(e.launcher(e.start).value)
  {
    hide AddCalls, Trace, Launched, FinalizeBlock, QueriedIds, Dispatched, InitHashes, CombineHashes, InitAnswers, Called, Shares;
    match e
    case InitEvent(start, launcher, inits) =>
      if launcher(start).Some? {
        var launch := LaunchOf(launcher(start).value);
        var calls := InitChainCalls(launch, start, inits);
        TraceStep(a.mux, b.mux, InitAsked(a.mux, inits), calls, c);
        LaunchedCalls(launch, c, calls(c));
        LaunchedCalls(launch, c, []);
        LaunchedAppend(launch, c, [], calls(c));
      }
    case ProposalEvent(txs, _, _) =>
      var routes := ProposalRoutes(cfg, a.mux, txs);
      if Bad !in routes {
        var calls := ProcessCalls(Shares(routes, txs));
        TraceStep(a.mux, b.mux, Called(routes) - {cfg.providerId}, calls, c);
        LaunchedCalls(a.mux.launch, c, calls(c));
        LaunchedAppend(a.mux.launch, c, Trace(a.mux, c), calls(c));
      }
    case BlockEvent(req, provider, reply, apps) =>
      BlockOutcome(cfg, a.mux, req, provider, reply, apps);
      if b.stage == Decided {
        var ready, share := Refreshed(cfg, a.mux, req, reply), BlockShares(cfg, a.mux, req);
        SameTraces(a.mux, ready);
        TraceStep(ready, b.mux, Candidates(ready), DispatchCalls(ready, req, share, apps), c);
        LaunchedDispatch(ready, req, share, apps, c);
        LaunchedAppend(ready.launch, c, Trace(ready, c), DispatchCalls(ready, req, share, apps)(c));
      }
    case CommitEvent(ok) =>
      if ok {
        TraceStep(a.mux, b.mux, Committed(a.mux), OneCall(CommitCall), c);
        LaunchedCalls(a.mux.launch, c, [CommitCall]);
        LaunchedAppend(a.mux.launch, c, Trace(a.mux, c), [CommitCall]);
      }
  }

  lemma LaunchedCalls(launch: Launch, c: Str, calls: seq<Call>)
    requires |calls| <= 1
    requires forall i :: 0 <= i < |calls| && calls[i].InitChainCall? ==>
      calls[i].req.chainId == c && calls[i].req.validators == launch.validators && calls[i].req.params == launch.params
    ensures Launched(launch, c, calls)
  {
  }

  /** Every InitChain a consumer ever receives, at the start or when it becomes active later, names that
      consumer and carries the validators and parameters the provider answered to the engine's InitChain
      (those of the genesis document if the process saw none). */
  lemma {:induction false} SameLaunch(cfg: Config, confs: seq<Conf>, events: seq<Event>, i: nat, c: Str)
    requires Behavior(cfg, confs, events) && Initial(cfg, confs[0]) && i < |confs|
    ensures Launched(confs[i].mux.launch, c, Trace(confs[i].mux, c))
    ensures i > 0 && !events[i - 1].InitEvent? ==> confs[i].mux.launch == confs[i - 1].mux.launch
    ensures i > 0 && events[i - 1].InitEvent? && events[i - 1].launcher(events[i - 1].start).Some? ==>
              confs[i].mux.launch == LaunchOf(events[i - 1].launcher(events[i - 1].start).value)
  {
    hide Step, Inv;
    if i > 0 {
      SameLaunch(cfg, confs, events, i - 1, c);
      RunInvariant(cfg, confs, events, i - 1);
      if confs[i - 1].stage == Start {
        EmptyAtStart(cfg, confs[i - 1], c);
      }
      LaunchedStep(cfg, confs[i - 1], events[i - 1], confs[i], c);
    }
  }

  lemma EmptyAtStart(cfg: Config, a: Conf, c: Str)
    requires Inv(cfg, a) && a.stage == Start
    ensures Trace(a.mux, c) == []
  {
  }
}
