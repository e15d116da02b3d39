/** The multiplexer object: its four routing fields, changed by the ABCI calls. */
module Multiplexer {
  import opened GoTypes
  import opened ByteOrder
  import opened Header
  import opened Routing
  import opened QueryCodec
  import FanOut
  import opened Tallies
  import M = Mux
  import opened Mux

  lemma AddCallsNone(trace: map<Str, seq<Call>>, calls: Str -> seq<Call>)
    ensures AddCalls(trace, {}, calls) == trace
  {
    assert forall c :: c in trace ==> trace[c] + [] == trace[c];
  }

  // One more chain is called.
  lemma AddCallsStep(trace: map<Str, seq<Call>>, cs: set<Str>, calls: Str -> seq<Call>, c: Str)
    requires c !in cs
    ensures AddCalls(trace, cs, calls)[c := (if c in trace then trace[c] else []) + calls(c)]
         == AddCalls(trace, cs + {c}, calls)
  {
  }

  // The trace after some calls to one chain.
  function Extended(trace: map<Str, seq<Call>>, c: Str, calls: seq<Call>): map<Str, seq<Call>>
  {
    if calls == [] then trace else trace[c := (if c in trace then trace[c] else []) + calls]
  }

  // sort.Strings on the keys, then append the hashes in that order.
  method CombineSorted(hashes: map<Str, Str>) returns (h: Str)
    ensures h == CombineHashes(hashes)
  {
    hide SortedKeys;
    SortedKeysIn(hashes);
    var ids := SortedKeys(hashes.Keys);
    h := [];
    assert ids[0..] == ids;
    for i := 0 to |ids|
      invariant ConcatHashes(ids, hashes) == h + ConcatHashes(ids[i..], hashes)
    {
      assert ids[i..][1..] == ids[i + 1..];
      h := h + hashes[ids[i]];
    }
  }

  // A configured chain, and whether the connection to its application can be opened.
  datatype ChainInfo = ChainInfo(chainId: Str, connects: bool)

  function IdsOf(chains: seq<ChainInfo>): set<Str>
  {
    set i | 0 <= i < |chains| :: chains[i].chainId
  }

  class Multiplexer {
    const cfg: Config
    var handlers: set<Str>
    var rejected: set<Str>
    var initialized: set<Str>
    var active: set<Str>
    var launch: Launch
    ghost var trace: map<Str, seq<Call>>

    ghost function View(): Mux
      reads this
    {
      M.Mux(handlers, rejected, initialized, active, launch, trace)
    }

    // launch is what the genesis document says, until the provider's InitChain replaces it.
    constructor (cfg: Config, launch: Launch)
      ensures this.cfg == cfg && View() == M.Mux({}, {}, {}, {}, launch, map[])
    {
      this.cfg := cfg;
      this.launch := launch;
      handlers, rejected, initialized, active, trace := {}, {}, {}, {}, map[];
    }

    // Registers the configured chains in order; a failed connection or a repeated ID is an error.
    method InitChainHandlers(chains: seq<ChainInfo>) returns (ok: bool)
      modifies this`handlers
      ensures ok <==> (forall i :: 0 <= i < |chains| ==> chains[i].connects && chains[i].chainId !in old(handlers))
                      && forall i, j :: 0 <= i < j < |chains| ==> chains[i].chainId != chains[j].chainId
      ensures ok ==> handlers == old(handlers) + IdsOf(chains)
      ensures !ok ==> exists i :: 0 <= i < |chains| && handlers == old(handlers) + IdsOf(chains[..i])
    {
      for i := 0 to |chains|
        invariant handlers == old(handlers) + IdsOf(chains[..i])
        invariant forall j :: 0 <= j < i ==> chains[j].connects && chains[j].chainId !in old(handlers)
        invariant forall j, k :: 0 <= j < k < i ==> chains[j].chainId != chains[k].chainId
      {
        assert chains[..i + 1] == chains[..i] + [chains[i]];
        if !chains[i].connects {
          return false;
        }
        if chains[i].chainId in handlers {
          return false;
        }
        assert forall j :: 0 <= j < i ==> chains[..i][j].chainId in IdsOf(chains[..i]);
        handlers := handlers + {chains[i].chainId};
      }
      assert chains[..|chains|] == chains;
      ok := true;
    }

    method InitChain(req: InitRequest, provider: InitRequest -> Option<InitReply>, apps: Str -> InitApp)
      returns (reply: Option<InitReply>)
      requires cfg.providerId !in handlers
      modifies this`launch, this`initialized, this`trace
      ensures (View(), reply) == M.InitChain(cfg, old(View()), req, provider, apps)
    {
      hide InitAsked, InitAnswers, AddCalls, CombineHashes, InitHashes, InitChainCalls, Elements;
      ghost var start := View();
      var p := provider(req);
      if p.None? {
        return None;
      }
      launch := Launch(p.value.validators, p.value.params);
      ghost var ready := View();
      AskConsumers(req, apps);
      InitSets(start, ready, View(), req, apps);
      var got := FanOut.Collect(handlers, |handlers|);
      var hashes := CollectInit(got, p.value.appHash, req, apps);
      var h := CombineSorted(hashes);
      reply := Some(InitReply(h, p.value.validators, p.value.params));
    }

    // One goroutine per consumer, in any order: it loads the genesis and calls InitChain.
    ghost method AskConsumers(req: InitRequest, apps: Str -> InitApp)
      modifies this`trace
      ensures trace == AddCalls(old(trace), InitAsked(old(View()), apps), InitChainCalls(launch, req, apps))
    {
      hide AddCalls;
      ghost var start, asked, calls := View(), InitAsked(View(), apps), InitChainCalls(launch, req, apps);
      var todo := handlers;
      AddCallsNone(trace, calls);
      assert asked - todo == {};
      while todo != {}
        invariant todo <= handlers
        invariant trace == AddCalls(start.trace, asked - todo, calls)
      {
        var c :| c in todo;
        LeaveOne(asked, todo, c);
        if apps(c).genesis.Some? {
          AddCallsStep(start.trace, asked - todo, calls, c);
          TraceOfOthers(start.trace, asked - todo, calls, c);
          trace := Extended(trace, c, StartCalls(launch, apps(c), c, req.time, req.initialHeight));
        }
        todo := todo - {c};
      }
      assert asked - {} == asked;
    }

    // The results in the order of arrival; failures are logged and skipped.
    method CollectInit(got: seq<Str>, hash: Str, req: InitRequest, apps: Str -> InitApp) returns (hashes: map<Str, Str>)
      requires Elements(got) == handlers && cfg.providerId !in handlers
      modifies this`initialized
      ensures var ok := InitAnswers(old(View()), req, apps) * Elements(got);
        initialized == old(initialized) + ok && hashes == InitHashes(cfg, hash, launch, req, apps, ok)
    {
      ghost var start := View();
      ghost var ok: set<Str> := {};
      hashes := map[cfg.providerId := hash];
      assert hashes == InitHashes(cfg, hash, launch, req, apps, {});
      for i := 0 to |got|
        invariant ok == InitAnswers(start, req, apps) * Elements(got[..i])
        invariant initialized == start.initialized + ok
        invariant hashes == InitHashes(cfg, hash, launch, req, apps, ok)
      {
        hide InitAnswers, Elements, InitHashes;
        var c := got[i];
        assert got[..i + 1] == got[..i] + [c];
        ElementsAppend(got[..i], c);
        AnswersMean(start, req, apps, got, i);
        var appState := apps(c).genesis;
        if appState.Some? {
          var answer := apps(c).init(InitRequest(c, req.time, req.initialHeight, launch.validators, launch.params, appState.value));
          if answer.Some? {
            InitHashesStep(cfg, hash, launch, req, apps, ok, c);
            hashes := hashes[c := answer.value];
            initialized := initialized + {c};
            ok := ok + {c};
          }
        }
      }
      assert got[..|got|] == got;
    }

    method ProcessProposal(txs: seq<Str>, judges: Str -> Judge) returns (v: Verdict)
      requires cfg.providerId !in handlers
      modifies this`rejected, this`trace
      ensures M.ProcessProposal(cfg, old(View()), txs, judges, View(), v)
    {
      hide Grouped, Called, AddCalls, Approved, Refusers, Answer, Tally, Distinct, Elements;
      ghost var start := View();
      ghost var routes := ProposalRoutes(cfg, start, txs);
      var parsed, chainTxs := SortProposal(txs);
      if !parsed {
        return Status(REJECT);
      }
      trace := AddCalls(trace, chainTxs.Keys - {cfg.providerId}, ProcessCalls(Shares(routes, txs)));
      rejected := {};
      var got := FanOut.Collect(chainTxs.Keys, |chainTxs.Keys|);
      v := CollectVerdict(got, chainTxs, judges, routes, txs);
      OrderAllowed(cfg, routes, txs, judges, got);
    }

    // The loop over the transactions of a proposal; it stops at the first that does not parse.
    method SortProposal(txs: seq<Str>) returns (parsed: bool, chainTxs: map<Str, seq<Str>>)
      ensures var routes := ProposalRoutes(cfg, View(), txs);
        && (parsed <==> Bad !in routes)
        && (parsed ==> chainTxs.Keys == Called(routes))
        && (parsed ==> forall c :: c in chainTxs ==> chainTxs[c] == Payloads(routes, PayloadsOf(txs), To(c)))
    {
      hide Grouped, Called, Payloads;
      ghost var routes, payloads := ProposalRoutes(cfg, View(), txs), PayloadsOf(txs);
      ghost var positions: map<Str, seq<nat>> := map[];
      chainTxs := map[];
      EmptyGroups();
      for i := 0 to |txs|
        invariant Bad !in routes[..i]
        invariant Grouped(routes[..i], payloads[..i], chainTxs, positions)
      {
        assert routes[..i + 1] == routes[..i] + [routes[i]] && payloads[..i + 1] == payloads[..i] + [payloads[i]];
        GroupAppend(routes[..i], payloads[..i], routes[i], payloads[i], chainTxs, positions);
        var header := ParseHeader(txs[i]);
        if header.Err? {
          assert routes[i] == Bad;
          return false, chainTxs;
        }
        var (c, payload) := header.value;
        if c != cfg.providerId {
          if c !in handlers {
            continue;
          }
          if c !in initialized {
            continue;
          }
        }
        chainTxs := chainTxs[c := Get(chainTxs, c) + [payload]];
        positions := positions[c := Get(positions, c) + [i]];
      }
      assert routes[..|txs|] == routes && payloads[..|txs|] == payloads;
      GroupedKeys(routes, payloads, chainTxs, positions);
      parsed := true;
    }

    // The loop over the results of ProcessProposal, in the order got of their arrival.
    method CollectVerdict(got: seq<Str>, chainTxs: map<Str, seq<Str>>, judges: Str -> Judge,
                          ghost routes: seq<Route>, ghost txs: seq<Str>)
      returns (v: Verdict)
      requires |routes| == |txs| && forall c :: c in chainTxs ==> chainTxs[c] == Payloads(routes, PayloadsOf(txs), To(c))
      requires Elements(got) == chainTxs.Keys && rejected == {}
      modifies this`rejected
      ensures (rejected, v) == Tally(cfg, Answers(routes, txs, judges), got, {})
    {
      hide Payloads;
      assert got[0..] == got;
      for i := 0 to |got|
        invariant Tally(cfg, Answers(routes, txs, judges), got, {}) == Tally(cfg, Answers(routes, txs, judges), got[i..], rejected)
      {
        assert got[i..][0] == got[i] && got[i..][1..] == got[i + 1..];
        var c := got[i];
        assert c in Elements(got);
        var answer := judges(c)(chainTxs[c]);
        assert answer == Answer(routes, txs, judges, c);
        if answer.None? {
          return Failed;
        }
        if c == cfg.providerId && answer.value != ACCEPT {
          return Status(answer.value);
        }
        if c != cfg.providerId && answer.value != ACCEPT {
          rejected := rejected + {c};
        }
      }
      v := Status(ACCEPT);
    }

    // Returns an error, the text of which is not modelled, as None; else the app hash the chain starts
    // with, empty if it had state before.
    method InitChainIfNeeded(chain: Str, app: Consumer, req: Request) returns (hash: Option<Str>)
      requires chain in handlers
      modifies this`initialized, this`trace
      ensures hash == if chain in old(initialized) || HasState(app) then Some([])
                      else Started(launch, app.start, chain, req.time, req.height)
      ensures initialized == old(initialized) + (if hash.Some? then {chain} else {})
      ensures trace == Extended(old(trace), chain, InitCalls(old(View()), req, app, chain))
    {
      if chain in initialized {
        return Some([]);
      }
      ghost var before := View();
      trace := Extended(trace, chain, [InfoCall(HasState(app))]);
      if app.info.Some? && (app.info.value.0 > 0 || |app.info.value.1| > 0) {
        initialized := initialized + {chain};
        return Some([]);
      }
      assert !HasState(app);
      var appState := app.start.genesis;
      if appState.None? {
        assert [InfoCall(HasState(app))] == InitCalls(before, req, app, chain);
        return None;
      }
      var initReq := InitRequest(chain, req.time, req.height, launch.validators, launch.params, appState.value);
      var answer := app.start.init(initReq);
      trace := Extended(trace, chain, [InitChainCall(initReq, answer.Some?)]);
      ExtendTwice(before.trace, chain, [InfoCall(false)], [InitChainCall(initReq, answer.Some?)]);
      assert [InfoCall(false)] + [InitChainCall(initReq, answer.Some?)] == InitCalls(before, req, app, chain);
      if answer.None? {
        return None;
      }
      initialized := initialized + {chain};
      hash := answer;
    }

    // On any error the active set stays as it was.
    method UpdateActiveChains(reply: Option<QueryReply>) returns (ok: bool)
      requires reply.Some? ==> |reply.value.value| <= MAX_INT
      modifies this`active
      ensures ok <==> QueriedIds(cfg, reply).Some?
      ensures active == if ok then QueriedIds(cfg, reply).value else old(active)
    {
      if reply.None? || reply.value.code != 0 {
        return false;
      }
      var response := QueryCodec.Unmarshal(cfg.pages, EMPTY, reply.value.value);
      if response.Err? {
        return false;
      }
      var chains := response.value.consumerChains;
      var newActive: set<Str> := {};
      for i := 0 to |chains|
        invariant newActive == set c | c in chains[..i] :: c.chainId
      {
        assert chains[..i + 1] == chains[..i] + [chains[i]];
        newActive := newActive + {chains[i].chainId};
      }
      assert chains[..|chains|] == chains;
      active := newActive;
      ok := true;
    }

    /** The loop over the active chains, in any order: rejected and unregistered chains are skipped,
        the others initialized if need be, and FinalizeBlock is sent to those that are ready. */
    method DispatchAll(req: Request, chainTxs: map<Str, seq<Str>>, ghost share: Str -> seq<Str>, apps: Str -> Consumer)
      returns (dispatched: set<Str>)
      requires forall c :: share(c) == Get(chainTxs, c)
      modifies this`initialized, this`trace
      ensures dispatched == Dispatched(old(View()), req, apps)
      ensures View() == Dispatch(old(View()), req, share, apps)
    {
      hide Dispatched, Candidates, AddCalls, DispatchCalls;
      ghost var start, calls := View(), DispatchCalls(View(), req, share, apps);
      var todo := active;
      ghost var seen: set<Str> := {};
      dispatched := {};
      AddCallsNone(trace, calls);
      Bounds(start, req, apps);
      while todo != {}
        invariant todo <= active && seen == Candidates(start) - todo
        invariant dispatched == Dispatched(start, req, apps) - todo
        invariant initialized == start.initialized + dispatched
        invariant trace == AddCalls(start.trace, seen, calls)
      {
        var c :| c in todo;
        DispatchedMeans(start, req, apps, c);
        LeaveOne(Candidates(start), todo, c);
        LeaveOne(Dispatched(start, req, apps), todo, c);
        todo := todo - {c};
        if c in rejected {
          continue;
        }
        if c !in handlers {
          continue;
        }
        AddCallsStep(start.trace, seen, calls, c);
        TraceOfOthers(start.trace, seen, calls, c);
        ghost var before := View();
        SameInitCalls(start, before, req, share, apps, c);
        var hash := InitChainIfNeeded(c, apps(c), req);
        seen := seen + {c};
        if hash.None? {
          assert InitCalls(start, req, apps(c), c) + [] == InitCalls(start, req, apps(c), c);
          continue;
        }
        if c !in initialized {
          continue;
        }
        var txs := Get(chainTxs, c);
        dispatched := dispatched + {c};
        ExtendTwice(before.trace, c, InitCalls(start, req, apps(c), c), [FinalizeCall(txs)]);
        trace := Extended(trace, c, [FinalizeCall(txs)]);
      }
      assert Candidates(start) - {} == Candidates(start) && Dispatched(start, req, apps) - {} == Dispatched(start, req, apps);
    }

    // The loop over the transactions of a block: payloads and positions by chain, and skipped indices.
    method SortBlock(txs: seq<Str>) returns (bad: Option<nat>, chainTxs: map<Str, seq<Str>>, positions: map<Str, seq<nat>>,
                                             skipped: seq<nat>)
      ensures var routes := BlockRoutes(cfg, View(), txs);
        && (bad.None? <==> Bad !in routes)
        && (bad.Some? ==> bad.value == FirstBad(routes))
        && (bad.None? ==> Grouped(routes, PayloadsOf(txs), chainTxs, positions) && skipped == Positions(routes, Skip))
    {
      hide Grouped, Positions, FirstBad;
      ghost var routes, payloads := BlockRoutes(cfg, View(), txs), PayloadsOf(txs);
      chainTxs, positions, skipped := map[], map[], [];
      EmptyGroups();
      NoPositions(Skip);
      for i := 0 to |txs|
        invariant Bad !in routes[..i]
        invariant Grouped(routes[..i], payloads[..i], chainTxs, positions)
        invariant skipped == Positions(routes[..i], Skip)
      {
        assert routes[..i + 1] == routes[..i] + [routes[i]] && payloads[..i + 1] == payloads[..i] + [payloads[i]];
        GroupAppend(routes[..i], payloads[..i], routes[i], payloads[i], chainTxs, positions);
        var header := ParseHeader(txs[i]);
        if header.Err? {
          assert routes[i] == Bad;
          FirstBadAt(routes, i);
          return Some(i), chainTxs, positions, skipped;
        }
        var (c, payload) := header.value;
        if c in rejected {
          skipped := skipped + [i];
          continue;
        }
        if c != cfg.providerId {
          if c !in handlers {
            skipped := skipped + [i];
            continue;
          }
        }
        chainTxs := chainTxs[c := Get(chainTxs, c) + [payload]];
        positions := positions[c := Get(positions, c) + [i]];
      }
      assert routes[..|txs|] == routes && payloads[..|txs|] == payloads;
      bad := None;
    }

    /** Events are the provider's, then those of the answering consumers in some order; all the rest
        of the reply, and the new state, are the same for every map iteration and arrival order. */
    method FinalizeBlock(req: Request, provider: FinalizeApp, reply: Option<QueryReply>, apps: Str -> Consumer)
      returns (outcome: FinalizeOutcome, events: seq<Event>)
      requires cfg.providerId !in handlers
      requires reply.Some? ==> |reply.value.value| <= MAX_INT
      modifies this`active, this`initialized, this`trace
      ensures (View(), outcome) == M.FinalizeBlock(cfg, old(View()), req, provider, reply, apps)
      ensures outcome.Done? ==> EventsInSomeOrder(cfg, old(View()), req, provider, reply, apps, events)
    {
      hide Grouped, Positions, Payloads, Called, Dispatched, Dispatch, Table, CombineHashes, QueriedIds;
      ghost var start, routes := View(), BlockRoutes(cfg, View(), req.txs);
      ghost var share := BlockShares(cfg, start, req);
      events := [];
      if ShouldHalt(cfg, req) {
        return Halt, events;
      }
      var bad, chainTxs, positions, skipped := SortBlock(req.txs);
      if bad.Some? {
        return InvalidTx(bad.value), events;
      }
      SharesAre(routes, req.txs, chainTxs, positions);
      var p := provider(Get(chainTxs, cfg.providerId));
      if p.None? {
        return ProviderFailed, events;
      }
      if req.height > 1 {
        var _ := UpdateActiveChains(reply);
      }
      ghost var ready := View();
      assert ready == Refreshed(cfg, start, req, reply);
      var dispatched := DispatchAll(req, chainTxs, share, apps);
      DispatchedIsSmall(ready, req, apps);
      var got := FanOut.Collect(dispatched, |active|);
      var txResults, hashes, evs := Gather(got, chainTxs, positions, skipped, p.value, apps, req, ready, routes);
      events := evs;
      var appHash := CombineSorted(hashes);
      outcome := Done(txResults, appHash, p.value.validatorUpdates, p.value.consensusParamUpdates);
    }

    // Building the response: provider results, skip markers, then each consumer's as it arrives.
    method Gather(got: seq<Str>, chainTxs: map<Str, seq<Str>>, positions: map<Str, seq<nat>>, skipped: seq<nat>,
                  provider: FinalizeReply, apps: Str -> Consumer,
                  req: Request, ghost ready: Mux, ghost routes: seq<Route>)
      returns (txResults: seq<Option<TxResult>>, hashes: map<Str, Str>, events: seq<Event>)
      requires |routes| == |req.txs| && Grouped(routes, PayloadsOf(req.txs), chainTxs, positions)
      requires skipped == Positions(routes, Skip) && cfg.providerId !in ready.handlers
      requires Distinct(got) && Elements(got) == Dispatched(ready, req, apps)
      ensures var replies := Replies(ready, req, Shares(routes, req.txs), apps);
        && txResults == Table(routes, Results(replies[cfg.providerId := provider]), true)
        && hashes == Hashes(replies[cfg.providerId := provider])
        && events == provider.events + EventsOf(got, replies)
    {
      hide Grouped, Positions, Payloads, Called, Dispatched, Table, Results, Hashes, Sofar, EventsOf, Replies,
           Distinct, Elements, PayloadsOf;
      ghost var replies := Replies(ready, req, Shares(routes, req.txs), apps);
      var results := new Option<TxResult>[|req.txs|](_ => None);
      hashes := map[cfg.providerId := provider.appHash];
      events := provider.events;
      FirstReply(replies, cfg.providerId, provider);
      NoEvents(replies);
      assert got[..0] == [];
      WriteProvider(results, Get(positions, cfg.providerId), skipped, provider, routes, PayloadsOf(req.txs), chainTxs, positions);
      for i := 0 to |got|
        invariant results[..] == Table(routes, Results(Sofar(replies, Elements(got[..i]), cfg.providerId, provider)), true)
        invariant hashes == Hashes(Sofar(replies, Elements(got[..i]), cfg.providerId, provider))
        invariant events == provider.events + EventsOf(got[..i], replies)
      {
        var c := got[i];
        Arrival(ready, req, routes, apps, got, i, cfg.providerId, provider, chainTxs, positions);
        var res := apps(c).finalize(Get(chainTxs, c));
        WriteReply(results, Get(positions, c), res, c, routes,
                   Results(Sofar(replies, Elements(got[..i]), cfg.providerId, provider)));
        if res.Some? {
          hashes := hashes[c := res.value.appHash];
          Associate(provider.events, EventsOf(got[..i], replies), res.value.events);
          events := events + res.value.events;
        } else {
          Associate(provider.events, EventsOf(got[..i], replies), []);
        }
      }
      assert got[..|got|] == got;
      AllReplies(ready, req, Shares(routes, req.txs), apps, cfg.providerId, provider);
      txResults := results[..];
    }

    // The results of one arrival; an error leaves its positions alone.
    method WriteReply(results: array<Option<TxResult>>, positions: seq<nat>, res: Option<FinalizeReply>, ghost c: Str,
                      ghost routes: seq<Route>, ghost sofar: map<Str, seq<TxResult>>)
      requires positions == Positions(routes, To(c)) && c !in sofar && results[..] == Table(routes, sofar, true)
      modifies results
      ensures results[..] == Table(routes, if res.Some? then sofar[c := res.value.txResults] else sofar, true)
    {
      hide Positions, Table, Scatter;
      if res.Some? {
        ScatterReply(routes, sofar, true, c, res.value.txResults);
        WriteResults(results, positions, res.value.txResults);
      }
    }

    // The two loops before the collector: the provider's results, then the skip markers.
    method WriteProvider(results: array<Option<TxResult>>, mine: seq<nat>, skipped: seq<nat>, provider: FinalizeReply,
                         ghost routes: seq<Route>, ghost payloads: seq<Str>,
                         ghost chainTxs: map<Str, seq<Str>>, ghost positions: map<Str, seq<nat>>)
      requires |routes| == |payloads| == results.Length && forall i :: 0 <= i < results.Length ==> results[i] == None
      requires Grouped(routes, payloads, chainTxs, positions) && mine == Get(positions, cfg.providerId)
      requires skipped == Positions(routes, Skip)
      modifies results
      ensures results[..] == Table(routes, map[cfg.providerId := provider.txResults], true)
    {
      hide Grouped, Positions, Payloads, Called, Table, Scatter;
      NothingYet(routes, results[..]);
      GroupedGet(routes, payloads, chainTxs, positions, cfg.providerId);
      ScatterReply(routes, map[], false, cfg.providerId, provider.txResults);
      assert map[][cfg.providerId := provider.txResults] == map[cfg.providerId := provider.txResults];
      WriteResults(results, mine, provider.txResults);
      ScatterMarks(routes, map[cfg.providerId := provider.txResults], Marks(|skipped|));
      MarkSkipped(results, skipped);
    }

    /** Consumers commit in the order of the map iteration; their errors are logged and skipped. None when
        the provider fails. */
    method Commit(provider: Option<nat>, apps: Str -> Option<nat>) returns (retain: Option<nat>, ghost order: seq<Str>)
      modifies this`trace
      ensures View() == M.Commit(old(View()), provider.Some?)
      ensures provider.None? ==> retain == None
      ensures provider.Some? ==> Distinct(order) && Elements(order) == Committed(old(View()))
      ensures provider.Some? ==> retain == Some(Retained(order, provider.value, apps))
    {
      hide AddCalls, Distinct, Elements, Retained;
      retain, order := provider, [];
      if provider.None? {
        return;
      }
      ghost var start, calls := View(), OneCall(CommitCall);
      var todo := active;
      AddCallsNone(trace, calls);
      NobodyYet(provider.value, apps);
      assert Committed(start) - todo == {};
      while todo != {}
        invariant todo <= active
        invariant trace == AddCalls(start.trace, Committed(start) - todo, calls)
        invariant Distinct(order) && Elements(order) == Committed(start) - todo
        invariant retain == Some(Retained(order, provider.value, apps))
      {
        var c :| c in todo;
        LeaveOne(Committed(start), todo, c);
        ghost var done := Committed(start) - todo;
        todo := todo - {c};
        if c !in initialized {
          continue;
        }
        if c in rejected {
          continue;
        }
        if c !in handlers {
          continue;
        }
        AddCallsStep(start.trace, done, calls, c);
        TraceOfOthers(start.trace, done, calls, c);
        trace := Extended(trace, c, [CommitCall]);
        OneMore(order, c, provider.value, apps);
        order := order + [c];
        var resp := apps(c);
        if resp.None? {
          continue;
        }
        retain := resp;
      }
      assert Committed(start) - {} == Committed(start);
    }
  }

  lemma NobodyYet(provider: nat, apps: Str -> Option<nat>)
    ensures Distinct([]) && Elements([]) == {} && Retained([], provider, apps) == provider
  {
  }

  lemma OneMore(order: seq<Str>, c: Str, provider: nat, apps: Str -> Option<nat>)
    requires Distinct(order) && c !in Elements(order)
    ensures Distinct(order + [c]) && Elements(order + [c]) == Elements(order) + {c}
    ensures Retained(order + [c], provider, apps)
         == if apps(c).Some? then apps(c).value else Retained(order, provider, apps)
  {
    assert (order + [c])[..|order|] == order;
    ElementsAppend(order, c);
    assert forall i :: 0 <= i < |order| ==> order[i] in Elements(order);
  }

  // The provider's events first, then every answering consumer's, once each, in the order of arrival.
  ghost predicate EventsInSomeOrder(cfg: Config, m: Mux, req: Request, provider: FinalizeApp, reply: Option<QueryReply>,
                                    apps: Str -> Consumer, events: seq<Event>)
    requires reply.Some? ==> |reply.value.value| <= MAX_INT
  {
    var share := BlockShares(cfg, m, req);
    var p := provider(share(cfg.providerId));
    var ready := Refreshed(cfg, m, req, reply);
    p.Some? && exists order ::
      && Distinct(order) && Elements(order) == Dispatched(ready, req, apps)
      && events == p.value.events + EventsOf(order, Replies(ready, req, share, apps))
  }

  lemma NoPositions(r: Route)
    ensures Positions([], r) == []
  {
  }

  lemma FirstBadAt(routes: seq<Route>, i: nat)
    requires i < |routes| && routes[i] == Bad && Bad !in routes[..i]
    ensures Bad in routes && FirstBad(routes) == i
  {
    var k := FirstBad(routes);
  }

  lemma DispatchedIsSmall(m: Mux, req: Request, apps: Str -> Consumer)
    ensures |Dispatched(m, req, apps)| <= |m.active|
  {
    Bounds(m, req, apps);
    SubsetSize(Dispatched(m, req, apps), m.active);
  }

  lemma SubsetSize(a: set<Str>, b: set<Str>)
    requires a <= b
    ensures |a| <= |b|
  {
    assert b == a + (b - a);
  }

  // The provider's reply and those of the consumers cs that answered.
  function Sofar(replies: map<Str, FinalizeReply>, cs: set<Str>, id: Str, provider: FinalizeReply): map<Str, FinalizeReply>
  {
    (map c | c in replies && c in cs :: replies[c])[id := provider]
  }

  lemma FirstReply(replies: map<Str, FinalizeReply>, id: Str, provider: FinalizeReply)
    ensures Hashes(Sofar(replies, {}, id, provider)) == map[id := provider.appHash]
    ensures Results(Sofar(replies, {}, id, provider)) == map[id := provider.txResults]
    ensures Elements([]) == {}
  {
  }

  lemma NothingYet(routes: seq<Route>, blank: seq<Option<TxResult>>)
    requires |blank| == |routes| && forall i :: 0 <= i < |blank| ==> blank[i] == None
    ensures blank == Table(routes, map[], false)
  {
  }

  lemma NoEvents(replies: map<Str, FinalizeReply>)
    ensures EventsOf([], replies) == []
  {
  }

  lemma {:induction false} EventsConcat(a: seq<Str>, b: seq<Str>, replies: map<Str, FinalizeReply>)
    ensures EventsOf(a + b, replies) == EventsOf(a, replies) + EventsOf(b, replies)
    decreases |a|
  {
    if a == [] {
      assert a + b == b;
    } else {
      assert (a + b)[1..] == a[1..] + b;
      EventsConcat(a[1..], b, replies);
      Associate(if a[0] in replies then replies[a[0]].events else [], EventsOf(a[1..], replies), EventsOf(b, replies));
    }
  }

  lemma EventsAppend(order: seq<Str>, c: Str, replies: map<Str, FinalizeReply>)
    ensures EventsOf(order + [c], replies) == EventsOf(order, replies) + (if c in replies then replies[c].events else [])
  {
    EventsConcat(order, [c], replies);
    assert [c][1..] == [];
  }

  // A chain arrives once, and it is not the provider.
  lemma ArrivalIsNew(ready: Mux, req: Request, apps: Str -> Consumer, got: seq<Str>, i: nat)
    requires i < |got| && Distinct(got) && Elements(got) == Dispatched(ready, req, apps)
    ensures got[i] in Dispatched(ready, req, apps) && got[i] in ready.handlers && got[i] !in Elements(got[..i])
  {
    assert got[i] in Elements(got);
  }

  lemma ReplyOf(ready: Mux, req: Request, share: Str -> seq<Str>, apps: Str -> Consumer, c: Str)
    requires c in Dispatched(ready, req, apps)
    ensures var r := apps(c).finalize(share(c));
      var replies := Replies(ready, req, share, apps);
      (c in replies <==> r.Some?) && (r.Some? ==> replies[c] == r.value)
  {
  }

  lemma NextReply(replies: map<Str, FinalizeReply>, cs: set<Str>, id: Str, provider: FinalizeReply, c: Str)
    requires c != id && c !in cs
    ensures var now, next := Sofar(replies, cs, id, provider), Sofar(replies, cs + {c}, id, provider);
      && c !in now && c !in Results(now)
      && (c !in replies ==> next == now)
      && (c in replies ==> next == now[c := replies[c]])
      && (c in replies ==> Results(next) == Results(now)[c := replies[c].txResults])
      && (c in replies ==> Hashes(next) == Hashes(now)[c := replies[c].appHash])
  {
  }

  // What the i-th arrival adds to the hashes, the results and the events.
  lemma Arrival(ready: Mux, req: Request, routes: seq<Route>, apps: Str -> Consumer, got: seq<Str>, i: nat,
                id: Str, provider: FinalizeReply, chainTxs: map<Str, seq<Str>>, positions: map<Str, seq<nat>>)
    requires |routes| == |req.txs| && Grouped(routes, PayloadsOf(req.txs), chainTxs, positions) && id !in ready.handlers
    requires i < |got| && Distinct(got) && Elements(got) == Dispatched(ready, req, apps)
    ensures var c, replies := got[i], Replies(ready, req, Shares(routes, req.txs), apps);
      var now := Sofar(replies, Elements(got[..i]), id, provider);
      var next := Sofar(replies, Elements(got[..i + 1]), id, provider);
      var res := apps(c).finalize(Get(chainTxs, c));
      && Get(positions, c) == Positions(routes, To(c)) && c !in Results(now)
      && Results(next) == (if res.Some? then Results(now)[c := res.value.txResults] else Results(now))
      && Hashes(next) == (if res.Some? then Hashes(now)[c := res.value.appHash] else Hashes(now))
      && EventsOf(got[..i + 1], replies) == EventsOf(got[..i], replies) + (if res.Some? then res.value.events else [])
  {
    hide Grouped, Positions, Payloads, Called, Dispatched, Results, Hashes, Sofar, EventsOf, Replies, Distinct, Elements, PayloadsOf;
    var c, replies := got[i], Replies(ready, req, Shares(routes, req.txs), apps);
    assert got[..i + 1] == got[..i] + [c];
    ElementsAppend(got[..i], c);
    EventsAppend(got[..i], c, replies);
    ArrivalIsNew(ready, req, apps, got, i);
    NextReply(replies, Elements(got[..i]), id, provider, c);
    GroupedGet(routes, PayloadsOf(req.txs), chainTxs, positions, c);
    ReplyOf(ready, req, Shares(routes, req.txs), apps, c);
  }

  lemma Associate(a: seq<Event>, b: seq<Event>, c: seq<Event>)
    ensures a + b + c == a + (b + c)
    ensures c == [] ==> a + b == a + (b + c)
  {
  }

  lemma AllReplies(ready: Mux, req: Request, share: Str -> seq<Str>, apps: Str -> Consumer, id: Str, provider: FinalizeReply)
    ensures var replies := Replies(ready, req, share, apps);
      Sofar(replies, Dispatched(ready, req, apps), id, provider) == replies[id := provider]
  {
    hide Dispatched;
    var replies := Replies(ready, req, share, apps);
    assert (map c | c in replies && c in Dispatched(ready, req, apps) :: replies[c]) == replies;
  }

  // The lists the demultiplexing loop has built are the chains' shares.
  lemma SharesAre(routes: seq<Route>, txs: seq<Str>, chainTxs: map<Str, seq<Str>>, positions: map<Str, seq<nat>>)
    requires |routes| == |txs| && Grouped(routes, PayloadsOf(txs), chainTxs, positions)
    ensures forall c :: Shares(routes, txs)(c) == Get(chainTxs, c)
  {
    hide Grouped, Get;
    forall c ensures Shares(routes, txs)(c) == Get(chainTxs, c) {
      GroupedGet(routes, PayloadsOf(txs), chainTxs, positions, c);
    }
  }

  lemma ExtendTwice(trace: map<Str, seq<Call>>, c: Str, a: seq<Call>, b: seq<Call>)
    ensures Extended(Extended(trace, c, a), c, b) == Extended(trace, c, a + b)
  {
    var past := if c in trace then trace[c] else [];
    if a == [] {
      assert a + b == b;
    } else if b == [] {
      assert a + b == a;
    } else {
      assert past + a + b == past + (a + b);
      assert trace[c := past + a][c := past + a + b] == trace[c := past + (a + b)];
    }
  }

  lemma Bounds(m: Mux, req: Request, apps: Str -> Consumer)
    ensures Dispatched(m, req, apps) <= Candidates(m) <= m.active
  {
  }

  lemma LeaveOne(s: set<Str>, todo: set<Str>, c: Str)
    requires c in todo
    ensures s - (todo - {c}) == if c in s then (s - todo) + {c} else s - todo
  {
  }

  // Chains dispatched before c do not change what initChainIfNeeded does for c.
  lemma SameInitCalls(start: Mux, now: Mux, req: Request, share: Str -> seq<Str>, apps: Str -> Consumer, c: Str)
    requires c in now.initialized <==> c in start.initialized
    requires now.launch == start.launch
    ensures InitCalls(now, req, apps(c), c) == InitCalls(start, req, apps(c), c)
    ensures DispatchCalls(start, req, share, apps)(c) == InitCalls(start, req, apps(c), c)
              + (if c in Dispatched(start, req, apps) then [FinalizeCall(share(c))] else [])
  {
  }

  lemma InitHashesStep(cfg: Config, hash: Str, launch: Launch, req: InitRequest, apps: Str -> InitApp, ok: set<Str>, c: Str)
    requires c != cfg.providerId && Started(launch, apps(c), c, req.time, req.initialHeight).Some?
    ensures InitHashes(cfg, hash, launch, req, apps, ok)[c := Started(launch, apps(c), c, req.time, req.initialHeight).value]
         == InitHashes(cfg, hash, launch, req, apps, ok + {c})
  {
  }

  lemma InitSets(start: Mux, ready: Mux, now: Mux, req: InitRequest, apps: Str -> InitApp)
    requires now.handlers == ready.handlers == start.handlers && now.launch == ready.launch
    ensures InitAnswers(now, req, apps) == InitAnswers(ready, req, apps)
    ensures InitAsked(ready, apps) == InitAsked(start, apps)
    ensures InitAnswers(ready, req, apps) * ready.handlers == InitAnswers(ready, req, apps)
  {
  }

  lemma AnswersMean(m: Mux, req: InitRequest, apps: Str -> InitApp, got: seq<Str>, i: nat)
    requires i < |got| && Elements(got) == m.handlers
    ensures got[i] in m.handlers
    ensures got[i] in InitAnswers(m, req, apps) <==> Started(m.launch, apps(got[i]), got[i], req.time, req.initialHeight).Some?
  {
    assert got[i] in Elements(got);
  }

  lemma DispatchedMeans(m: Mux, req: Request, apps: Str -> Consumer, c: Str)
    ensures c in Candidates(m) <==> c in m.active && c !in m.rejected && c in m.handlers
    ensures c in Dispatched(m, req, apps) <==> c in Candidates(m) && (c in m.initialized || Initializes(m, req, apps(c), c))
  {
  }

  lemma TraceOfOthers(trace: map<Str, seq<Call>>, cs: set<Str>, calls: Str -> seq<Call>, c: Str)
    requires c !in cs
    ensures var t := AddCalls(trace, cs, calls); (if c in t then t[c] else []) == (if c in trace then trace[c] else [])
  {
    assert c in trace ==> trace[c] + [] == trace[c];
  }

  lemma EmptyGroups()
    ensures Grouped([], [], map[], map[])
  {
  }

  lemma GroupedKeys(routes: seq<Route>, payloads: seq<Str>, chainTxs: map<Str, seq<Str>>, positions: map<Str, seq<nat>>)
    requires |routes| == |payloads| && Grouped(routes, payloads, chainTxs, positions)
    ensures chainTxs.Keys == Called(routes)
    ensures forall c :: c in chainTxs ==> chainTxs[c] == Payloads(routes, payloads, To(c))
  {
  }
}
