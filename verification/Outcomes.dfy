/**
 What the replies of InitChain and FinalizeBlock hold and what the calls leave behind, for any state and any
 answers of the applications, stated on the transactions of the request and the applications' answers.
 */
module Outcomes {
  import opened GoTypes
  import opened ByteOrder
  import opened Routing
  import opened Mux
  import M = Mux
  import opened QueryCodec
  import opened MuxRuns
  import opened Multiplexer
  import opened Demux

  function Joined<T>(parts: seq<seq<T>>): seq<T>
  {
    if parts == [] then [] else parts[0] + Joined(parts[1..])
  }

  // Each ID before the next: at their first difference it has the smaller byte, or it ends.
  ghost predicate InByteOrder(ids: seq<Str>)
  {
    forall i, j :: 0 <= i < j < |ids| ==> Before(ids[i], ids[j])
  }

  ghost predicate Before(a: Str, b: Str)
  {
    exists k :: DiffersAt(a, b, k)
  }

  lemma SortedInOrder(ids: seq<Str>)
    requires Sorted(ids)
    ensures InByteOrder(ids)
  {
    hide Less;
    forall i, j | 0 <= i < j < |ids| ensures Before(ids[i], ids[j]) {
      LessIff(ids[i], ids[j]);
    }
  }

  lemma {:induction false} ConcatParts(ids: seq<Str>, hashes: map<Str, Str>) returns (parts: seq<Str>)
    requires forall c :: c in ids ==> c in hashes
    ensures |parts| == |ids| && forall k :: 0 <= k < |ids| ==> parts[k] == hashes[ids[k]]
    ensures ConcatHashes(ids, hashes) == Joined(parts)
  {
    if ids == [] {
      parts := [];
    } else {
      var rest := ConcatParts(ids[1..], hashes);
      parts := [hashes[ids[0]]] + rest;
      assert parts[1..] == rest;
    }
  }

  // The parts of a combined hash: one for each chain, in the byte order of the IDs.
  lemma HashParts(hashes: map<Str, Str>) returns (ids: seq<Str>, parts: seq<Str>)
    ensures InByteOrder(ids) && forall c :: c in ids <==> c in hashes
    ensures |parts| == |ids| && forall k :: 0 <= k < |ids| ==> ids[k] in ids && parts[k] == hashes[ids[k]]
    ensures CombineHashes(hashes) == Joined(parts)
  {
    hide SortedKeys, Sorted, InByteOrder, ConcatHashes, Joined;
    ids := SortedKeys(hashes.Keys);
    SortedInOrder(ids);
    assert forall c :: c in ids <==> c in Elements(ids);
    SortedKeysIn(hashes);
    parts := ConcatParts(ids, hashes);
  }

  /******* InitChain *******/

  // The consumer loads its genesis and, asked to start at that time and height with the given validators and
  // parameters and its own genesis state, answers this app hash.
  predicate Starts(a: InitApp, launch: Launch, time: int64, height: int64, c: Str, hash: Str)
  {
    && a.genesis.Some?
    && a.init(InitRequest(c, time, height, launch.validators, launch.params, a.genesis.value)) == Some(hash)
  }

  ghost predicate CanStart(a: InitApp, launch: Launch, time: int64, height: int64, c: Str)
  {
    exists hash :: Starts(a, launch, time, height, c, hash)
  }

  // The one call that asks it to, if its genesis loads.
  ghost predicate StartingCalls(a: InitApp, launch: Launch, time: int64, height: int64, c: Str, calls: seq<Call>)
  {
    match a.genesis
    case None => calls == []
    case Some(state) =>
      && |calls| == 1 && calls[0].InitChainCall?
      && calls[0].req == InitRequest(c, time, height, launch.validators, launch.params, state)
      && (calls[0].ok <==> CanStart(a, launch, time, height, c))
  }

  lemma StartedIff(a: InitApp, launch: Launch, time: int64, height: int64, c: Str)
    ensures forall hash :: Started(launch, a, c, time, height) == Some(hash) <==> Starts(a, launch, time, height, c, hash)
    ensures Started(launch, a, c, time, height).Some? <==> CanStart(a, launch, time, height, c)
    ensures StartingCalls(a, launch, time, height, c, StartCalls(launch, a, c, time, height))
  {
    var started := Started(launch, a, c, time, height);
    if started.Some? {
      assert Starts(a, launch, time, height, c, started.value);
    }
  }

  // What a failing provider leaves: nothing has happened.
  lemma InitFails(cfg: Config, m: Mux, req: InitRequest, provider: InitRequest -> Option<InitReply>, apps: Str -> InitApp)
    ensures InitChain(cfg, m, req, provider, apps).1.None? <==> provider(req).None?
    ensures provider(req).None? ==> InitChain(cfg, m, req, provider, apps).0 == m
  {
  }

  lemma InitHashIff(cfg: Config, m: Mux, req: InitRequest, p: InitReply, apps: Str -> InitApp, c: Str)
    ensures var launch := Launch(p.validators, p.params);
      var hashes := InitHashes(cfg, p.appHash, launch, req, apps, InitAnswers(m.(launch := launch), req, apps));
      && (c in hashes <==>
            c == cfg.providerId || (c in m.handlers && CanStart(apps(c), launch, req.time, req.initialHeight, c)))
      && (c == cfg.providerId ==> hashes[c] == p.appHash)
      && (c != cfg.providerId && c in hashes ==> Starts(apps(c), launch, req.time, req.initialHeight, c, hashes[c]))
  {
    hide Started, Starts, CanStart;
    StartedIff(apps(c), Launch(p.validators, p.params), req.time, req.initialHeight, c);
  }

  /** The reply of InitChain: the provider's validators and parameters, and an app hash made of one part per
      chain in the byte order of the IDs: the provider's own hash, and for each registered consumer that
      loads its genesis and answers, its answer to the request with its ID, the engine's time and initial
      height, the provider's validators and parameters, and its own genesis state. Nobody else has a part. */
  lemma InitReplyMeans(cfg: Config, m: Mux, req: InitRequest, provider: InitRequest -> Option<InitReply>, apps: Str -> InitApp)
    returns (ids: seq<Str>, parts: seq<Str>)
    requires provider(req).Some?
    ensures var p, reply := provider(req).value, InitChain(cfg, m, req, provider, apps).1;
      var launch := Launch(p.validators, p.params);
      && reply.Some? && reply.value.validators == p.validators && reply.value.params == p.params
      && reply.value.appHash == Joined(parts)
      && InByteOrder(ids) && |parts| == |ids|
      && (forall c :: c in ids <==>
            c == cfg.providerId || (c in m.handlers && CanStart(apps(c), launch, req.time, req.initialHeight, c)))
      && (forall k | 0 <= k < |ids| ::
            if ids[k] == cfg.providerId then parts[k] == p.appHash
            else Starts(apps(ids[k]), launch, req.time, req.initialHeight, ids[k], parts[k]))
  {
    hide Joined, InByteOrder, CanStart, Starts, InitHashes, InitAnswers, CombineHashes, AddCalls, InitAsked;
    var p := provider(req).value;
    var launch := Launch(p.validators, p.params);
    var ready := m.(launch := launch);
    var hashes := InitHashes(cfg, p.appHash, launch, req, apps, InitAnswers(ready, req, apps));
    ids, parts := HashParts(hashes);
    forall c ensures c in ids <==>
                       c == cfg.providerId || (c in m.handlers && CanStart(apps(c), launch, req.time, req.initialHeight, c)) {
      InitHashIff(cfg, m, req, p, apps, c);
    }
    forall k | 0 <= k < |ids|
      ensures if ids[k] == cfg.providerId then parts[k] == p.appHash
              else Starts(apps(ids[k]), launch, req.time, req.initialHeight, ids[k], parts[k])
    {
      InitHashIff(cfg, m, req, p, apps, ids[k]);
    }
  }

  // What InitChain leaves behind when the provider answers.
  lemma InitState(cfg: Config, m: Mux, req: InitRequest, provider: InitRequest -> Option<InitReply>, apps: Str -> InitApp, c: Str)
    returns (calls: seq<Call>)
    requires provider(req).Some?
    ensures var p, n := provider(req).value, InitChain(cfg, m, req, provider, apps).0;
      var launch := Launch(p.validators, p.params);
      && n.launch == launch && n.handlers == m.handlers && n.active == m.active && n.rejected == m.rejected
      && (c in n.initialized <==>
            c in m.initialized || (c in m.handlers && CanStart(apps(c), launch, req.time, req.initialHeight, c)))
      && Trace(n, c) == Trace(m, c) + calls
      && (c in m.handlers ==> StartingCalls(apps(c), launch, req.time, req.initialHeight, c, calls))
      && (c !in m.handlers ==> calls == [])
  {
    hide CanStart, InitHashes, InitAnswers, CombineHashes, AddCalls, InitAsked, Trace, Started, StartCalls, StartingCalls;
    var p, n := provider(req).value, InitChain(cfg, m, req, provider, apps).0;
    var launch := Launch(p.validators, p.params);
    var start := InitChainCalls(launch, req, apps);
    TraceStep(m, n, InitAsked(m, apps), start, c);
    AskedMeans(m, req, apps, c);
    AskedMeans(m.(launch := launch), req, apps, c);
    StartedIff(apps(c), launch, req.time, req.initialHeight, c);
    Unasked(launch, apps(c), c, req.time, req.initialHeight);
    calls := if c in InitAsked(m, apps) then start(c) else [];
  }

  lemma Unasked(launch: Launch, a: InitApp, c: Str, time: int64, height: int64)
    ensures a.genesis.None? ==> StartCalls(launch, a, c, time, height) == []
  {
  }

  /******* FinalizeBlock: whether it answers *******/

  // At or past the configured height, or the configured time. Both are unsigned: a negative height counts
  // as one above every signed one, a time past the signed range as a negative one.
  predicate HaltDue(cfg: Config, req: Request)
  {
    || (cfg.haltHeight > 0 && (if req.height >= 0 then req.height else req.height + 18446744073709551616) >= cfg.haltHeight)
    || (cfg.haltTime > 0
        && req.time >= (if cfg.haltTime < 9223372036854775808 then cfg.haltTime else cfg.haltTime - 18446744073709551616))
  }

  lemma HaltIff(cfg: Config, req: Request)
    ensures ShouldHalt(cfg, req) <==> HaltDue(cfg, req)
  {
  }

  /** Every outcome of FinalizeBlock, in the order of the checks: a due halt; the first transaction whose
      header does not parse; an error of the provider on the transactions it is handed; and otherwise a
      reply, which carries the provider's updates. Only a reply changes the state. */
  lemma BlockVerdict(cfg: Config, m: Mux, req: Request, provider: FinalizeApp, reply: Option<QueryReply>, apps: Str -> Consumer,
                     handed: seq<Str>)
    requires reply.Some? ==> |reply.value.value| <= MAX_INT
    requires BlockHands(cfg, m, req.txs, cfg.providerId, handed)
    ensures var (n, o) := FinalizeBlock(cfg, m, req, provider, reply, apps);
      && (o.Halt? <==> HaltDue(cfg, req))
      && (o.InvalidTx? <==> !HaltDue(cfg, req) && !AllParse(req.txs))
      && (o.InvalidTx? ==> o.index < |req.txs| && !Parses(req.txs[o.index]) && AllParse(req.txs[..o.index]))
      && (o.ProviderFailed? <==> !HaltDue(cfg, req) && AllParse(req.txs) && provider(handed).None?)
      && (o.Done? ==> && o.validatorUpdates == provider(handed).value.validatorUpdates
                      && o.consensusParamUpdates == provider(handed).value.consensusParamUpdates)
      && (!o.Done? ==> n == m)
  {
    hide Refreshed, Dispatch, Replies, CombineHashes, Table, BlockShares, Parses, BlockHands, BlockRoutes, HaltDue, ShouldHalt;
    HaltIff(cfg, req);
    BlockHandsIff(cfg, m, req, cfg.providerId, handed);
    BlockBad(cfg, m, req.txs);
    var routes := BlockRoutes(cfg, m, req.txs);
    if Bad in routes {
      var i := FirstBad(routes);
      forall j | 0 <= j < i ensures Parses(req.txs[j]) {
        assert routes[..i][j] == routes[j];
      }
    }
  }

  /******* FinalizeBlock: who is sent the block *******/

  predicate Answered(cfg: Config, req: Request, reply: Option<QueryReply>)
    requires reply.Some? ==> |reply.value.value| <= MAX_INT
  {
    && req.height > 1 && reply.Some? && reply.value.code == 0
    && DecodeResponse(cfg.pages, reply.value.value).Ok?
  }

  // The chain is listed in the provider's answer or, if that does not count, was active before.
  ghost predicate ActiveNow(cfg: Config, m: Mux, req: Request, reply: Option<QueryReply>, c: Str)
    requires reply.Some? ==> |reply.value.value| <= MAX_INT
  {
    if Answered(cfg, req, reply) then
      var chains := DecodeResponse(cfg.pages, reply.value.value).value.consumerChains;
      exists i :: 0 <= i < |chains| && chains[i].chainId == c
    else c in m.active
  }

  lemma ActiveIff(cfg: Config, m: Mux, req: Request, reply: Option<QueryReply>, c: Str)
    requires reply.Some? ==> |reply.value.value| <= MAX_INT
    ensures c in ActiveFor(cfg, m, req, reply) <==> ActiveNow(cfg, m, req, reply, c)
  {
    hide DecodeResponse;
    if Answered(cfg, req, reply) {
      var chains := DecodeResponse(cfg.pages, reply.value.value).value;
      ListedIff(chains, c);
    }
  }

  lemma ListedIff(chains: ActiveChains, c: Str)
    ensures c in ChainIds(chains) <==> exists i :: 0 <= i < |chains.consumerChains| && chains.consumerChains[i].chainId == c
  {
    if i :| 0 <= i < |chains.consumerChains| && chains.consumerChains[i].chainId == c {
      assert chains.consumerChains[i] in chains.consumerChains;
    }
  }

  // Its Info reply shows a height above zero or an app hash.
  predicate ShowsState(a: Consumer)
  {
    a.info.Some? && (a.info.value.0 > 0 || a.info.value.1 != [])
  }

  // Active, not rejected, registered.
  ghost predicate InLine(cfg: Config, m: Mux, req: Request, reply: Option<QueryReply>, c: Str)
    requires reply.Some? ==> |reply.value.value| <= MAX_INT
  {
    ActiveNow(cfg, m, req, reply, c) && c !in m.rejected && c in m.handlers
  }

  // In line, and initialized before or now.
  ghost predicate IsSent(cfg: Config, m: Mux, req: Request, reply: Option<QueryReply>, apps: Str -> Consumer, c: Str)
    requires reply.Some? ==> |reply.value.value| <= MAX_INT
  {
    && InLine(cfg, m, req, reply, c)
    && (c in m.initialized || ShowsState(apps(c)) || CanStart(apps(c).start, m.launch, req.time, req.height, c))
  }

  // The calls that go before the block: none to an initialized chain; otherwise Info and, if that shows no
  // state, InitChain with the time and height of the block.
  ghost predicate Opens(m: Mux, req: Request, a: Consumer, c: Str, calls: seq<Call>)
  {
    if c in m.initialized then calls == []
    else
      && |calls| >= 1 && calls[0] == InfoCall(ShowsState(a))
      && if ShowsState(a) then calls[1..] == []
         else StartingCalls(a.start, m.launch, req.time, req.height, c, calls[1..])
  }

  lemma SentIff(cfg: Config, m: Mux, req: Request, reply: Option<QueryReply>, apps: Str -> Consumer, c: Str)
    requires reply.Some? ==> |reply.value.value| <= MAX_INT
    ensures c in Candidates(Refreshed(cfg, m, req, reply)) <==> InLine(cfg, m, req, reply, c)
    ensures c in Dispatched(Refreshed(cfg, m, req, reply), req, apps) <==> IsSent(cfg, m, req, reply, apps, c)
  {
    hide ActiveFor, ActiveNow, CanStart, Started;
    ActiveIff(cfg, m, req, reply, c);
    StartedIff(apps(c).start, m.launch, req.time, req.height, c);
  }

  lemma OpeningCalls(m: Mux, req: Request, a: Consumer, c: Str)
    ensures Opens(m, req, a, c, InitCalls(m, req, a, c))
  {
    hide StartCalls, StartingCalls;
    StartedIff(a.start, m.launch, req.time, req.height, c);
    var start := StartCalls(m.launch, a.start, c, req.time, req.height);
    assert ([InfoCall(false)] + start)[1..] == start;
    assert [InfoCall(true)][1..] == [];
  }

  /** What an answered block leaves behind: the active set, the chains initialized, and the calls of each
      chain: an opening if it is in line, and, exactly if it is sent the block, one FinalizeBlock with its
      transactions without their headers. */
  lemma BlockCalls(cfg: Config, m: Mux, req: Request, provider: FinalizeApp, reply: Option<QueryReply>, apps: Str -> Consumer,
                   c: Str, handed: seq<Str>) returns (opening: seq<Call>)
    requires reply.Some? ==> |reply.value.value| <= MAX_INT
    requires FinalizeBlock(cfg, m, req, provider, reply, apps).1.Done? && BlockHands(cfg, m, req.txs, c, handed)
    ensures var n := FinalizeBlock(cfg, m, req, provider, reply, apps).0;
      var sent := IsSent(cfg, m, req, reply, apps, c);
      && n.handlers == m.handlers && n.rejected == m.rejected && n.launch == m.launch
      && (c in n.active <==> ActiveNow(cfg, m, req, reply, c))
      && (c in n.initialized <==> c in m.initialized || sent)
      && Trace(n, c) == Trace(m, c) + opening + (if sent then [FinalizeCall(handed)] else [])
      && (InLine(cfg, m, req, reply, c) ==> Opens(m, req, apps(c), c, opening))
      && (!InLine(cfg, m, req, reply, c) ==> opening == [])
  {
    hide FinalizeBlock, ActiveFor, ActiveNow, Trace, AddCalls, InitCalls, Opens, BlockShares, BlockHands, Candidates, Dispatched,
         InLine, IsSent;
    BlockOutcome(cfg, m, req, provider, reply, apps);
    BlockHandsIff(cfg, m, req, c, handed);
    var ready, share := Refreshed(cfg, m, req, reply), BlockShares(cfg, m, req);
    var n := Dispatch(ready, req, share, apps);
    SameTraces(m, ready);
    ActiveIff(cfg, m, req, reply, c);
    SentIff(cfg, m, req, reply, apps, c);
    InLineSent(cfg, m, req, reply, apps, c);
    TraceStep(ready, n, Candidates(ready), DispatchCalls(ready, req, share, apps), c);
    OpeningCalls(m, req, apps(c), c);
    SameOpening(m, ready, req, apps(c), c);
    opening := if c in Candidates(ready) then InitCalls(m, req, apps(c), c) else [];
    var block := if c in Dispatched(ready, req, apps) then [FinalizeCall(handed)] else [];
    assert Trace(m, c) + (opening + block) == Trace(m, c) + opening + block;
  }

  lemma InLineSent(cfg: Config, m: Mux, req: Request, reply: Option<QueryReply>, apps: Str -> Consumer, c: Str)
    requires reply.Some? ==> |reply.value.value| <= MAX_INT
    ensures IsSent(cfg, m, req, reply, apps, c) ==> InLine(cfg, m, req, reply, c)
  {
  }

  lemma SameOpening(m: Mux, m': Mux, req: Request, a: Consumer, c: Str)
    requires m.launch == m'.launch && m.initialized == m'.initialized
    ensures InitCalls(m, req, a, c) == InitCalls(m', req, a, c)
  {
  }

  /******* FinalizeBlock: what the reply holds *******/

  // The chain is asked about the transactions it is handed, and answers r.
  ghost predicate Replied(cfg: Config, m: Mux, req: Request, provider: FinalizeApp, reply: Option<QueryReply>,
                          apps: Str -> Consumer, c: Str, r: FinalizeReply)
    requires reply.Some? ==> |reply.value.value| <= MAX_INT
  {
    exists handed ::
      && BlockHands(cfg, m, req.txs, c, handed)
      && if c == cfg.providerId then provider(handed) == Some(r)
         else IsSent(cfg, m, req, reply, apps, c) && apps(c).finalize(handed) == Some(r)
  }

  ghost function AllReplies(cfg: Config, m: Mux, req: Request, provider: FinalizeApp, reply: Option<QueryReply>,
                            apps: Str -> Consumer): map<Str, FinalizeReply>
    requires reply.Some? ==> |reply.value.value| <= MAX_INT
    requires FinalizeBlock(cfg, m, req, provider, reply, apps).1.Done?
  {
    BlockDone(cfg, m, req, provider, reply, apps);
    var share := BlockShares(cfg, m, req);
    Replies(Refreshed(cfg, m, req, reply), req, share, apps)[cfg.providerId := provider(share(cfg.providerId)).value]
  }

  lemma RepliedWith(cfg: Config, m: Mux, req: Request, provider: FinalizeApp, reply: Option<QueryReply>, apps: Str -> Consumer,
                    c: Str, r: FinalizeReply)
    requires reply.Some? ==> |reply.value.value| <= MAX_INT
    ensures var handed := BlockShares(cfg, m, req)(c);
      Replied(cfg, m, req, provider, reply, apps, c, r) <==>
        if c == cfg.providerId then provider(handed) == Some(r)
        else c in Dispatched(Refreshed(cfg, m, req, reply), req, apps) && apps(c).finalize(handed) == Some(r)
  {
    hide BlockShares, IsSent, BlockHands, Dispatched, Refreshed;
    SentIff(cfg, m, req, reply, apps, c);
    forall handed ensures BlockHands(cfg, m, req.txs, c, handed) <==> handed == BlockShares(cfg, m, req)(c) {
      BlockHandsIff(cfg, m, req, c, handed);
    }
  }

  lemma InReplies(m: Mux, req: Request, share: Str -> seq<Str>, apps: Str -> Consumer, c: Str, r: FinalizeReply)
    ensures var replies := Replies(m, req, share, apps);
      c in replies && replies[c] == r <==> c in Dispatched(m, req, apps) && apps(c).finalize(share(c)) == Some(r)
  {
    hide Dispatched;
  }

  lemma RepliedAt(cfg: Config, m: Mux, req: Request, provider: FinalizeApp, reply: Option<QueryReply>, apps: Str -> Consumer,
                  c: Str, r: FinalizeReply)
    requires reply.Some? ==> |reply.value.value| <= MAX_INT
    requires FinalizeBlock(cfg, m, req, provider, reply, apps).1.Done?
    ensures var all := AllReplies(cfg, m, req, provider, reply, apps);
      Replied(cfg, m, req, provider, reply, apps, c, r) <==> c in all && all[c] == r
  {
    hide FinalizeBlock, Refreshed, BlockShares, Dispatched, IsSent, Replied, Replies;
    BlockDone(cfg, m, req, provider, reply, apps);
    RepliedWith(cfg, m, req, provider, reply, apps, c, r);
    InReplies(Refreshed(cfg, m, req, reply), req, BlockShares(cfg, m, req), apps, c, r);
  }

  lemma RepliedIff(cfg: Config, m: Mux, req: Request, provider: FinalizeApp, reply: Option<QueryReply>, apps: Str -> Consumer,
                   c: Str)
    requires reply.Some? ==> |reply.value.value| <= MAX_INT
    requires FinalizeBlock(cfg, m, req, provider, reply, apps).1.Done?
    ensures var all := AllReplies(cfg, m, req, provider, reply, apps);
      forall r :: Replied(cfg, m, req, provider, reply, apps, c, r) <==> c in all && all[c] == r
  {
    hide *;
    forall r ensures var all := AllReplies(cfg, m, req, provider, reply, apps);
                     Replied(cfg, m, req, provider, reply, apps, c, r) <==> c in all && all[c] == r {
      RepliedAt(cfg, m, req, provider, reply, apps, c, r);
    }
  }

  lemma BlockReply(cfg: Config, m: Mux, req: Request, provider: FinalizeApp, reply: Option<QueryReply>, apps: Str -> Consumer)
    requires reply.Some? ==> |reply.value.value| <= MAX_INT
    requires FinalizeBlock(cfg, m, req, provider, reply, apps).1.Done?
    ensures var o, all := FinalizeBlock(cfg, m, req, provider, reply, apps).1, AllReplies(cfg, m, req, provider, reply, apps);
      o.txResults == Table(BlockRoutes(cfg, m, req.txs), Results(all), true) && o.appHash == CombineHashes(Hashes(all))
  {
    hide FinalizeBlock, Refreshed, BlockShares, Replies, Table, Results, Hashes, CombineHashes;
    BlockDone(cfg, m, req, provider, reply, apps);
  }

  ghost predicate RepliedHash(cfg: Config, m: Mux, req: Request, provider: FinalizeApp, reply: Option<QueryReply>,
                              apps: Str -> Consumer, c: Str, hash: Str)
    requires reply.Some? ==> |reply.value.value| <= MAX_INT
  {
    exists r :: Replied(cfg, m, req, provider, reply, apps, c, r) && r.appHash == hash
  }

  // The app hash of a block: one part per chain that replied, its app hash, in the byte order of the IDs.
  lemma BlockHash(cfg: Config, m: Mux, req: Request, provider: FinalizeApp, reply: Option<QueryReply>, apps: Str -> Consumer)
    returns (ids: seq<Str>, parts: seq<Str>)
    requires reply.Some? ==> |reply.value.value| <= MAX_INT
    requires FinalizeBlock(cfg, m, req, provider, reply, apps).1.Done?
    ensures FinalizeBlock(cfg, m, req, provider, reply, apps).1.appHash == Joined(parts)
    ensures InByteOrder(ids) && |parts| == |ids|
    ensures forall c :: c in ids <==> exists hash :: RepliedHash(cfg, m, req, provider, reply, apps, c, hash)
    ensures forall k :: 0 <= k < |ids| ==> RepliedHash(cfg, m, req, provider, reply, apps, ids[k], parts[k])
  {
    hide FinalizeBlock, AllReplies, Replied, CombineHashes, Joined, InByteOrder, Table, BlockRoutes, Results;
    var all := AllReplies(cfg, m, req, provider, reply, apps);
    BlockReply(cfg, m, req, provider, reply, apps);
    ids, parts := HashParts(Hashes(all));
    forall c ensures c in ids <==> exists hash :: RepliedHash(cfg, m, req, provider, reply, apps, c, hash) {
      RepliedIff(cfg, m, req, provider, reply, apps, c);
      if c in all {
        assert Replied(cfg, m, req, provider, reply, apps, c, all[c]);
        assert RepliedHash(cfg, m, req, provider, reply, apps, c, all[c].appHash);
      }
    }
    forall k | 0 <= k < |ids| ensures RepliedHash(cfg, m, req, provider, reply, apps, ids[k], parts[k]) {
      RepliedIff(cfg, m, req, provider, reply, apps, ids[k]);
      assert ids[k] in Hashes(all);
      var r := all[ids[k]];
      assert Replied(cfg, m, req, provider, reply, apps, ids[k], r) && parts[k] == r.appHash;
    }
  }

  // A transaction that no chain is handed is marked as skipped.
  lemma SkippedResult(cfg: Config, m: Mux, req: Request, provider: FinalizeApp, reply: Option<QueryReply>, apps: Str -> Consumer,
                      i: nat)
    requires reply.Some? ==> |reply.value.value| <= MAX_INT
    requires FinalizeBlock(cfg, m, req, provider, reply, apps).1.Done? && i < |req.txs|
    requires forall c :: IsFor(req.txs[i], c) ==> !Takes(cfg, m, c)
    ensures var o := FinalizeBlock(cfg, m, req, provider, reply, apps).1;
      |o.txResults| == |req.txs| && o.txResults[i] == Some(TxResult(1, "transaction skipped"))
  {
    hide FinalizeBlock, AllReplies, CombineHashes, Results, Takes, IsFor, Positions;
    BlockReply(cfg, m, req, provider, reply, apps);
    BlockDone(cfg, m, req, provider, reply, apps);
    BlockIndices(cfg, m, req.txs, i);
    var routes := BlockRoutes(cfg, m, req.txs);
    assert routes[i] != Bad;
    if routes[i].To? {
      OneOwner(routes, routes[i], i);
    }
  }

  /** The result of the j-th of the transactions a chain is handed stands where that transaction stood; the
      place stays empty if the chain does not reply or its list of results ends before. */
  lemma HandedResult(cfg: Config, m: Mux, req: Request, provider: FinalizeApp, reply: Option<QueryReply>, apps: Str -> Consumer,
                     c: Str, handed: seq<Str>, ps: seq<nat>, j: nat)
    requires reply.Some? ==> |reply.value.value| <= MAX_INT
    requires FinalizeBlock(cfg, m, req, provider, reply, apps).1.Done?
    requires BlockPicks(cfg, m, req.txs, c, handed, ps) && j < |ps|
    ensures var o := FinalizeBlock(cfg, m, req, provider, reply, apps).1;
      && ps[j] < |o.txResults| == |req.txs|
      && (forall r :: Replied(cfg, m, req, provider, reply, apps, c, r) ==>
            o.txResults[ps[j]] == if j < |r.txResults| then Some(r.txResults[j]) else None)
      && ((forall r :: !Replied(cfg, m, req, provider, reply, apps, c, r)) ==> o.txResults[ps[j]] == None)
  {
    hide FinalizeBlock, AllReplies, CombineHashes, Replied, Positions, BlockRoutes, BlockPicks, BlockShares, Rank;
    var routes := BlockRoutes(cfg, m, req.txs);
    BlockReply(cfg, m, req, provider, reply, apps);
    BlockShareIff(cfg, m, req, c, handed, ps);
    PositionSound(routes, To(c), j);
    RepliedIff(cfg, m, req, provider, reply, apps, c);
    var all := AllReplies(cfg, m, req, provider, reply, apps);
    if c in all {
      assert Replied(cfg, m, req, provider, reply, apps, c, all[c]);
    }
  }

  lemma {:induction false} EventParts(order: seq<Str>, replies: map<Str, FinalizeReply>) returns (parts: seq<seq<M.Event>>)
    ensures |parts| == |order| && EventsOf(order, replies) == Joined(parts)
    ensures forall k :: 0 <= k < |order| ==> parts[k] == if order[k] in replies then replies[order[k]].events else []
  {
    if order == [] {
      parts := [];
    } else {
      var rest := EventParts(order[1..], replies);
      parts := [if order[0] in replies then replies[order[0]].events else []] + rest;
      assert parts[1..] == rest;
    }
  }

  // The events of an execution: the provider's, then, for the chains sent the block in some order, those of
  // each one's reply.
  lemma BlockEvents(cfg: Config, m: Mux, req: Request, provider: FinalizeApp, reply: Option<QueryReply>, apps: Str -> Consumer,
                    events: seq<M.Event>) returns (p: FinalizeReply, order: seq<Str>, parts: seq<seq<M.Event>>)
    requires reply.Some? ==> |reply.value.value| <= MAX_INT
    requires cfg.providerId !in m.handlers && FinalizeBlock(cfg, m, req, provider, reply, apps).1.Done?
    requires EventsInSomeOrder(cfg, m, req, provider, reply, apps, events)
    ensures Replied(cfg, m, req, provider, reply, apps, cfg.providerId, p) && events == p.events + Joined(parts)
    ensures Distinct(order) && |parts| == |order| && forall c :: c in order <==> IsSent(cfg, m, req, reply, apps, c)
    ensures forall k | 0 <= k < |order| ::
              && (forall r :: Replied(cfg, m, req, provider, reply, apps, order[k], r) ==> parts[k] == r.events)
              && ((forall r :: !Replied(cfg, m, req, provider, reply, apps, order[k], r)) ==> parts[k] == [])
  {
    hide FinalizeBlock, Replied, IsSent, Refreshed, BlockShares, Dispatched, Distinct, EventsOf, Joined;
    var ready, share := Refreshed(cfg, m, req, reply), BlockShares(cfg, m, req);
    var replies := Replies(ready, req, share, apps);
    var all := AllReplies(cfg, m, req, provider, reply, apps);
    p := provider(share(cfg.providerId)).value;
    RepliedIff(cfg, m, req, provider, reply, apps, cfg.providerId);
    order :| Distinct(order) && Elements(order) == Dispatched(ready, req, apps) && events == p.events + EventsOf(order, replies);
    parts := EventParts(order, replies);
    forall c ensures c in order <==> IsSent(cfg, m, req, reply, apps, c) {
      SentIff(cfg, m, req, reply, apps, c);
      assert c in order <==> c in Elements(order);
    }
    forall k | 0 <= k < |order|
      ensures forall r :: Replied(cfg, m, req, provider, reply, apps, order[k], r) ==> parts[k] == r.events
      ensures (forall r :: !Replied(cfg, m, req, provider, reply, apps, order[k], r)) ==> parts[k] == []
    {
      RepliedIff(cfg, m, req, provider, reply, apps, order[k]);
      assert order[k] in order;
      SentAreRegistered(cfg, m, req, reply, apps, order[k]);
      if order[k] in replies {
        assert Replied(cfg, m, req, provider, reply, apps, order[k], all[order[k]]);
      }
    }
  }

  lemma SentAreRegistered(cfg: Config, m: Mux, req: Request, reply: Option<QueryReply>, apps: Str -> Consumer, c: Str)
    requires reply.Some? ==> |reply.value.value| <= MAX_INT
    ensures IsSent(cfg, m, req, reply, apps, c) ==> c in m.handlers
  {
  }

  /******* Commit *******/

  // Commit reaches the active, initialized, registered chains that are not rejected, once each, unless the
  // provider fails, and leaves all else alone.
  lemma CommitCalls(m: Mux, providerOk: bool, c: Str)
    ensures var n := Commit(m, providerOk);
      && n.handlers == m.handlers && n.initialized == m.initialized && n.active == m.active
      && n.rejected == m.rejected && n.launch == m.launch
      && Trace(n, c) == Trace(m, c) +
           if providerOk && c in m.active && c in m.initialized && c in m.handlers && c !in m.rejected then [CommitCall] else []
  {
    hide AddCalls, Trace;
    var n := Commit(m, providerOk);
    if providerOk {
      TraceStep(m, n, Committed(m), OneCall(CommitCall), c);
    } else {
      assert Trace(m, c) + [] == Trace(m, c);
    }
  }

  // The response kept: that of the last of the chains, in the order they commit, that answers, or the
  // provider's if none does.
  lemma {:induction false} RetainedLast(order: seq<Str>, provider: nat, apps: Str -> Option<nat>) returns (last: Option<nat>)
    ensures last.None? ==> Retained(order, provider, apps) == provider && forall i :: 0 <= i < |order| ==> apps(order[i]).None?
    ensures last.Some? ==> && last.value < |order| && apps(order[last.value]) == Some(Retained(order, provider, apps))
                           && forall i :: last.value < i < |order| ==> apps(order[i]).None?
    decreases |order|
  {
    last := None;
    if order != [] {
      var n := |order| - 1;
      if apps(order[n]).Some? {
        last := Some(n);
      } else {
        last := RetainedLast(order[..n], provider, apps);
      }
    }
  }
}
