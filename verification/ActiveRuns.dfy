/**
 The active set over whole runs of the multiplexer, against the provider's ledger. A block whose query
 fails, or at height 1, is dispatched with the set the last answered query left.
 */
module ActiveRuns {
  import opened GoTypes
  import opened Routing
  import opened Provider
  import opened Mux
  import opened MuxRuns
  import R = MuxRuns
  import opened ActiveSet
  import Lifecycle

  // An answered block that has taken a new active set from the provider.
  predicate Refreshes(cfg: Config, e: R.Event, after: Conf)
  {
    && e.BlockEvent? && after.stage == Decided && e.req.height > 1
    && (e.reply.Some? ==> |e.reply.value.value| <= MAX_INT) && QueriedIds(cfg, e.reply).Some?
  }

  // No block from moment k up to moment i refreshes the active set.
  predicate NoneRefreshes(cfg: Config, confs: seq<Conf>, events: seq<R.Event>, k: nat, i: nat)
    requires i <= |events| < |confs|
  {
    forall j :: k <= j < i ==> !Refreshes(cfg, events[j], confs[j + 1])
  }

  lemma ActiveStep(cfg: Config, a: Conf, e: R.Event, b: Conf)
    requires Step(cfg, a, e, b)
    ensures Refreshes(cfg, e, b) ==> b.mux.active == QueriedIds(cfg, e.reply).value
    ensures !Refreshes(cfg, e, b) ==> b.mux.active == a.mux.active
  {
    hide AddCalls, QueriedIds, FinalizeBlock, Dispatched, CombineHashes, InitAnswers;
    if e.BlockEvent? {
      BlockOutcome(cfg, a.mux, e.req, e.provider, e.reply, e.apps);
    }
  }

  /** In every reachable state the active set is empty, if no block has refreshed it yet, or what the
      last block to do so was answered. */
  lemma {:induction false} ActiveSource(cfg: Config, confs: seq<Conf>, events: seq<R.Event>, i: nat) returns (k: Option<nat>)
    requires Behavior(cfg, confs, events) && Initial(cfg, confs[0]) && i < |confs|
    ensures k.None? ==> confs[i].mux.active == {} && NoneRefreshes(cfg, confs, events, 0, i)
    ensures k.Some? ==>
              && k.value < i && Refreshes(cfg, events[k.value], confs[k.value + 1])
              && confs[i].mux.active == QueriedIds(cfg, events[k.value].reply).value
              && NoneRefreshes(cfg, confs, events, k.value + 1, i)
  {
    hide Step, QueriedIds, Refreshes;
    if i == 0 {
      return None;
    }
    k := ActiveSource(cfg, confs, events, i - 1);
    ActiveStep(cfg, confs[i - 1], events[i - 1], confs[i]);
    if Refreshes(cfg, events[i - 1], confs[i]) {
      k := Some(i - 1);
      Queried(cfg, events[i - 1], confs[i]);
    } else if k.Some? {
      Queried(cfg, events[k.value], confs[k.value + 1]);
    }
  }

  lemma Queried(cfg: Config, e: R.Event, after: Conf)
    requires Refreshes(cfg, e, after)
    ensures e.BlockEvent? && (e.reply.Some? ==> |e.reply.value.value| <= MAX_INT) && QueriedIds(cfg, e.reply).Some?
  {
  }

  /******* The blocks a consumer is sent *******/

  // Event i is an answered block that is sent to chain c.
  predicate SentBlock(cfg: Config, confs: seq<Conf>, events: seq<R.Event>, i: nat, c: Str)
    requires i < |events| && |events| < |confs|
  {
    var e := events[i];
    && e.BlockEvent? && confs[i + 1].stage == Decided && (e.reply.Some? ==> |e.reply.value.value| <= MAX_INT)
    && c in Dispatched(Refreshed(cfg, confs[i].mux, e.req, e.reply), e.req, e.apps)
  }

  predicate HasBlock(calls: seq<Call>)
  {
    exists i :: 0 <= i < |calls| && calls[i].FinalizeCall?
  }

  lemma HasBlockAppend(a: seq<Call>, b: seq<Call>)
    ensures HasBlock(a + b) <==> HasBlock(a) || HasBlock(b)
  {
    if HasBlock(a) {
      var i :| 0 <= i < |a| && a[i].FinalizeCall?;
      assert (a + b)[i].FinalizeCall?;
    }
    if HasBlock(b) {
      var i :| 0 <= i < |b| && b[i].FinalizeCall?;
      assert (a + b)[|a| + i].FinalizeCall?;
    }
  }

  lemma DispatchedHear(m: Mux, req: Request, share: Str -> seq<Str>, apps: Str -> Consumer, c: Str)
    ensures HasBlock(DispatchCalls(m, req, share, apps)(c)) <==> c in Dispatched(m, req, apps)
  {
    HasBlockAppend(InitCalls(m, req, apps(c), c), if c in Dispatched(m, req, apps) then [FinalizeCall(share(c))] else []);
    assert !HasBlock(InitCalls(m, req, apps(c), c));
    assert [FinalizeCall(share(c))][0].FinalizeCall?;
  }

  // Only FinalizeBlock adds a FinalizeBlock call, and only to the chains it is sent to.
  lemma NewBlock(cfg: Config, confs: seq<Conf>, events: seq<R.Event>, i: nat, c: Str)
    requires Behavior(cfg, confs, events) && i < |events|
    ensures HasBlock(Trace(confs[i + 1].mux, c)) <==> HasBlock(Trace(confs[i].mux, c)) || SentBlock(cfg, confs, events, i, c)
  {
    hide AddCalls, Trace, HasBlock, FinalizeBlock, QueriedIds, Dispatched, InitHashes, CombineHashes, InitAnswers, Called, Shares;
    var a, e, b := confs[i], events[i], confs[i + 1];
    assert Step(cfg, a, e, b);
    match e
    case InitEvent(start, launcher, inits) =>
      if launcher(start).Some? {
        var calls := InitChainCalls(LaunchOf(launcher(start).value), start, inits);
        TraceStep(a.mux, b.mux, InitAsked(a.mux, inits), calls, c);
        HasBlockAppend(Trace(a.mux, c), calls(c));
        NoBlockAtStart(LaunchOf(launcher(start).value), inits(c), c, start.time, start.initialHeight);
      }
    case ProposalEvent(txs, _, _) =>
      var routes := ProposalRoutes(cfg, a.mux, txs);
      if Bad !in routes {
        var calls := ProcessCalls(Shares(routes, txs));
        TraceStep(a.mux, b.mux, Called(routes) - {cfg.providerId}, calls, c);
        HasBlockAppend(Trace(a.mux, c), calls(c));
        NoBlock(calls(c));
      }
    case BlockEvent(req, provider, reply, apps) =>
      BlockOutcome(cfg, a.mux, req, provider, reply, apps);
      if b.stage == Decided {
        var ready, share := Refreshed(cfg, a.mux, req, reply), BlockShares(cfg, a.mux, req);
        SameTraces(a.mux, ready);
        TraceStep(ready, b.mux, Candidates(ready), DispatchCalls(ready, req, share, apps), c);
        HasBlockAppend(Trace(a.mux, c), DispatchCalls(ready, req, share, apps)(c));
        DispatchedHear(ready, req, share, apps, c);
        SentAreCandidates(ready, req, apps, c);
      }
    case CommitEvent(ok) =>
      if ok {
        TraceStep(a.mux, b.mux, Committed(a.mux), OneCall(CommitCall), c);
        HasBlockAppend(Trace(a.mux, c), [CommitCall]);
        NoBlock([CommitCall]);
      }
  }

  lemma NoBlockAtStart(launch: Launch, a: InitApp, c: Str, time: int64, height: int64)
    ensures !HasBlock(StartCalls(launch, a, c, time, height))
  {
  }

  lemma NoBlock(calls: seq<Call>)
    requires |calls| <= 1 && forall i :: 0 <= i < |calls| ==> !calls[i].FinalizeCall?
    ensures !HasBlock(calls)
  {
  }

  lemma SentAreCandidates(m: Mux, req: Request, apps: Str -> Consumer, c: Str)
    ensures c in Dispatched(m, req, apps) ==> c in Candidates(m) && c in m.active
  {
  }

  // A consumer that has ever been sent a block was sent it by some event of the run.
  lemma {:induction false} WhichBlock(cfg: Config, confs: seq<Conf>, events: seq<R.Event>, i: nat, c: Str) returns (k: nat)
    requires Behavior(cfg, confs, events) && Initial(cfg, confs[0]) && i < |confs|
    requires HasBlock(Trace(confs[i].mux, c))
    ensures k < i && SentBlock(cfg, confs, events, k, c)
  {
    hide Step, SentBlock;
    if i > 0 {
      NewBlock(cfg, confs, events, i - 1, c);
      if SentBlock(cfg, confs, events, i - 1, c) {
        k := i - 1;
      } else {
        k := WhichBlock(cfg, confs, events, i - 1, c);
      }
    }
  }

  /******* Against the ledger *******/

  // Every block's query fails or is answered from a good ledger, one for each event.
  ghost predicate Truthful(env: Env, cfg: Config, events: seq<R.Event>, ledgers: seq<Ledger>)
  {
    && |ledgers| == |events|
    && forall i :: 0 <= i < |events| && events[i].BlockEvent? ==>
         && (events[i].reply.Some? ==> |events[i].reply.value.value| <= MAX_INT)
         && (QueriedIds(cfg, events[i].reply).None? || (GoodLedger(env, ledgers[i]) && events[i].reply == AnswerFrom(ledgers[i])))
  }

  // A registered consumer that is not rejected and is, or can be, initialized.
  predicate GoodStanding(m: Mux, req: Request, apps: Str -> Consumer, c: Str)
  {
    c in m.handlers && c !in m.rejected && (c in m.initialized || Initializes(m, req, apps(c), c))
  }

  lemma SentMeans(cfg: Config, m: Mux, req: Request, reply: Option<QueryReply>, apps: Str -> Consumer, c: Str)
    requires reply.Some? ==> |reply.value.value| <= MAX_INT
    ensures c in Dispatched(Refreshed(cfg, m, req, reply), req, apps)
       <==> c in ActiveFor(cfg, m, req, reply) && GoodStanding(m, req, apps, c)
  {
    hide QueriedIds;
  }

  // The last block up to moment i that refreshed the active set, if any.
  predicate IsSource(cfg: Config, confs: seq<Conf>, events: seq<R.Event>, i: nat, k: Option<nat>)
    requires i <= |events| < |confs|
  {
    match k
    case None => NoneRefreshes(cfg, confs, events, 0, i)
    case Some(j) => j < i && Refreshes(cfg, events[j], confs[j + 1]) && NoneRefreshes(cfg, confs, events, j + 1, i)
  }

  /** Exactly which consumers an answered block is sent to, its own query answered or not: those that
      were ACTIVE in the ledger of the last answered query, this block's or an earlier one's, and are in
      good standing. Before any answered query it is sent to none. */
  lemma SentIff(env: Env, cfg: Config, confs: seq<Conf>, events: seq<R.Event>, ledgers: seq<Ledger>, i: nat)
    returns (k: Option<nat>)
    requires Behavior(cfg, confs, events) && Initial(cfg, confs[0]) && Truthful(env, cfg, events, ledgers)
    requires i < |events| && events[i].BlockEvent? && confs[i + 1].stage == Decided
    ensures IsSource(cfg, confs, events, i + 1, k)
    ensures forall c :: SentBlock(cfg, confs, events, i, c) <==>
              k.Some? && c in ActiveIds(ledgers[k.value]) && GoodStanding(confs[i].mux, events[i].req, events[i].apps, c)
  {
    hide QueriedIds, GoodLedger, GoodStanding, ActiveIds, NoneRefreshes, Behavior, SentBlock, Initial;
    Sizes(env, cfg, confs, events, ledgers);
    k := ActiveSource(cfg, confs, events, i + 1);
    if k.Some? {
      QueryAgrees(env, cfg, ledgers[k.value]);
    }
    forall c ensures SentBlock(cfg, confs, events, i, c) <==>
                k.Some? && c in ActiveIds(ledgers[k.value]) && GoodStanding(confs[i].mux, events[i].req, events[i].apps, c)
    {
      SentFromActive(cfg, confs, events, i, c);
    }
  }

  // An answered block is sent to the active chains in good standing.
  lemma SentFromActive(cfg: Config, confs: seq<Conf>, events: seq<R.Event>, i: nat, c: Str)
    requires Behavior(cfg, confs, events) && i < |events| && events[i].BlockEvent? && confs[i + 1].stage == Decided
    ensures SentBlock(cfg, confs, events, i, c) <==>
            c in confs[i + 1].mux.active && GoodStanding(confs[i].mux, events[i].req, events[i].apps, c)
  {
    hide QueriedIds, Dispatched, FinalizeBlock, GoodStanding, ActiveFor, AddCalls;
    var e := events[i];
    assert Step(cfg, confs[i], e, confs[i + 1]);
    BlockOutcome(cfg, confs[i].mux, e.req, e.provider, e.reply, e.apps);
    SentMeans(cfg, confs[i].mux, e.req, e.reply, e.apps, c);
  }

  /** So a block reaches only consumers that are ACTIVE in the ledger as it is by then iff every consumer in
      good standing that was ACTIVE at the last answered query still is. */
  lemma ReachesOnlyActiveIff(env: Env, cfg: Config, confs: seq<Conf>, events: seq<R.Event>, ledgers: seq<Ledger>, i: nat,
                             now: Ledger)
    returns (k: Option<nat>)
    requires Behavior(cfg, confs, events) && Initial(cfg, confs[0]) && Truthful(env, cfg, events, ledgers)
    requires i < |events| && events[i].BlockEvent? && confs[i + 1].stage == Decided
    ensures IsSource(cfg, confs, events, i + 1, k)
    ensures (forall c :: SentBlock(cfg, confs, events, i, c) ==> c in ActiveIds(now))
       <==> k.None? || forall c | c in ActiveIds(ledgers[k.value]) ::
              GoodStanding(confs[i].mux, events[i].req, events[i].apps, c) ==> c in ActiveIds(now)
  {
    hide Behavior, Truthful, SentBlock, GoodStanding, ActiveIds, IsSource;
    Sizes(env, cfg, confs, events, ledgers);
    k := SentIff(env, cfg, confs, events, ledgers, i);
  }

  // A consumer that is sent a block was ACTIVE in the ledger of the last answered query.
  lemma DispatchedWereActive(env: Env, cfg: Config, confs: seq<Conf>, events: seq<R.Event>, ledgers: seq<Ledger>, i: nat, c: Str)
    returns (k: nat)
    requires Behavior(cfg, confs, events) && Initial(cfg, confs[0]) && Truthful(env, cfg, events, ledgers)
    requires i < |events| && SentBlock(cfg, confs, events, i, c)
    ensures k <= i && IsSource(cfg, confs, events, i + 1, Some(k))
    ensures c in ActiveIds(ledgers[k])
  {
    hide GoodStanding, ActiveIds, NoneRefreshes, Dispatched;
    var source := SentIff(env, cfg, confs, events, ledgers, i);
    k := source.value;
  }

  /** The multiplexer and the provider's ledger together: when every answered query reflects the ledger
      at some point of one run of messages, blocks and transfers, a consumer that was ever sent a block
      was ACTIVE or OVERDUE in the ledger the run started from. A chain added on the way never runs. */
  lemma OnlyBilledChainsRun(env: Env, cfg: Config, confs: seq<Conf>, events: seq<R.Event>, ledgers: seq<Ledger>,
                            l: Ledger, ops: seq<Lifecycle.Op>, points: seq<nat>, i: nat, c: Str)
    requires Behavior(cfg, confs, events) && Initial(cfg, confs[0]) && Truthful(env, cfg, events, ledgers)
    requires GoodEnv(env) && GoodLedger(env, l) && |points| == |ledgers|
    requires forall k :: 0 <= k < |points| ==> points[k] <= |ops| && ledgers[k] == Lifecycle.Run(env, l, ops[..points[k]])
    requires i < |confs| && HasBlock(Trace(confs[i].mux, c))
    ensures c in l.chains && Chargeable(l.chains[c])
  {
    hide Behavior, Initial, Truthful, Trace, HasBlock, SentBlock, Refreshes, NoneRefreshes, Lifecycle.Run, GoodEnv;
    Sizes(env, cfg, confs, events, ledgers);
    var j := WhichBlock(cfg, confs, events, i, c);
    var k := DispatchedWereActive(env, cfg, confs, events, ledgers, j, c);
    ActiveSinceStart(env, l, ops[..points[k]], c);
  }

  lemma Sizes(env: Env, cfg: Config, confs: seq<Conf>, events: seq<R.Event>, ledgers: seq<Ledger>)
    requires Behavior(cfg, confs, events) && Truthful(env, cfg, events, ledgers)
    ensures |confs| == |events| + 1 && |ledgers| == |events|
  {
  }
}
