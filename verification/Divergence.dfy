/**
 Runs in which a block is not what the committed state alone would make it: a chain sunset since is
 sent a block, and a restarted process disagrees with one that kept running. All of them go on from the
 same beginning: a process restarted after height 1 answers block 2, with one consumer active, and
 commits.
 */
module Divergence {
  import opened GoTypes
  import opened Header
  import opened Routing
  import opened Provider
  import opened Mux
  import M = Mux
  import opened MuxRuns
  import R = MuxRuns
  import opened Confluence
  import opened Replicas
  import opened ActiveSet
  import opened ActiveRuns
  import Lifecycle

  function Fresh(c: Str): Conf
  {
    Conf(M.Mux({c}, {}, {}, {}, Launch([], []), map[]), Start)
  }

  const ANSWERING: FinalizeApp := _ => Some(FinalizeReply([], [], [], [], []))

  // A consumer that has committed the height before and answers every block.
  function Running(height: int64): Consumer
    requires height > 0
  {
    Consumer(Some((height - 1, [])), InitApp(None, _ => None), ANSWERING)
  }

  function Block(height: int64, txs: seq<Str>, reply: Option<QueryReply>): R.Event
    requires height > 0
  {
    BlockEvent(Request(height, 0, txs), ANSWERING, reply, _ => Running(height))
  }

  predicate NoHalt(cfg: Config)
  {
    cfg.haltHeight == 0 && cfg.haltTime == 0
  }

  lemma EmptyBlockStep(cfg: Config, a: Conf, height: int64, reply: Option<QueryReply>) returns (b: Conf)
    requires NoHalt(cfg) && height > 0 && (a.stage == Start || a.stage == Idle)
    requires reply.Some? ==> |reply.value.value| <= MAX_INT
    ensures b.stage == Decided && Step(cfg, a, Block(height, [], reply), b)
    ensures b.mux.handlers == a.mux.handlers && b.mux.rejected == a.mux.rejected
    ensures b.mux.active == ActiveFor(cfg, a.mux, Request(height, 0, []), reply)
    ensures var req := Request(height, 0, []);
      b.mux.initialized == a.mux.initialized + Dispatched(Refreshed(cfg, a.mux, req, reply), req, _ => Running(height))
  {
    hide FinalizeBlock, QueriedIds, Dispatched, AddCalls;
    var e := Block(height, [], reply);
    BlockDone(cfg, a.mux, e.req, e.provider, e.reply, e.apps);
    BlockOutcome(cfg, a.mux, e.req, e.provider, e.reply, e.apps);
    b := Conf(FinalizeBlock(cfg, a.mux, e.req, e.provider, e.reply, e.apps).0, Decided);
  }

  // The common beginning: block 2 is answered from l, in which c is ACTIVE, and committed.
  lemma Begin(env: Env, cfg: Config, l: Ledger, c: Str) returns (confs: seq<Conf>, events: seq<R.Event>)
    requires GoodLedger(env, l) && c in ActiveIds(l) && |AnswerFrom(l).value.value| <= MAX_INT
    requires NoHalt(cfg) && c != cfg.providerId
    ensures Behavior(cfg, confs, events) && Initial(cfg, confs[0]) && |events| == 2 && |confs| == 3
    ensures events[0] == Block(2, [], AnswerFrom(l)) && confs[2].stage == Idle
    ensures var m := confs[2].mux; m.handlers == m.initialized == {c} && m.rejected == {} && m.active == ActiveIds(l)
  {
    hide FinalizeBlock, QueriedIds, AnswerFrom, AddCalls, ActiveIds, InitChain, ProcessProposal;
    var a := Fresh(c);
    QueryAgrees(env, cfg, l);
    var b := EmptyBlockStep(cfg, a, 2, AnswerFrom(l));
    var ready := Refreshed(cfg, a.mux, Request(2, 0, []), AnswerFrom(l));
    Sent(ready, Request(2, 0, []), c, 2);
    var d := Conf(Commit(b.mux, true), Idle);
    confs, events := [a, b, d], [Block(2, [], AnswerFrom(l)), CommitEvent(true)];
    assert Step(cfg, confs[1], events[1], confs[2]);
  }

  // The one consumer, if active and not rejected, is sent the block.
  lemma Sent(m: Mux, req: Request, c: Str, height: int64)
    requires m.handlers == {c} && c in m.active && c !in m.rejected && height > 1
    ensures Dispatched(m, req, _ => Running(height)) == {c}
  {
    assert HasState(Running(height));
  }

  /** The chain is sunset, the query of the next block fails, and the block is sent to it all the same. */
  lemma StaleDispatch(env: Env, cfg: Config, l: Ledger, c: Str, signer: Str, height: int64, at: int64)
    returns (confs: seq<Conf>, events: seq<R.Event>, l': Ledger)
    requires GoodLedger(env, l) && c in ActiveIds(l) && |AnswerFrom(l).value.value| <= MAX_INT
    requires NoHalt(cfg) && c != cfg.providerId
    requires CheckSigner(env, signer) == None && c != [] && at >= 0
    ensures Lifecycle.Apply(env, l, Lifecycle.SunsetOp(height, signer, c, at)) == Outcome(l', None)
    ensures c in l'.chains && Lifecycle.Ended(l'.chains[c].status)
    ensures Behavior(cfg, confs, events) && Initial(cfg, confs[0]) && |events| == 3
    ensures events[0] == Block(2, [], AnswerFrom(l)) && events[2] == Block(3, [], None)
    ensures SentBlock(cfg, confs, events, 2, c)
  {
    hide FinalizeBlock, QueriedIds, AnswerFrom, AddCalls, InitChain, ProcessProposal, Dispatched;
    assert GoodChain(env, c, l.chains[c]);
    l' := SunsetConsumer(env, l, height, signer, c, at).ledger;
    confs, events := Begin(env, cfg, l, c);
    var b := EmptyBlockStep(cfg, confs[2], 3, None);
    Unanswered(cfg);
    Sent(Refreshed(cfg, confs[2].mux, Request(3, 0, []), None), Request(3, 0, []), c, 3);
    var start := confs;
    confs, events := confs + [b], events + [Block(3, [], None)];
    forall i | 0 <= i < |events| ensures Step(cfg, confs[i], events[i], confs[i + 1]) {
      if i < 2 {
        assert Step(cfg, start[i], events[i], start[i + 1]);
      }
    }
  }

  lemma Unanswered(cfg: Config)
    ensures QueriedIds(cfg, None) == None
  {
  }

  /** Nobody is rejected, and the query of the next block fails: the process that kept running and one that
      is restarted now do not agree on the block. */
  lemma UnansweredMatters(env: Env, cfg: Config, l: Ledger, c: Str)
    returns (confs: seq<Conf>, events: seq<R.Event>, next: R.Event)
    requires GoodLedger(env, l) && c in ActiveIds(l) && |AnswerFrom(l).value.value| <= MAX_INT
    requires NoHalt(cfg) && c != cfg.providerId
    ensures Behavior(cfg, confs, events) && Initial(cfg, confs[0]) && |events| == 2 && |confs| == 3
    ensures confs[2].mux.rejected == {} && next == Block(3, [], None)
    ensures Disagree(cfg, confs[2].mux, Restarted(confs[2].mux, confs[0].mux.launch), next)
  {
    hide FinalizeBlock, QueriedIds, AnswerFrom, Committed, Dispatched, Behavior, Initial, ActiveIds, Block;
    confs, events := Begin(env, cfg, l, c);
    var m := confs[2].mux;
    next := EmptyNext();
    Unanswered(cfg);
    Sent(m, next.req, c, 3);
    RunningHasState();
    RestartTransparentIff(cfg, m, confs[0].mux.launch, next.req, next.provider, next.reply, next.apps);
    BlockDone(cfg, m, next.req, next.provider, next.reply, next.apps);
    assert BlockRoutes(cfg, m, []) == [];
  }

  lemma EmptyNext() returns (e: R.Event)
    ensures e == Block(3, [], None) == BlockEvent(Request(3, 0, []), ANSWERING, None, _ => Running(3))
  {
    e := Block(3, [], None);
  }

  lemma RunningHasState()
    ensures HasState(Running(3))
  {
  }

  // Two states that both answer the block but differ in the reply or in whom they will commit.
  ghost predicate Disagree(cfg: Config, m1: Mux, m2: Mux, e: R.Event)
    requires e.BlockEvent?
  {
    && (e.reply.Some? ==> |e.reply.value.value| <= MAX_INT)
    && var (n1, o1) := FinalizeBlock(cfg, m1, e.req, e.provider, e.reply, e.apps);
       var (n2, o2) := FinalizeBlock(cfg, m2, e.req, e.provider, e.reply, e.apps);
       o1.Done? && o2.Done? && (o1 != o2 || Committed(n1) != Committed(n2))
  }

  lemma HeaderTx(c: Str)
    requires COLON !in c
    ensures ParseHeader(CreateTransactionHeader(c)) == Ok((c, []))
  {
    HeaderRoundTrip(c, []);
    assert CreateTransactionHeader(c) + [] == CreateTransactionHeader(c);
  }

  // The consumer has a transaction in a proposal and refuses it; the proposal is accepted.
  lemma Refusal(cfg: Config, m: Mux, c: Str, judges: Str -> Judge)
    requires m.handlers == m.initialized == {c} && c != cfg.providerId && COLON !in c
    requires forall share :: judges(c)(share) == Some(REJECT)
    ensures var txs := [CreateTransactionHeader(c)];
      M.ProcessProposal(cfg, m, txs, judges, Asked(cfg, m, txs, {c}), Status(ACCEPT))
  {
    hide AddCalls, Shares, ParseHeader;
    HeaderTx(c);
    var txs := [CreateTransactionHeader(c)];
    var routes := ProposalRoutes(cfg, m, txs);
    assert routes[0] == To(c) && Called(routes) == {c};
    assert Refusers(cfg, routes, txs, judges) == {c};
  }

  lemma OneTxParses(cfg: Config, m: Mux, c: Str)
    requires COLON !in c
    ensures Bad !in BlockRoutes(cfg, m, [CreateTransactionHeader(c)])
  {
    HeaderTx(c);
  }

  /** The consumer refuses the proposal of block 3, which the engine decides; it is still ACTIVE. The process
      that kept running leaves it out of the block; one restarted in between sends it the block. */
  lemma RejectionMatters(env: Env, cfg: Config, l: Ledger, c: Str)
    returns (confs: seq<Conf>, events: seq<R.Event>, next: R.Event)
    requires GoodLedger(env, l) && c in ActiveIds(l) && |AnswerFrom(l).value.value| <= MAX_INT
    requires NoHalt(cfg) && c != cfg.providerId && COLON !in c
    ensures Behavior(cfg, confs, events) && Initial(cfg, confs[0]) && |events| == 3
    ensures events[2].ProposalEvent? && events[2].verdict == Status(ACCEPT) && confs[3].mux.rejected == {c}
    ensures next == Block(3, events[2].txs, AnswerFrom(l))
    ensures Disagree(cfg, confs[3].mux, Restarted(confs[3].mux, confs[0].mux.launch), next)
  {
    hide FinalizeBlock, QueriedIds, AnswerFrom, Committed, Initial, ActiveIds, ProcessProposal, InitChain, BlockRoutes, AddCalls;
    confs, events := Begin(env, cfg, l, c);
    var txs := [CreateTransactionHeader(c)];
    var judges: Str -> Judge := _ => _ => Some(REJECT);
    Refusal(cfg, confs[2].mux, c, judges);
    var m := Asked(cfg, confs[2].mux, txs, {c});
    var start, proposal := confs, ProposalEvent(txs, judges, Status(ACCEPT));
    confs, events := confs + [Conf(m, Idle)], events + [proposal];
    forall i | 0 <= i < |events| ensures Step(cfg, confs[i], events[i], confs[i + 1]) {
      if i < 2 {
        assert Step(cfg, start[i], events[i], start[i + 1]);
      }
    }
    next := Block(3, txs, AnswerFrom(l));
    Rejecting(env, cfg, l, m, confs[0].mux.launch, c, next);
  }

  lemma Rejecting(env: Env, cfg: Config, l: Ledger, m: Mux, doc: Launch, c: Str, next: R.Event)
    requires GoodLedger(env, l) && c in ActiveIds(l) && |AnswerFrom(l).value.value| <= MAX_INT
    requires NoHalt(cfg) && c != cfg.providerId && COLON !in c
    requires m.handlers == m.initialized == m.rejected == {c}
    requires next == Block(3, [CreateTransactionHeader(c)], AnswerFrom(l))
    ensures Disagree(cfg, m, Restarted(m, doc), next)
  {
    hide FinalizeBlock, QueriedIds, AnswerFrom, Committed, ActiveIds, Initializes, BlockShares, BlockRoutes, Respond, Dispatch,
         Restarted;
    QueryAgrees(env, cfg, l);
    OneTxParses(cfg, m, c);
    BlockDone(cfg, m, next.req, next.provider, next.reply, next.apps);
    RunningStarts(Restarted(m, doc), next.req, c);
    RestartTransparentIff(cfg, m, doc, next.req, next.provider, next.reply, next.apps);
  }

  lemma RunningStarts(m: Mux, req: Request, c: Str)
    ensures Initializes(m, req, Running(3), c)
  {
  }

  /******* Launch data *******/

  const DOC := Launch([], [])
  const ANSWERED := Launch([[1]], [])

  // A consumer that has no state yet and starts only with the validators the provider answered.
  const CHOOSY: Consumer :=
    Consumer(None, InitApp(Some([]), (r: InitRequest) => if r.validators == ANSWERED.validators then Some([]) else None), ANSWERING)

  // The engine starts the chain; the provider answers other validators than the genesis document's, and
  // the consumer's genesis file is not there yet.
  function ChainStart(): R.Event
  {
    InitEvent(InitRequest([], 0, 1, [], [], []), _ => Some(InitReply([], ANSWERED.validators, ANSWERED.params)),
              _ => InitApp(None, _ => None))
  }

  lemma ChainStartStep(cfg: Config, c: Str) returns (b: Conf)
    ensures b.stage == Idle && Step(cfg, Fresh(c), ChainStart(), b)
    ensures b.mux.handlers == {c} && b.mux.launch == ANSWERED
    ensures b.mux.initialized == b.mux.rejected == b.mux.active == {}
  {
    hide CombineHashes, AddCalls;
    var a, e := Fresh(c), ChainStart();
    b := Conf(InitChain(cfg, a.mux, e.start, e.launcher, e.inits).0, Idle);
    assert InitAnswers(a.mux.(launch := ANSWERED), e.start, e.inits) == {};
  }

  lemma LaunchKept(cfg: Config, m: Mux, e: R.Event)
    requires e.BlockEvent? && (e.reply.Some? ==> |e.reply.value.value| <= MAX_INT)
    ensures FinalizeBlock(cfg, m, e.req, e.provider, e.reply, e.apps).0.launch == m.launch
  {
    hide FinalizeBlock, QueriedIds, Dispatched, AddCalls;
    BlockOutcome(cfg, m, e.req, e.provider, e.reply, e.apps);
  }

  /** The chain starts, block 1 is committed, and at block 2 the consumer becomes active. The process that
      kept running starts it with the validators the provider answered; one restarted in between offers it
      those of the genesis document, which it refuses. Nobody is rejected or initialized, and the query
      is answered. */
  lemma LaunchMatters(env: Env, cfg: Config, l: Ledger, c: Str)
    returns (confs: seq<Conf>, events: seq<R.Event>, next: R.Event)
    requires GoodLedger(env, l) && c in ActiveIds(l) && |AnswerFrom(l).value.value| <= MAX_INT
    requires NoHalt(cfg) && c != cfg.providerId
    ensures Behavior(cfg, confs, events) && Initial(cfg, confs[0]) && |events| == 3
    ensures confs[0].mux.launch == DOC && confs[3].mux.rejected == confs[3].mux.initialized == {}
    ensures next == BlockEvent(Request(2, 0, []), ANSWERING, AnswerFrom(l), _ => CHOOSY)
    ensures Disagree(cfg, confs[3].mux, Restarted(confs[3].mux, confs[0].mux.launch), next)
  {
    hide FinalizeBlock, QueriedIds, AnswerFrom, Committed, ActiveIds, InitChain, ProcessProposal, Dispatched, AddCalls;
    var a := Fresh(c);
    var b := ChainStartStep(cfg, c);
    var d := EmptyBlockStep(cfg, b, 1, None);
    Idle1(b.mux, Request(1, 0, []));
    LaunchKept(cfg, b.mux, Block(1, [], None));
    Unanswered(cfg);
    var f := Conf(Commit(d.mux, true), Idle);
    confs, events := [a, b, d, f], [ChainStart(), Block(1, [], None), CommitEvent(true)];
    assert Step(cfg, confs[0], events[0], confs[1]) && Step(cfg, confs[1], events[1], confs[2])
        && Step(cfg, confs[2], events[2], confs[3]);
    next := BlockEvent(Request(2, 0, []), ANSWERING, AnswerFrom(l), _ => CHOOSY);
    Choosing(env, cfg, l, f.mux, c, next);
  }

  // With nothing active a block is sent to nobody.
  lemma Idle1(m: Mux, req: Request)
    requires m.active == {}
    ensures Dispatched(m, req, _ => Running(1)) == {}
  {
  }

  lemma Choosing(env: Env, cfg: Config, l: Ledger, m: Mux, c: Str, next: R.Event)
    requires GoodLedger(env, l) && c in ActiveIds(l) && |AnswerFrom(l).value.value| <= MAX_INT
    requires NoHalt(cfg) && c != cfg.providerId
    requires m.handlers == {c} && m.rejected == m.initialized == {} && m.launch == ANSWERED
    requires next == BlockEvent(Request(2, 0, []), ANSWERING, AnswerFrom(l), _ => CHOOSY)
    ensures Disagree(cfg, m, Restarted(m, DOC), next)
  {
    hide FinalizeBlock, QueriedIds, AnswerFrom, Committed, ActiveIds, Initializes, BlockShares, BlockRoutes, Respond, Dispatch,
         Restarted;
    QueryAgrees(env, cfg, l);
    BlockDone(cfg, m, next.req, next.provider, next.reply, next.apps);
    NothingRouted(cfg, m);
    ChoosyStarts(m, next.req, c);
    RestartTransparentIff(cfg, m, DOC, next.req, next.provider, next.reply, next.apps);
  }

  lemma NothingRouted(cfg: Config, m: Mux)
    ensures BlockRoutes(cfg, m, []) == []
  {
  }

  lemma ChoosyStarts(m: Mux, req: Request, c: Str)
    requires m.launch == ANSWERED
    ensures Initializes(m, req, CHOOSY, c) && !Initializes(Restarted(m, DOC), req, CHOOSY, c)
  {
  }
}
