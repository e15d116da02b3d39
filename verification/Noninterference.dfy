/**
 Fault isolation over whole runs: two runs driven alike, in which every application but consumer x
 behaves alike. A proposal may be refused in one run, in both, or for reasons of x alone.
 */
module Noninterference {
  import opened GoTypes
  import opened Routing
  import opened Header
  import opened Mux
  import M = Mux
  import opened MuxRuns
  import R = MuxRuns
  import opened Isolation
  import Confluence
  import Replicas

  predicate Malformed(txs: seq<Str>)
  {
    exists i :: 0 <= i < |txs| && ParseHeader(txs[i]).Err?
  }

  // The same call in both runs; x's part in it, and the verdict on a proposal, may differ.
  ghost predicate Twin(x: Str, e1: R.Event, e2: R.Event)
  {
    match e1
    case InitEvent(start, launcher, inits) =>
      e2.InitEvent? && start == e2.start && launcher == e2.launcher && AgreeOff(x, inits, e2.inits)
    case ProposalEvent(txs, judges, _) =>
      e2.ProposalEvent? && txs == e2.txs && AgreeOff(x, judges, e2.judges)
    case BlockEvent(req, provider, reply, apps) =>
      && e2.BlockEvent? && req == e2.req && provider == e2.provider && reply == e2.reply
      && AgreeOff(x, apps, e2.apps)
    case CommitEvent(ok) => e2 == e1
  }

  // The last well-formed proposal before moment i, if any, was accepted in both runs.
  predicate Settled(events1: seq<R.Event>, events2: seq<R.Event>, i: nat)
    requires i <= |events1| && i <= |events2|
  {
    if i == 0 then true
    else
      match (events1[i - 1], events2[i - 1])
      case (ProposalEvent(txs, _, v1), ProposalEvent(_, _, v2)) =>
        if Malformed(txs) then Settled(events1, events2, i - 1) else v1 == v2 == Status(ACCEPT)
      case _ => Settled(events1, events2, i - 1)
  }

  /******* InitChain *******/

  lemma InitAlike(x: Str, cfg: Config, m1: Mux, m2: Mux, start: InitRequest, launcher: InitRequest -> Option<InitReply>,
                  inits1: Str -> InitApp, inits2: Str -> InitApp)
    requires SameCore(x, m1, m2) && AgreeOff(x, inits1, inits2)
    ensures var n1 := InitChain(cfg, m1, start, launcher, inits1).0;
      var n2 := InitChain(cfg, m2, start, launcher, inits2).0;
      SameCore(x, n1, n2) && n1.rejected == m1.rejected && n2.rejected == m2.rejected && SameNewCalls(x, m1, n1, m2, n2)
  {
    hide Trace, AddCalls, InitAsked, InitAnswers, CombineHashes, InitHashes, AgreeOff, SameNewCalls, StartCalls, Started;
    var n1, n2 := InitChain(cfg, m1, start, launcher, inits1).0, InitChain(cfg, m2, start, launcher, inits2).0;
    if launcher(start).Some? {
      var launch := LaunchOf(launcher(start).value);
      var asked1, asked2 := InitAsked(m1, inits1), InitAsked(m2, inits2);
      var calls1, calls2 := InitChainCalls(launch, start, inits1), InitChainCalls(launch, start, inits2);
      forall c | c != x ensures SameNews(m1, n1, m2, n2, c) && (c in n1.initialized <==> c in n2.initialized) {
        SameInit(x, inits1, inits2, c);
        AskedMeans(m1.(launch := launch), start, inits1, c);
        AskedMeans(m2.(launch := launch), start, inits2, c);
        AskedMeans(m1, start, inits1, c);
        AskedMeans(m2, start, inits2, c);
        MembersOff(x, m1.initialized, m2.initialized, c);
        TraceStep(m1, n1, asked1, calls1, c);
        TraceStep(m2, n2, asked2, calls2, c);
        var news := if c in asked1 then calls1(c) else [];
        assert Trace(n1, c) == Trace(m1, c) + news && Trace(n2, c) == Trace(m2, c) + news;
      }
      SetsOff(x, n1.initialized, n2.initialized);
      assert SameNewCalls(x, m1, n1, m2, n2) by { AllNews(x, m1, n1, m2, n2); }
    } else {
      NoNews(x, m1, m2);
    }
  }

  lemma AllNews(x: Str, m1: Mux, n1: Mux, m2: Mux, n2: Mux)
    requires forall c :: c != x ==> SameNews(m1, n1, m2, n2, c)
    ensures SameNewCalls(x, m1, n1, m2, n2)
  {
  }

  lemma SameInit(x: Str, inits1: Str -> InitApp, inits2: Str -> InitApp, c: Str)
    requires AgreeOff(x, inits1, inits2) && c != x
    ensures inits1(c) == inits2(c)
  {
  }

  /******* ProcessProposal *******/

  // Routing a proposal does not look at who is rejected.
  lemma ProposalRoutesOff(x: Str, cfg: Config, m1: Mux, m2: Mux, txs: seq<Str>)
    requires SameCore(x, m1, m2) && x != cfg.providerId
    ensures RoutesOff(x, txs, ProposalRoutes(cfg, m1, txs), ProposalRoutes(cfg, m2, txs))
  {
    hide ParseHeader;
    forall i | 0 <= i < |txs| && !Addressed(txs[i], x) && ParseHeader(txs[i]).Ok?
      ensures ProposalRoute(cfg, m1, txs[i]) == ProposalRoute(cfg, m2, txs[i])
    {
      MembersOff(x, m1.initialized, m2.initialized, ParseHeader(txs[i]).value.0);
    }
  }

  lemma CalledOff(x: Str, txs: seq<Str>, r1: seq<Route>, r2: seq<Route>, c: Str)
    requires RoutesOff(x, txs, r1, r2) && c != x && c in Called(r1)
    ensures c in Called(r2)
  {
    var i :| 0 <= i < |r1| && r1[i].To? && r1[i].chain == c;
    assert r2[i] == r1[i];
  }

  lemma RoutesOffSym(x: Str, txs: seq<Str>, r1: seq<Route>, r2: seq<Route>)
    requires RoutesOff(x, txs, r1, r2)
    ensures RoutesOff(x, txs, r2, r1)
  {
  }

  lemma RefusersOff(x: Str, cfg: Config, txs: seq<Str>, r1: seq<Route>, r2: seq<Route>,
                    judges1: Str -> Judge, judges2: Str -> Judge, c: Str)
    requires RoutesOff(x, txs, r1, r2) && AgreeOff(x, judges1, judges2) && c != x
    ensures c in Called(r1) <==> c in Called(r2)
    ensures Shares(r1, txs)(c) == Shares(r2, txs)(c)
    ensures c in Refusers(cfg, r1, txs, judges1) <==> c in Refusers(cfg, r2, txs, judges2)
  {
    hide Called, RoutesOff, Shares;
    RoutesOffSym(x, txs, r1, r2);
    if c in Called(r1) { CalledOff(x, txs, r1, r2, c); }
    if c in Called(r2) { CalledOff(x, txs, r2, r1, c); }
    SharesOff(x, txs, r1, r2);
    ShareOff(x, Shares(r1, txs), Shares(r2, txs), c);
    assert judges1(c) == judges2(c);
  }

  // Whatever the verdicts: the same chains are asked the same, and only the rejected sets can differ.
  lemma ProposalAlike(x: Str, cfg: Config, m1: Mux, m2: Mux, txs: seq<Str>, judges1: Str -> Judge, judges2: Str -> Judge,
                      n1: Mux, v1: Verdict, n2: Mux, v2: Verdict)
    requires x != cfg.providerId && SameCore(x, m1, m2) && AgreeOff(x, judges1, judges2)
    requires M.ProcessProposal(cfg, m1, txs, judges1, n1, v1) && M.ProcessProposal(cfg, m2, txs, judges2, n2, v2)
    ensures SameCore(x, n1, n2) && SameNewCalls(x, m1, n1, m2, n2)
    ensures Malformed(txs) ==> n1 == m1 && n2 == m2
    ensures v1 == v2 == Status(ACCEPT) ==> SameRejected(x, n1, n2)
  {
    hide Trace, AddCalls, Called, Approved, Answer, Refusers, AgreeOff, RoutesOff, SameNewCalls, Shares, Malformed;
    var r1, r2 := ProposalRoutes(cfg, m1, txs), ProposalRoutes(cfg, m2, txs);
    ProposalRoutesOff(x, cfg, m1, m2, txs);
    SameCount(x, txs, r1, r2);
    if Malformed(txs) {
      MalformedRejected(cfg, m1, txs, judges1, n1, v1);
      MalformedRejected(cfg, m2, txs, judges2, n2, v2);
      NoNews(x, m1, m2);
    } else if Bad in r1 {
      NoNews(x, m1, m2);
    } else {
      Confluence.AcceptIff(cfg, m1, txs, judges1, n1, v1);
      Confluence.AcceptIff(cfg, m2, txs, judges2, n2, v2);
      var share1, share2 := Shares(r1, txs), Shares(r2, txs);
      forall c | c != x
        ensures SameNews(m1, n1, m2, n2, c)
        ensures v1 == v2 == Status(ACCEPT) ==> (c in n1.rejected <==> c in n2.rejected)
      {
        RefusersOff(x, cfg, txs, r1, r2, judges1, judges2, c);
        TraceStep(m1, n1, Called(r1) - {cfg.providerId}, ProcessCalls(share1), c);
        TraceStep(m2, n2, Called(r2) - {cfg.providerId}, ProcessCalls(share2), c);
        var news := if c in Called(r1) - {cfg.providerId} then [ProcessCall(share1(c))] else [];
        assert Trace(n1, c) == Trace(m1, c) + news && Trace(n2, c) == Trace(m2, c) + news;
      }
      AllNews(x, m1, n1, m2, n2);
      if v1 == v2 == Status(ACCEPT) {
        SetsOff(x, n1.rejected, n2.rejected);
      }
    }
  }

  predicate Errs(routes: seq<Route>, txs: seq<Str>, judges: Str -> Judge, c: Str)
    requires |routes| == |txs|
  {
    c in Called(routes) && Answer(routes, txs, judges, c).None?
  }

  // Off x the same chains err.
  lemma ErrsOff(x: Str, txs: seq<Str>, r1: seq<Route>, r2: seq<Route>, judges1: Str -> Judge, judges2: Str -> Judge, c: Str)
    requires RoutesOff(x, txs, r1, r2) && AgreeOff(x, judges1, judges2) && c != x
    ensures c in Called(r1) <==> c in Called(r2)
    ensures Answer(r1, txs, judges1, c) == Answer(r2, txs, judges2, c)
  {
    hide Called, RoutesOff, Shares, Refusers;
    RefusersOff(x, Config(x, 0, 0, _ => true), txs, r1, r2, judges1, judges2, c);
    assert judges1(c) == judges2(c);
  }

  /** x's exact effect on a verdict. Acceptance differs between the two runs iff the proposal parses, the
      provider does not refuse, no chain but x errs, and x is called and errs in exactly one of them. */
  lemma VerdictDiffersIff(x: Str, cfg: Config, m1: Mux, m2: Mux, txs: seq<Str>, judges1: Str -> Judge, judges2: Str -> Judge,
                          n1: Mux, v1: Verdict, n2: Mux, v2: Verdict)
    requires x != cfg.providerId && SameCore(x, m1, m2) && AgreeOff(x, judges1, judges2)
    requires M.ProcessProposal(cfg, m1, txs, judges1, n1, v1) && M.ProcessProposal(cfg, m2, txs, judges2, n2, v2)
    ensures var r1, r2 := ProposalRoutes(cfg, m1, txs), ProposalRoutes(cfg, m2, txs);
      (v1 == Status(ACCEPT)) != (v2 == Status(ACCEPT)) <==>
        && Bad !in r1 && !Confluence.ProviderRefuses(cfg, m1, txs, judges1)
        && (forall c :: c != x ==> !Errs(r1, txs, judges1, c))
        && Errs(r1, txs, judges1, x) != Errs(r2, txs, judges2, x)
  {
    hide Called, Answer, ProcessProposal, RoutesOff, SameCore, AgreeOff, Errs, FirstBad, Refusers;
    var r1, r2 := ProposalRoutes(cfg, m1, txs), ProposalRoutes(cfg, m2, txs);
    ProposalRoutesOff(x, cfg, m1, m2, txs);
    SameCount(x, txs, r1, r2);
    Confluence.AcceptIff(cfg, m1, txs, judges1, n1, v1);
    Confluence.AcceptIff(cfg, m2, txs, judges2, n2, v2);
    OthersErrAlike(x, txs, r1, r2, judges1, judges2);
    assert Confluence.ProviderRefuses(cfg, m1, txs, judges1) <==> Confluence.ProviderRefuses(cfg, m2, txs, judges2) by {
      ErrsOff(x, txs, r1, r2, judges1, judges2, cfg.providerId);
    }
    SomeoneIs(x, cfg, m1, txs, judges1);
    SomeoneIs(x, cfg, m2, txs, judges2);
  }

  lemma SomeoneIs(x: Str, cfg: Config, m: Mux, txs: seq<Str>, judges: Str -> Judge)
    ensures var routes := ProposalRoutes(cfg, m, txs);
      !Confluence.SomeoneErrs(cfg, m, txs, judges) <==>
        !Errs(routes, txs, judges, x) && forall c :: c != x ==> !Errs(routes, txs, judges, c)
  {
    hide Called, Answer;
    var routes := ProposalRoutes(cfg, m, txs);
    if Confluence.SomeoneErrs(cfg, m, txs, judges) {
      var c :| c in Called(routes) && Answer(routes, txs, judges, c).None?;
      assert Errs(routes, txs, judges, c);
    } else {
      forall c ensures !Errs(routes, txs, judges, c) {
        assert c in Called(routes) ==> !Answer(routes, txs, judges, c).None?;
      }
    }
  }

  lemma OthersErrAlike(x: Str, txs: seq<Str>, r1: seq<Route>, r2: seq<Route>, judges1: Str -> Judge, judges2: Str -> Judge)
    requires RoutesOff(x, txs, r1, r2) && AgreeOff(x, judges1, judges2)
    ensures forall c :: c != x ==> (Errs(r1, txs, judges1, c) <==> Errs(r2, txs, judges2, c))
  {
    hide Called, Answer, RoutesOff, AgreeOff;
    assert |r1| == |r2| == |txs| by { SameCount(x, txs, r1, r2); }
    forall c | c != x ensures Errs(r1, txs, judges1, c) <==> Errs(r2, txs, judges2, c) {
      ErrsOff(x, txs, r1, r2, judges1, judges2, c);
    }
  }

  lemma MalformedRejected(cfg: Config, m: Mux, txs: seq<Str>, judges: Str -> Judge, m': Mux, v: Verdict)
    requires Malformed(txs) && M.ProcessProposal(cfg, m, txs, judges, m', v)
    ensures m' == m && v == Status(REJECT)
  {
    var i :| 0 <= i < |txs| && ParseHeader(txs[i]).Err?;
    assert ProposalRoutes(cfg, m, txs)[i] == Bad;
  }

  /******* FinalizeBlock and Commit *******/

  // Even where the rejected sets differ, a block keeps the rest alike: a rejected chain is
  // initialized already, so who becomes initialized does not depend on who is rejected.
  lemma BlockCore(x: Str, cfg: Config, m1: Mux, m2: Mux, req: Request, provider: FinalizeApp, reply: Option<QueryReply>,
                  apps1: Str -> Consumer, apps2: Str -> Consumer)
    requires reply.Some? ==> |reply.value.value| <= MAX_INT
    requires Replicas.Registered(cfg, m1) && Replicas.Registered(cfg, m2)
    requires SameCore(x, m1, m2) && AgreeOff(x, apps1, apps2)
    ensures var (n1, o1) := FinalizeBlock(cfg, m1, req, provider, reply, apps1);
      var (n2, o2) := FinalizeBlock(cfg, m2, req, provider, reply, apps2);
      SameCore(x, n1, n2) && (o1.Done? <==> o2.Done?) && n1.rejected == m1.rejected && n2.rejected == m2.rejected
  {
    hide Shares, BlockShares, BlockRoutes, Replies, Respond, QueriedIds, FirstBad, AddCalls, DispatchCalls, FinalizeBlock,
         ShouldHalt, Dispatched, AgreeOff;
    Replicas.ProviderAlike(cfg, m1, m2, req);
    BlockDone(cfg, m1, req, provider, reply, apps1);
    BlockDone(cfg, m2, req, provider, reply, apps2);
    BlockOutcome(cfg, m1, req, provider, reply, apps1);
    BlockOutcome(cfg, m2, req, provider, reply, apps2);
    var ready1, ready2 := Refreshed(cfg, m1, req, reply), Refreshed(cfg, m2, req, reply);
    forall c | c != x
      ensures c in ready1.initialized + Dispatched(ready1, req, apps1) <==> c in ready2.initialized + Dispatched(ready2, req, apps2)
    {
      StartedOff(x, ready1, ready2, req, apps1, apps2, c);
    }
    SetsOff(x, ready1.initialized + Dispatched(ready1, req, apps1), ready2.initialized + Dispatched(ready2, req, apps2));
  }

  lemma StartedOff(x: Str, m1: Mux, m2: Mux, req: Request, apps1: Str -> Consumer, apps2: Str -> Consumer, c: Str)
    requires SameCore(x, m1, m2) && AgreeOff(x, apps1, apps2) && c != x
    requires m1.rejected <= m1.initialized && m2.rejected <= m2.initialized
    ensures c in m1.initialized + Dispatched(m1, req, apps1) <==> c in m2.initialized + Dispatched(m2, req, apps2)
  {
    assert apps1(c) == apps2(c);
    MembersOff(x, m1.initialized, m2.initialized, c);
    assert c in m1.rejected ==> c in m1.initialized;
    assert c in m2.rejected ==> c in m2.initialized;
  }

  lemma CommitAlike(x: Str, m1: Mux, m2: Mux, ok: bool)
    requires SameCore(x, m1, m2)
    ensures SameCore(x, Commit(m1, ok), Commit(m2, ok))
    ensures Commit(m1, ok).rejected == m1.rejected && Commit(m2, ok).rejected == m2.rejected
    ensures SameRejected(x, m1, m2) ==> SameNewCalls(x, m1, Commit(m1, ok), m2, Commit(m2, ok))
  {
    hide Trace, AddCalls, SameNewCalls, Committed;
    var n1, n2 := Commit(m1, ok), Commit(m2, ok);
    if !ok {
      NoNews(x, m1, m2);
    } else if SameRejected(x, m1, m2) {
      forall c | c != x ensures SameNews(m1, n1, m2, n2, c) {
        CommittedOff(x, m1, m2, c);
        TraceStep(m1, n1, Committed(m1), OneCall(CommitCall), c);
        TraceStep(m2, n2, Committed(m2), OneCall(CommitCall), c);
        var news := if c in Committed(m1) then [CommitCall] else [];
        assert Trace(n1, c) == Trace(m1, c) + news && Trace(n2, c) == Trace(m2, c) + news;
      }
      AllNews(x, m1, n1, m2, n2);
    }
  }

  lemma CommittedOff(x: Str, m1: Mux, m2: Mux, c: Str)
    requires SameCore(x, m1, m2) && SameRejected(x, m1, m2) && c != x
    ensures c in Committed(m1) <==> c in Committed(m2)
  {
    MembersOff(x, m1.initialized, m2.initialized, c);
    MembersOff(x, m1.rejected, m2.rejected, c);
  }

  /******* Runs *******/

  // One step of both runs: the core stays alike; the rejected sets do unless a proposal unsettles them,
  // and one accepted in both settles them; a block or commit is heard alike if they are settled.
  lemma StepAlike(x: Str, cfg: Config, a1: Conf, e1: R.Event, b1: Conf, a2: Conf, e2: R.Event, b2: Conf)
    requires x != cfg.providerId && Inv(cfg, a1) && Inv(cfg, a2) && Twin(x, e1, e2)
    requires a1.stage == a2.stage && SameCore(x, a1.mux, a2.mux)
    requires Step(cfg, a1, e1, b1) && Step(cfg, a2, e2, b2)
    ensures b1.stage == b2.stage && SameCore(x, b1.mux, b2.mux)
    ensures !e1.ProposalEvent? || Malformed(e1.txs) ==> b1.mux.rejected == a1.mux.rejected && b2.mux.rejected == a2.mux.rejected
    ensures e1.ProposalEvent? && e1.verdict == e2.verdict == Status(ACCEPT) ==> SameRejected(x, b1.mux, b2.mux)
    ensures !(e1.BlockEvent? || e1.CommitEvent?) || SameRejected(x, a1.mux, a2.mux) ==>
              SameNewCalls(x, a1.mux, b1.mux, a2.mux, b2.mux)
  {
    hide SameCore, SameRejected, AgreeOff, SameNewCalls, InitChain, ProcessProposal, FinalizeBlock, Commit, IsolatedResponse,
         SameOff, InPhase, Trace, Malformed;
    match e1
    case InitEvent(start, launcher, inits) =>
      InitAlike(x, cfg, a1.mux, a2.mux, start, launcher, inits, e2.inits);
    case ProposalEvent(txs, judges, _) =>
      ProposalAlike(x, cfg, a1.mux, a2.mux, txs, judges, e2.judges, b1.mux, e1.verdict, b2.mux, e2.verdict);
    case BlockEvent(req, provider, reply, apps) =>
      BlockCore(x, cfg, a1.mux, a2.mux, req, provider, reply, apps, e2.apps);
      if SameRejected(x, a1.mux, a2.mux) {
        FaultIsolation(x, cfg, a1.mux, a2.mux, req, provider, reply, apps, e2.apps);
      }
    case CommitEvent(ok) =>
      CommitAlike(x, a1.mux, a2.mux, ok);
  }

  function Outcome(cfg: Config, m: Mux, e: R.Event): FinalizeOutcome
    requires e.BlockEvent? && (e.reply.Some? ==> |e.reply.value.value| <= MAX_INT)
  {
    FinalizeBlock(cfg, m, e.req, e.provider, e.reply, e.apps).1
  }

  // What x adds to the app hash of this block: the hash it answers, nothing if it does not.
  function OwnSegment(x: Str, cfg: Config, m: Mux, e: R.Event): Str
    requires e.BlockEvent? && (e.reply.Some? ==> |e.reply.value.value| <= MAX_INT)
  {
    Segment(Hashes(Replies(Refreshed(cfg, m, e.req, e.reply), e.req, BlockShares(cfg, m, e.req), e.apps)), x)
  }

  // The engine's side of two runs that differ only in consumer x.
  ghost predicate Twins(x: Str, cfg: Config, confs1: seq<Conf>, events1: seq<R.Event>,
                        confs2: seq<Conf>, events2: seq<R.Event>)
  {
    && x != cfg.providerId && Behavior(cfg, confs1, events1) && Behavior(cfg, confs2, events2)
    && Initial(cfg, confs1[0]) && confs1[0] == confs2[0]
    && |events1| == |events2| && forall k :: 0 <= k < |events1| ==> Twin(x, events1[k], events2[k])
  }

  // FinalizeBlock is the only way to the stage in which Commit is due.
  lemma DecidedByBlock(cfg: Config, confs: seq<Conf>, events: seq<R.Event>, i: nat)
    requires Behavior(cfg, confs, events) && Initial(cfg, confs[0]) && i < |confs| && confs[i].stage == Decided
    ensures i > 0 && events[i - 1].BlockEvent?
  {
    hide InitChain, ProcessProposal, FinalizeBlock, Commit;
    if i > 0 {
      assert Step(cfg, confs[i - 1], events[i - 1], confs[i]);
    }
  }

  // Every block before moment i came when the rejected sets were settled.
  predicate SettledBlocks(events1: seq<R.Event>, events2: seq<R.Event>, i: nat)
    requires i <= |events1| && i <= |events2|
  {
    forall k :: 0 <= k < i && events1[k].BlockEvent? ==> Settled(events1, events2, k)
  }

  /** The states of two such runs. At every moment, whatever was refused before, they are at the same
      stage and agree on who is registered, active and, but for x, initialized. They agree on who but
      x is rejected whenever the last well-formed proposal was accepted in both: a refused round leaves
      nothing behind once another is accepted. And every other chain has received exactly the same calls
      if every block so far came at such a moment. */
  lemma {:induction false} StatesAlike(x: Str, cfg: Config, confs1: seq<Conf>, events1: seq<R.Event>,
                                       confs2: seq<Conf>, events2: seq<R.Event>, i: nat)
    requires Twins(x, cfg, confs1, events1, confs2, events2) && i < |confs1|
    ensures confs1[i].stage == confs2[i].stage && SameCore(x, confs1[i].mux, confs2[i].mux)
    ensures Settled(events1, events2, i) ==> SameRejected(x, confs1[i].mux, confs2[i].mux)
    ensures SettledBlocks(events1, events2, i) ==> SameCalls(x, confs1[i].mux, confs2[i].mux)
  {
    hide SameCore, SameRejected, SameCalls, SameNewCalls, InitChain, ProcessProposal, FinalizeBlock, Commit, Inv, Malformed;
    if i == 0 {
      AlikeAtFirst(x, confs1[0].mux);
    } else {
      var a1, e1, b1 := confs1[i - 1], events1[i - 1], confs1[i];
      var a2, e2, b2 := confs2[i - 1], events2[i - 1], confs2[i];
      StatesAlike(x, cfg, confs1, events1, confs2, events2, i - 1);
      RunInvariant(cfg, confs1, events1, i - 1);
      RunInvariant(cfg, confs2, events2, i - 1);
      assert Step(cfg, a1, e1, b1) && Step(cfg, a2, e2, b2) && Twin(x, e1, e2);
      StepAlike(x, cfg, a1, e1, b1, a2, e2, b2);
      if Settled(events1, events2, i) && (!e1.ProposalEvent? || Malformed(e1.txs)) {
        RejectedKept(x, a1.mux, b1.mux, a2.mux, b2.mux);
      }
      if SettledBlocks(events1, events2, i) {
        assert SettledBlocks(events1, events2, i - 1);
        if e1.CommitEvent? {
          DecidedByBlock(cfg, confs1, events1, i - 1);
          assert Twin(x, events1[i - 2], events2[i - 2]);
          assert Settled(events1, events2, i - 2);
        }
        CallsKept(x, a1.mux, b1.mux, a2.mux, b2.mux);
      }
    }
  }

  lemma AlikeAtFirst(x: Str, m: Mux)
    ensures SameCore(x, m, m) && SameRejected(x, m, m) && SameCalls(x, m, m)
  {
  }

  lemma RejectedKept(x: Str, m1: Mux, n1: Mux, m2: Mux, n2: Mux)
    requires SameRejected(x, m1, m2) && n1.rejected == m1.rejected && n2.rejected == m2.rejected
    ensures SameRejected(x, n1, n2)
  {
  }

  /** Noninterference. At any block of two such runs at which the last well-formed proposal was accepted
      in both, or the rejected sets happen to agree but for x, the replies are equal errors, or responses
      that differ only in x's own results and its own segment of the app hash; and every chain but x is
      handed the same transactions and receives the same calls in that block. Nothing is asked of the
      rounds and blocks before. */
  lemma Noninterference(x: Str, cfg: Config, confs1: seq<Conf>, events1: seq<R.Event>,
                        confs2: seq<Conf>, events2: seq<R.Event>, i: nat)
    requires Twins(x, cfg, confs1, events1, confs2, events2)
    requires i < |events1| && events1[i].BlockEvent?
    requires Settled(events1, events2, i) || SameRejected(x, confs1[i].mux, confs2[i].mux)
    ensures events2[i].BlockEvent? && events1[i].req == events2[i].req && events1[i].reply == events2[i].reply
    ensures events1[i].reply.Some? ==> |events1[i].reply.value.value| <= MAX_INT
    ensures var m1, m2 := confs1[i].mux, confs2[i].mux;
      var o1, o2 := Outcome(cfg, m1, events1[i]), Outcome(cfg, m2, events2[i]);
      && (if !o1.Done? then o1 == o2
          else IsolatedResponse(x, events1[i].req.txs, o1, OwnSegment(x, cfg, m1, events1[i]),
                                                       o2, OwnSegment(x, cfg, m2, events2[i])))
      && AgreeOff(x, BlockShares(cfg, m1, events1[i].req), BlockShares(cfg, m2, events2[i].req))
      && SameNewCalls(x, m1, confs1[i + 1].mux, m2, confs2[i + 1].mux)
  {
    hide SameCore, SameRejected, SameNewCalls, AgreeOff, FinalizeBlock, IsolatedResponse, SameOff, Replies, BlockShares,
         Hashes, Segment, Settled, SettledBlocks, InitChain, ProcessProposal, Commit;
    StatesAlike(x, cfg, confs1, events1, confs2, events2, i);
    var e1, e2 := events1[i], events2[i];
    assert Twin(x, e1, e2) && Step(cfg, confs1[i], e1, confs1[i + 1]) && Step(cfg, confs2[i], e2, confs2[i + 1]);
    FaultIsolation(x, cfg, confs1[i].mux, confs2[i].mux, e1.req, e1.provider, e1.reply, e1.apps, e2.apps);
  }
}
