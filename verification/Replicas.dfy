/**
 Two processes of one chain given the same block: they may have been started at different times and
 have seen different proposals, so they may disagree on who is rejected and who is initialized.
 */
module Replicas {
  import opened GoTypes
  import opened Header
  import opened Routing
  import opened Mux
  import M = Mux
  import opened MuxRuns

  // The chains only one of the two rejects.
  function Disputed(m1: Mux, m2: Mux): set<Str>
  {
    (m1.rejected - m2.rejected) + (m2.rejected - m1.rejected)
  }

  ghost predicate Registered(cfg: Config, m: Mux)
  {
    cfg.providerId !in m.handlers && m.rejected <= m.initialized <= m.handlers
  }

  // Initialized, or about to be: Info shows state or InitChain succeeds.
  predicate Ready(m: Mux, req: Request, apps: Str -> Consumer, c: Str)
  {
    c in m.initialized || Initializes(m, req, apps(c), c)
  }

  // Every chain is sent the block by both processes or by neither.
  predicate SentAlike(cfg: Config, m1: Mux, m2: Mux, req: Request, reply: Option<QueryReply>, apps: Str -> Consumer)
    requires reply.Some? ==> |reply.value.value| <= MAX_INT
  {
    forall c :: c in m1.handlers ==>
      (c in ActiveFor(cfg, m1, req, reply) && c !in m1.rejected && Ready(m1, req, apps, c)
       <==> c in ActiveFor(cfg, m2, req, reply) && c !in m2.rejected && Ready(m2, req, apps, c))
  }

  // The active, unrejected, registered, ready chains are those the block is sent to.
  lemma SentIfReady(cfg: Config, m: Mux, req: Request, reply: Option<QueryReply>, apps: Str -> Consumer, c: Str)
    requires reply.Some? ==> |reply.value.value| <= MAX_INT
    ensures c in Dispatched(Refreshed(cfg, m, req, reply), req, apps) <==>
            c in m.handlers && c in ActiveFor(cfg, m, req, reply) && c !in m.rejected && Ready(m, req, apps, c)
  {
    hide QueriedIds;
  }

  lemma SentAlikeIff(cfg: Config, m1: Mux, m2: Mux, req: Request, reply: Option<QueryReply>, apps: Str -> Consumer)
    requires reply.Some? ==> |reply.value.value| <= MAX_INT
    requires m1.handlers == m2.handlers
    ensures SentAlike(cfg, m1, m2, req, reply, apps) <==>
            Dispatched(Refreshed(cfg, m1, req, reply), req, apps) == Dispatched(Refreshed(cfg, m2, req, reply), req, apps)
  {
    hide Ready, Dispatched, ActiveFor, Refreshed;
    forall c
      ensures c in Dispatched(Refreshed(cfg, m1, req, reply), req, apps) <==>
              c in m1.handlers && c in ActiveFor(cfg, m1, req, reply) && c !in m1.rejected && Ready(m1, req, apps, c)
      ensures c in Dispatched(Refreshed(cfg, m2, req, reply), req, apps) <==>
              c in m1.handlers && c in ActiveFor(cfg, m2, req, reply) && c !in m2.rejected && Ready(m2, req, apps, c)
    {
      SentIfReady(cfg, m1, req, reply, apps, c);
      SentIfReady(cfg, m2, req, reply, apps, c);
    }
  }

  predicate Untouched(txs: seq<Str>, cs: set<Str>)
  {
    forall i, c :: 0 <= i < |txs| && c in cs ==> !Addressed(txs[i], c)
  }

  lemma RoutesAlike(cfg: Config, m1: Mux, m2: Mux, txs: seq<Str>)
    requires m1.handlers == m2.handlers && Untouched(txs, Disputed(m1, m2))
    ensures BlockRoutes(cfg, m1, txs) == BlockRoutes(cfg, m2, txs)
  {
    hide ParseHeader;
    forall i | 0 <= i < |txs| ensures BlockRoute(cfg, m1, txs[i]) == BlockRoute(cfg, m2, txs[i]) {
      if ParseHeader(txs[i]).Ok? {
        var c := ParseHeader(txs[i]).value.0;
        assert c in Disputed(m1, m2) ==> !Addressed(txs[i], c);
      }
    }
  }

  // A transaction for a disputed inactive chain is marked in one process and left open in the other.
  lemma DisputedResult(cfg: Config, m1: Mux, m2: Mux, txs: seq<Str>, i: nat, c: Str,
                       a: map<Str, seq<TxResult>>, b: map<Str, seq<TxResult>>)
    requires Registered(cfg, m1) && m1.handlers == m2.handlers && c in m1.rejected && c !in m2.rejected
    requires i < |txs| && Addressed(txs[i], c) && c !in b
    ensures Table(BlockRoutes(cfg, m1, txs), a, true)[i] == Some(SKIPPED)
    ensures Table(BlockRoutes(cfg, m2, txs), b, true)[i] == None
  {
    hide ParseHeader;
    assert c in m1.handlers;
  }

  // A dispute is about consumers: it touches neither the parsing nor the provider's transactions.
  lemma ProviderAlike(cfg: Config, m1: Mux, m2: Mux, req: Request)
    requires Registered(cfg, m1) && Registered(cfg, m2) && m1.handlers == m2.handlers
    ensures var r1, r2 := BlockRoutes(cfg, m1, req.txs), BlockRoutes(cfg, m2, req.txs);
      && (Bad in r1 <==> Bad in r2)
      && (Bad in r1 ==> FirstBad(r1) == FirstBad(r2))
      && BlockShares(cfg, m1, req)(cfg.providerId) == BlockShares(cfg, m2, req)(cfg.providerId)
  {
    hide FirstBad, Positions, Payloads, ParseHeader;
    var r1, r2 := BlockRoutes(cfg, m1, req.txs), BlockRoutes(cfg, m2, req.txs);
    assert cfg.providerId !in m1.rejected && cfg.providerId !in m2.rejected;
    assert SameWay(r1, r2, Bad) && SameWay(r1, r2, To(cfg.providerId));
    SameBad(r1, r2);
    SameWaySame(r1, r2, PayloadsOf(req.txs), To(cfg.providerId));
  }

  // Both processes answer or both fail, with the same error.
  lemma FailAlike(cfg: Config, m1: Mux, m2: Mux, req: Request, provider: FinalizeApp, reply: Option<QueryReply>,
                  apps: Str -> Consumer)
    requires reply.Some? ==> |reply.value.value| <= MAX_INT
    requires Registered(cfg, m1) && Registered(cfg, m2) && m1.handlers == m2.handlers
    ensures var o1 := FinalizeBlock(cfg, m1, req, provider, reply, apps).1;
      var o2 := FinalizeBlock(cfg, m2, req, provider, reply, apps).1;
      o1 == o2 || (o1.Done? && o2.Done?)
  {
    hide FirstBad, Shares, BlockShares, Replies, Respond, Dispatch, QueriedIds, Registered, BlockRoutes;
    ProviderAlike(cfg, m1, m2, req);
    BlockDone(cfg, m1, req, provider, reply, apps);
    BlockDone(cfg, m2, req, provider, reply, apps);
  }

  // One half: if the block is sent alike and no dispute is addressed, the two answer and commit alike.
  lemma AgreeIf(cfg: Config, m1: Mux, m2: Mux, req: Request, provider: FinalizeApp, reply: Option<QueryReply>,
                apps: Str -> Consumer)
    requires reply.Some? ==> |reply.value.value| <= MAX_INT
    requires Registered(cfg, m1) && Registered(cfg, m2) && m1.handlers == m2.handlers
    requires SentAlike(cfg, m1, m2, req, reply, apps) && Untouched(req.txs, Disputed(m1, m2))
    ensures var (n1, o1) := FinalizeBlock(cfg, m1, req, provider, reply, apps);
      var (n2, o2) := FinalizeBlock(cfg, m2, req, provider, reply, apps);
      o1 == o2 && (o1.Done? ==> Committed(n1) == Committed(n2))
  {
    hide FirstBad, Shares, BlockRoutes, Respond, Dispatch, QueriedIds, Disputed, Untouched, Dispatched, FinalizeBlock,
         ShouldHalt, Committed, SentAlike, ActiveFor;
    var ready1, ready2 := Refreshed(cfg, m1, req, reply), Refreshed(cfg, m2, req, reply);
    RoutesAlike(cfg, m1, m2, req.txs);
    SentAlikeIff(cfg, m1, m2, req, reply, apps);
    FailAlike(cfg, m1, m2, req, provider, reply, apps);
    BlockDone(cfg, m1, req, provider, reply, apps);
    BlockDone(cfg, m2, req, provider, reply, apps);
    var share := BlockShares(cfg, m1, req);
    assert Replies(ready1, req, share, apps) == Replies(ready2, req, share, apps);
    DispatchedAreCommitted(ready1, req, share, apps);
    DispatchedAreCommitted(ready2, req, share, apps);
  }

  // Sent to different chains, the two commit different chains.
  lemma CommitDiffer(cfg: Config, m1: Mux, m2: Mux, req: Request, provider: FinalizeApp, reply: Option<QueryReply>,
                     apps: Str -> Consumer)
    requires reply.Some? ==> |reply.value.value| <= MAX_INT
    requires Registered(cfg, m1) && Registered(cfg, m2) && m1.handlers == m2.handlers
    requires FinalizeBlock(cfg, m1, req, provider, reply, apps).1.Done?
    requires FinalizeBlock(cfg, m2, req, provider, reply, apps).1.Done?
    requires !SentAlike(cfg, m1, m2, req, reply, apps)
    ensures var n1 := FinalizeBlock(cfg, m1, req, provider, reply, apps).0;
      var n2 := FinalizeBlock(cfg, m2, req, provider, reply, apps).0;
      Committed(n1) != Committed(n2)
  {
    hide FirstBad, Shares, BlockShares, BlockRoutes, Dispatch, QueriedIds, FinalizeBlock, ShouldHalt, Committed, Dispatched,
         SentAlike, ActiveFor;
    BlockDone(cfg, m1, req, provider, reply, apps);
    BlockDone(cfg, m2, req, provider, reply, apps);
    SentAlikeIff(cfg, m1, m2, req, reply, apps);
    DispatchedAreCommitted(Refreshed(cfg, m1, req, reply), req, BlockShares(cfg, m1, req), apps);
    DispatchedAreCommitted(Refreshed(cfg, m2, req, reply), req, BlockShares(cfg, m2, req), apps);
  }

  // A chain only the first rejects, which neither is sent, leaves its transactions marked in one reply
  // and open in the other.
  lemma ReplyDiffers(cfg: Config, m1: Mux, m2: Mux, req: Request, provider: FinalizeApp, reply: Option<QueryReply>,
                     apps: Str -> Consumer, i: nat, c: Str)
    requires reply.Some? ==> |reply.value.value| <= MAX_INT
    requires Registered(cfg, m1) && Registered(cfg, m2) && m1.handlers == m2.handlers
    requires FinalizeBlock(cfg, m1, req, provider, reply, apps).1.Done?
    requires FinalizeBlock(cfg, m2, req, provider, reply, apps).1.Done?
    requires SentAlike(cfg, m1, m2, req, reply, apps)
    requires c in m1.rejected && c !in m2.rejected && i < |req.txs| && Addressed(req.txs[i], c)
    ensures FinalizeBlock(cfg, m1, req, provider, reply, apps).1 != FinalizeBlock(cfg, m2, req, provider, reply, apps).1
  {
    hide FirstBad, Shares, BlockShares, BlockRoutes, Dispatch, QueriedIds, FinalizeBlock, ShouldHalt, Dispatched,
         CombineHashes, Table, Addressed, ActiveFor, Ready;
    var ready1, ready2 := Refreshed(cfg, m1, req, reply), Refreshed(cfg, m2, req, reply);
    BlockDone(cfg, m1, req, provider, reply, apps);
    BlockDone(cfg, m2, req, provider, reply, apps);
    var share1, share2 := BlockShares(cfg, m1, req), BlockShares(cfg, m2, req);
    assert c in m1.handlers;
    SentIfReady(cfg, m2, req, reply, apps, c);
    UnsentSilent(ready2, req, share2, apps, c);
    DisputedResult(cfg, m1, m2, req.txs, i, c,
                   Results(Replies(ready1, req, share1, apps)[cfg.providerId := provider(share1(cfg.providerId)).value]),
                   Results(Replies(ready2, req, share2, apps)[cfg.providerId := provider(share2(cfg.providerId)).value]));
  }

  lemma UnsentSilent(m: Mux, req: Request, share: Str -> seq<Str>, apps: Str -> Consumer, c: Str)
    requires c !in Dispatched(m, req, apps)
    ensures c !in Replies(m, req, share, apps)
  {
  }

  /** Exactly when two replicas agree on a block. They both fail with the same error or both answer; and
      they answer alike and commit the same chains iff every chain is sent the block by both or by neither
      (it is active, not rejected, and initialized or able to be), and no transaction is addressed to a chain that only one of them rejects.
      Who a process rejects comes from the last proposal it has seen, and who it holds active, when
      the query fails, from the last answer: a block is not a function of the committed state alone. */
  lemma ReplicasAgreeIff(cfg: Config, m1: Mux, m2: Mux, req: Request, provider: FinalizeApp, reply: Option<QueryReply>,
                         apps: Str -> Consumer)
    requires reply.Some? ==> |reply.value.value| <= MAX_INT
    requires Registered(cfg, m1) && Registered(cfg, m2) && m1.handlers == m2.handlers
    ensures var (n1, o1) := FinalizeBlock(cfg, m1, req, provider, reply, apps);
      var (n2, o2) := FinalizeBlock(cfg, m2, req, provider, reply, apps);
      && (!o1.Done? || !o2.Done? ==> o1 == o2)
      && (o1.Done? ==> (o1 == o2 && Committed(n1) == Committed(n2)
           <==> SentAlike(cfg, m1, m2, req, reply, apps) && Untouched(req.txs, Disputed(m1, m2))))
  {
    hide FinalizeBlock, Committed, QueriedIds, Addressed, SentAlike, Registered;
    FailAlike(cfg, m1, m2, req, provider, reply, apps);
    if FinalizeBlock(cfg, m1, req, provider, reply, apps).1.Done? {
      if !SentAlike(cfg, m1, m2, req, reply, apps) {
        CommitDiffer(cfg, m1, m2, req, provider, reply, apps);
      } else if Untouched(req.txs, Disputed(m1, m2)) {
        AgreeIf(cfg, m1, m2, req, provider, reply, apps);
      } else {
        var i, c :| 0 <= i < |req.txs| && c in Disputed(m1, m2) && Addressed(req.txs[i], c);
        if c in m1.rejected {
          ReplyDiffers(cfg, m1, m2, req, provider, reply, apps, i, c);
        } else {
          SentAlikeIff(cfg, m1, m2, req, reply, apps);
          SentAlikeIff(cfg, m2, m1, req, reply, apps);
          ReplyDiffers(cfg, m2, m1, req, provider, reply, apps, i, c);
        }
      }
    }
  }

  // Info shows the state of every chain one of the two knows to be initialized, and a chain without
  // state would be started alike.
  ghost predicate Stateful(m1: Mux, m2: Mux, apps: Str -> Consumer)
  {
    && m1.handlers == m2.handlers
    && (forall c :: c in m1.initialized + m2.initialized ==> HasState(apps(c)))
    && (m1.launch == m2.launch || forall c :: c in m1.handlers ==> HasState(apps(c)))
  }

  lemma ReadyAlike(m1: Mux, m2: Mux, req: Request, apps: Str -> Consumer, c: Str)
    requires Stateful(m1, m2, apps) && c in m1.handlers
    ensures Ready(m1, req, apps, c) <==> Ready(m2, req, apps, c)
    ensures c in m1.initialized + m2.initialized ==> Ready(m1, req, apps, c)
  {
    assert c in m1.initialized || c in m2.initialized ==> HasState(apps(c));
  }

  // Between two such processes, with an answered query, only the disputes about active chains matter.
  lemma AnsweredAlikeIff(cfg: Config, m1: Mux, m2: Mux, req: Request, reply: Option<QueryReply>, apps: Str -> Consumer)
    requires reply.Some? ==> |reply.value.value| <= MAX_INT
    requires Registered(cfg, m1) && Registered(cfg, m2) && Stateful(m1, m2, apps)
    requires req.height > 1 && QueriedIds(cfg, reply).Some?
    ensures SentAlike(cfg, m1, m2, req, reply, apps) <==> Disputed(m1, m2) * QueriedIds(cfg, reply).value == {}
  {
    hide QueriedIds, Ready, Stateful;
    AlikeConfigured(m1, m2, apps);
    var ids := QueriedIds(cfg, reply).value;
    forall c | c in m1.handlers
      ensures Ready(m1, req, apps, c) <==> Ready(m2, req, apps, c)
      ensures c in m1.initialized + m2.initialized ==> Ready(m1, req, apps, c)
    {
      ReadyAlike(m1, m2, req, apps, c);
    }
    if SentAlike(cfg, m1, m2, req, reply, apps) {
      forall c | c in Disputed(m1, m2) ensures c !in ids {
        assert c in m1.initialized + m2.initialized && c in m1.handlers;
      }
    } else {
      var c :| c in m1.handlers
               && !(c in ids && c !in m1.rejected && Ready(m1, req, apps, c)
                    <==> c in ids && c !in m2.rejected && Ready(m2, req, apps, c));
      assert c in Disputed(m1, m2) * ids;
    }
  }

  lemma AlikeConfigured(m1: Mux, m2: Mux, apps: Str -> Consumer)
    requires Stateful(m1, m2, apps)
    ensures m1.handlers == m2.handlers
  {
  }

  // The state of a process just started again: its handlers come from the configuration and its launch
  // data from the genesis document, whatever the provider answered to InitChain in an earlier life.
  function Restarted(m: Mux, doc: Launch): Mux
  {
    M.Mux(m.handlers, {}, {}, {}, doc, map[])
  }

  // Whom the block is sent to, by the running process and by the restarted one.
  predicate RestartSent(cfg: Config, m: Mux, doc: Launch, req: Request, reply: Option<QueryReply>, apps: Str -> Consumer)
    requires reply.Some? ==> |reply.value.value| <= MAX_INT
  {
    if req.height > 1 && QueriedIds(cfg, reply).Some? then
      forall c :: c in m.handlers && c in QueriedIds(cfg, reply).value ==>
        (c !in m.rejected && Ready(m, req, apps, c) <==> Initializes(Restarted(m, doc), req, apps(c), c))
    else
      Dispatched(m, req, apps) == {}
  }

  lemma RestartSentIff(cfg: Config, m: Mux, doc: Launch, req: Request, reply: Option<QueryReply>, apps: Str -> Consumer)
    requires reply.Some? ==> |reply.value.value| <= MAX_INT
    ensures SentAlike(cfg, m, Restarted(m, doc), req, reply, apps) <==> RestartSent(cfg, m, doc, req, reply, apps)
  {
    hide QueriedIds, Initializes;
    var restarted := Restarted(m, doc);
    if !(req.height > 1 && QueriedIds(cfg, reply).Some?) {
      SentAlikeIff(cfg, m, restarted, req, reply, apps);
      assert Refreshed(cfg, m, req, reply) == m && Refreshed(cfg, restarted, req, reply) == restarted;
      assert Dispatched(restarted, req, apps) == {};
    }
  }

  /** A restarted process answers and commits like one that kept running iff no transaction is addressed to
      a chain the running one rejects, and: with an answered query, every active chain the running one
      would send the block to shows state or starts from the genesis document's launch data, and no other
      does; without one, the running process has nobody to send the block to. */
  lemma RestartTransparentIff(cfg: Config, m: Mux, doc: Launch, req: Request, provider: FinalizeApp,
                              reply: Option<QueryReply>, apps: Str -> Consumer)
    requires reply.Some? ==> |reply.value.value| <= MAX_INT
    requires Registered(cfg, m)
    ensures var (n1, o1) := FinalizeBlock(cfg, m, req, provider, reply, apps);
      var (n2, o2) := FinalizeBlock(cfg, Restarted(m, doc), req, provider, reply, apps);
      && (!o1.Done? || !o2.Done? ==> o1 == o2)
      && (o1.Done? ==> (o1 == o2 && Committed(n1) == Committed(n2)
           <==> RestartSent(cfg, m, doc, req, reply, apps) && Untouched(req.txs, m.rejected)))
  {
    hide FinalizeBlock, Committed, QueriedIds, Addressed, Dispatched, SentAlike, RestartSent;
    assert Disputed(m, Restarted(m, doc)) == m.rejected;
    ReplicasAgreeIff(cfg, m, Restarted(m, doc), req, provider, reply, apps);
    RestartSentIff(cfg, m, doc, req, reply, apps);
  }
}
