/** Which transactions of a block get a result. The engine expects one for each. */
module Completeness {
  import opened GoTypes
  import opened Header
  import opened Routing
  import opened Mux
  import M = Mux
  import opened MuxRuns
  import opened Replicas

  // A chain's position list has a result for every entry iff the reply is there and long enough.
  lemma AllAnswered(routes: seq<Route>, payloads: seq<Str>, replies: map<Str, seq<TxResult>>, c: Str)
    requires |routes| == |payloads|
    requires c in replies && |Payloads(routes, payloads, To(c))| <= |replies[c]|
    ensures forall i :: 0 <= i < |routes| && routes[i] == To(c) ==> Table(routes, replies, true)[i].Some?
  {
    hide Positions, Payloads, Rank;
    SameLength(routes, payloads, To(c));
    forall i | 0 <= i < |routes| && routes[i] == To(c) ensures Table(routes, replies, true)[i].Some? {
      PositionComplete(routes, i);
    }
  }

  lemma SomeUnanswered(routes: seq<Route>, payloads: seq<Str>, replies: map<Str, seq<TxResult>>, c: Str)
    returns (i: nat)
    requires |routes| == |payloads| && c in Called(routes)
    requires c !in replies || |replies[c]| < |Payloads(routes, payloads, To(c))|
    ensures i < |routes| && routes[i] == To(c) && Table(routes, replies, true)[i].None?
  {
    hide Positions, Payloads, Rank;
    SameLength(routes, payloads, To(c));
    if c !in replies {
      i :| 0 <= i < |routes| && routes[i].To? && routes[i].chain == c;
    } else {
      var n := |Positions(routes, To(c))|;
      PositionSound(routes, To(c), n - 1);
      i := Positions(routes, To(c))[n - 1];
    }
  }

  // The table is full iff every chain with a transaction has answered with enough results.
  lemma TableFullIff(routes: seq<Route>, payloads: seq<Str>, replies: map<Str, seq<TxResult>>)
    requires |routes| == |payloads| && Bad !in routes
    ensures (forall i :: 0 <= i < |routes| ==> Table(routes, replies, true)[i].Some?)
       <==> forall c :: c in Called(routes) ==> c in replies && |Payloads(routes, payloads, To(c))| <= |replies[c]|
  {
    hide Payloads, Rank, Table;
    if forall c :: c in Called(routes) ==> c in replies && |Payloads(routes, payloads, To(c))| <= |replies[c]| {
      forall i | 0 <= i < |routes| ensures Table(routes, replies, true)[i].Some? {
        if routes[i].To? {
          var c := routes[i].chain;
          assert c in Called(routes);
          AllAnswered(routes, payloads, replies, c);
        } else {
          Marked(routes, replies, i);
        }
      }
    } else {
      var c :| c in Called(routes) && !(c in replies && |Payloads(routes, payloads, To(c))| <= |replies[c]|);
      var i := SomeUnanswered(routes, payloads, replies, c);
    }
  }

  lemma Marked(routes: seq<Route>, replies: map<Str, seq<TxResult>>, i: nat)
    requires i < |routes| && routes[i] != Bad && !routes[i].To?
    ensures Table(routes, replies, true)[i] == Some(SKIPPED)
  {
  }

  // The chain answers this block's share with at least one result for each of its transactions.
  predicate Serves(cfg: Config, m: Mux, req: Request, share: seq<Str>, provider: FinalizeApp, apps: Str -> Consumer, c: Str)
  {
    var answer := if c == cfg.providerId then provider(share) else apps(c).finalize(share);
    && (c == cfg.providerId || c in Dispatched(m, req, apps))
    && answer.Some? && |share| <= |answer.value.txResults|
  }

  lemma ServesMeans(cfg: Config, m: Mux, req: Request, share: Str -> seq<Str>, provider: FinalizeApp, apps: Str -> Consumer,
                    c: Str)
    requires provider(share(cfg.providerId)).Some?
    ensures var p := provider(share(cfg.providerId)).value;
      var replies := Results(Replies(m, req, share, apps)[cfg.providerId := p]);
      Serves(cfg, m, req, share(c), provider, apps, c) <==> c in replies && |share(c)| <= |replies[c]|
  {
  }

  /** Every transaction of an answered block has a result iff every chain that is handed transactions
      is sent the block, answers it without an error, and answers with enough results. */
  lemma EveryTxAnsweredIff(cfg: Config, m: Mux, req: Request, provider: FinalizeApp, reply: Option<QueryReply>,
                           apps: Str -> Consumer)
    requires reply.Some? ==> |reply.value.value| <= MAX_INT
    requires FinalizeBlock(cfg, m, req, provider, reply, apps).1.Done?
    ensures var o := FinalizeBlock(cfg, m, req, provider, reply, apps).1;
      var ready, share := Refreshed(cfg, m, req, reply), BlockShares(cfg, m, req);
      (forall i :: 0 <= i < |o.txResults| ==> o.txResults[i].Some?)
      <==> forall c :: c in Called(BlockRoutes(cfg, m, req.txs)) ==> Serves(cfg, ready, req, share(c), provider, apps, c)
  {
    hide FinalizeBlock, Table, Called, BlockRoutes, Serves, Payloads, CombineHashes, Replies, Results,
         QueriedIds, Dispatch, ShouldHalt;
    BlockDone(cfg, m, req, provider, reply, apps);
    var routes := BlockRoutes(cfg, m, req.txs);
    var ready, share := Refreshed(cfg, m, req, reply), BlockShares(cfg, m, req);
    var p := provider(share(cfg.providerId)).value;
    var replies := Results(Replies(ready, req, share, apps)[cfg.providerId := p]);
    assert FinalizeBlock(cfg, m, req, provider, reply, apps).1.txResults == Table(routes, replies, true);
    TableFullIff(routes, PayloadsOf(req.txs), replies);
    forall c ensures Serves(cfg, ready, req, share(c), provider, apps, c) <==> c in replies && |share(c)| <= |replies[c]|
    {
      ServesMeans(cfg, ready, req, share, provider, apps, c);
    }
    assert forall c :: share(c) == Payloads(routes, PayloadsOf(req.txs), To(c));
  }

  // So the transaction of a registered chain that is neither rejected nor active has none.
  lemma InactiveLeftOpen(cfg: Config, m: Mux, req: Request, provider: FinalizeApp, reply: Option<QueryReply>,
                         apps: Str -> Consumer, i: nat, c: Str)
    requires reply.Some? ==> |reply.value.value| <= MAX_INT
    requires FinalizeBlock(cfg, m, req, provider, reply, apps).1.Done? && cfg.providerId !in m.handlers
    requires i < |req.txs| && Addressed(req.txs[i], c) && c in m.handlers && c !in m.rejected
    requires c !in ActiveFor(cfg, m, req, reply)
    ensures var o := FinalizeBlock(cfg, m, req, provider, reply, apps).1; |o.txResults| == |req.txs| && o.txResults[i] == None
  {
    hide FinalizeBlock, CombineHashes, Dispatch, QueriedIds, ShouldHalt, ParseHeader, Payloads;
    BlockDone(cfg, m, req, provider, reply, apps);
    UnsentSilent(Refreshed(cfg, m, req, reply), req, BlockShares(cfg, m, req), apps, c);
  }

  const LONE_CONFIG := Config([80], 0, 0, _ => true)
  const LONE_CHAIN: Str := [65]

  lemma LoneTx()
    ensures ParseHeader(CreateTransactionHeader(LONE_CHAIN)) == Ok((LONE_CHAIN, []))
  {
    HeaderRoundTrip(LONE_CHAIN, []);
    assert CreateTransactionHeader(LONE_CHAIN) + [] == CreateTransactionHeader(LONE_CHAIN);
  }

  lemma LoneBlock(m: Mux, req: Request)
    requires req.txs == [CreateTransactionHeader(LONE_CHAIN)]
    ensures Bad !in BlockRoutes(LONE_CONFIG, m, req.txs) && !ShouldHalt(LONE_CONFIG, req)
  {
    LoneTx();
  }

  /** A first block, of one transaction for a registered chain that is not active: the block is answered,
      and the transaction is left without a result. */
  lemma OneTxLeftOpen() returns (m: Mux, req: Request, provider: FinalizeApp, apps: Str -> Consumer)
    ensures Initial(LONE_CONFIG, Conf(m, Start)) && |req.txs| == 1
    ensures FinalizeBlock(LONE_CONFIG, m, req, provider, None, apps).1.Done?
    ensures FinalizeBlock(LONE_CONFIG, m, req, provider, None, apps).1.txResults == [None]
  {
    hide FinalizeBlock, QueriedIds, ParseHeader;
    m := M.Mux({LONE_CHAIN}, {}, {}, {}, Launch([], []), map[]);
    req := Request(1, 0, [CreateTransactionHeader(LONE_CHAIN)]);
    provider := _ => Some(FinalizeReply([], [], [], [], []));
    apps := _ => Consumer(None, InitApp(None, _ => None), _ => None);
    LoneTx();
    LoneBlock(m, req);
    BlockDone(LONE_CONFIG, m, req, provider, None, apps);
    InactiveLeftOpen(LONE_CONFIG, m, req, provider, None, apps, 0, LONE_CHAIN);
  }
}
