/**
 Who is handed what: the transactions of a block or a proposal and the lists the chains receive, stated on
 the bytes of the transactions and the positions they stand at.
 */
module Demux {
  import opened GoTypes
  import opened Header
  import opened Routing
  import opened Mux
  import M = Mux
  import opened MuxRuns

  /******* The transactions of one chain *******/

  // The transaction is "ICS:", the chain's ID, which has no colon, a colon, and the payload.
  predicate Sent(tx: Str, c: Str, payload: Str)
  {
    58 !in c && tx == [73, 67, 83, 58] + c + [58] + payload
  }

  ghost predicate Parses(tx: Str)
  {
    exists c, s :: Sent(tx, c, s)
  }

  ghost predicate IsFor(tx: Str, c: Str)
  {
    exists s :: Sent(tx, c, s)
  }

  ghost predicate AllParse(txs: seq<Str>)
  {
    forall i :: 0 <= i < |txs| ==> Parses(txs[i])
  }

  // At the strictly increasing positions ps stand all the transactions for c, and handed is their payloads.
  ghost predicate Picks(txs: seq<Str>, c: Str, handed: seq<Str>, ps: seq<nat>)
  {
    && |handed| == |ps|
    && (forall j :: 0 <= j < |ps| ==> ps[j] < |txs| && Sent(txs[ps[j]], c, handed[j]))
    && (forall i, j :: 0 <= i < j < |ps| ==> ps[i] < ps[j])
    && (forall p :: 0 <= p < |txs| && IsFor(txs[p], c) ==> p in ps)
  }

  // Exactly the transactions for c, in order, without their headers.
  ghost predicate Handed(txs: seq<Str>, c: Str, handed: seq<Str>)
  {
    exists ps :: Picks(txs, c, handed, ps)
  }

  lemma SentIff(tx: Str, c: Str, payload: Str)
    ensures Sent(tx, c, payload) <==> ParseHeader(tx) == Ok((c, payload))
  {
    ParseHeaderIff(tx, c, payload);
  }

  lemma IsForIff(tx: Str, c: Str)
    ensures IsFor(tx, c) <==> Addressed(tx, c)
    ensures IsFor(tx, c) ==> Sent(tx, c, PayloadOf(tx))
  {
    hide ParseHeader, Sent;
    forall s ensures Sent(tx, c, s) <==> ParseHeader(tx) == Ok((c, s)) {
      SentIff(tx, c, s);
    }
  }

  lemma ParsesIff(tx: Str)
    ensures Parses(tx) <==> ParseHeader(tx).Ok?
  {
    hide ParseHeader, Sent;
    forall c, s ensures Sent(tx, c, s) <==> ParseHeader(tx) == Ok((c, s)) {
      SentIff(tx, c, s);
    }
    if ParseHeader(tx).Ok? {
      assert Sent(tx, ParseHeader(tx).value.0, ParseHeader(tx).value.1);
    }
  }

  lemma FirstIn(ps: seq<nat>)
    ensures ps != [] ==> ps[0] in ps
  {
  }

  lemma {:induction false} SameElements(ps: seq<nat>, qs: seq<nat>)
    requires forall i, j :: 0 <= i < j < |ps| ==> ps[i] < ps[j]
    requires forall i, j :: 0 <= i < j < |qs| ==> qs[i] < qs[j]
    requires forall p :: p in ps <==> p in qs
    ensures ps == qs
    decreases |ps|
  {
    if ps == [] || qs == [] {
      FirstIn(ps);
      FirstIn(qs);
    } else {
      var m, n := |ps| - 1, |qs| - 1;
      assert ps[m] in qs && qs[n] in ps;
      assert forall p :: p in ps[..m] <==> p in ps && p != ps[m];
      assert forall q :: q in qs[..n] <==> q in qs && q != qs[n];
      SameElements(ps[..m], qs[..n]);
      assert ps == ps[..m] + [ps[m]] && qs == qs[..n] + [qs[n]];
    }
  }

  lemma PickedFor(txs: seq<Str>, c: Str, a: seq<Str>, ps: seq<nat>, p: nat)
    requires Picks(txs, c, a, ps) && p in ps
    ensures p < |txs| && IsFor(txs[p], c)
  {
    hide Sent;
    var j :| 0 <= j < |ps| && ps[j] == p;
    assert Sent(txs[p], c, a[j]);
  }

  // The list a chain is handed, and the positions it comes from, are determined by the transactions.
  lemma PicksOnce(txs: seq<Str>, c: Str, a: seq<Str>, ps: seq<nat>, b: seq<Str>, qs: seq<nat>)
    requires Picks(txs, c, a, ps) && Picks(txs, c, b, qs)
    ensures ps == qs && a == b
  {
    hide Sent;
    forall p ensures p in ps <==> p in qs {
      if p in ps {
        PickedFor(txs, c, a, ps, p);
      }
      if p in qs {
        PickedFor(txs, c, b, qs, p);
      }
    }
    SameElements(ps, qs);
    forall j | 0 <= j < |ps| ensures a[j] == b[j] {
      SentIff(txs[ps[j]], c, a[j]);
      SentIff(txs[ps[j]], c, b[j]);
    }
  }

  // A routing that sends c exactly its own transactions.
  ghost predicate Serves(routes: seq<Route>, txs: seq<Str>, c: Str)
  {
    && |routes| == |txs|
    && forall i :: 0 <= i < |txs| ==> (routes[i] == To(c) <==> Addressed(txs[i], c))
  }

  lemma ServedPicks(routes: seq<Route>, txs: seq<Str>, c: Str)
    requires Serves(routes, txs, c)
    ensures Picks(txs, c, Shares(routes, txs)(c), Positions(routes, To(c)))
  {
    hide Addressed, Positions, Payloads, Rank, Sent, PayloadOf, IsFor;
    var ps, handed := Positions(routes, To(c)), Shares(routes, txs)(c);
    SameLength(routes, PayloadsOf(txs), To(c));
    forall j | 0 <= j < |ps| ensures ps[j] < |txs| && Sent(txs[ps[j]], c, handed[j]) {
      PositionSound(routes, To(c), j);
      Aligned(routes, PayloadsOf(txs), To(c), j);
      IsForIff(txs[ps[j]], c);
    }
    forall i, j | 0 <= i < j < |ps| ensures ps[i] < ps[j] {
      PositionSound(routes, To(c), j);
    }
    forall p | 0 <= p < |txs| && IsFor(txs[p], c) ensures p in ps {
      IsForIff(txs[p], c);
      OneOwner(routes, To(c), p);
    }
  }

  // A routing that sends c nothing.
  lemma NothingServed(routes: seq<Route>, txs: seq<Str>, c: Str)
    requires |routes| == |txs| && forall i :: 0 <= i < |txs| ==> routes[i] != To(c)
    ensures Positions(routes, To(c)) == [] && Shares(routes, txs)(c) == []
  {
    NothingFor(routes, PayloadsOf(txs), c);
  }

  /******* Blocks *******/

  // The chain is handed its transactions of a block: not rejected, and the provider or registered.
  predicate Takes(cfg: Config, m: Mux, c: Str)
  {
    c !in m.rejected && (c == cfg.providerId || c in m.handlers)
  }

  ghost predicate BlockPicks(cfg: Config, m: Mux, txs: seq<Str>, c: Str, handed: seq<Str>, ps: seq<nat>)
  {
    if Takes(cfg, m, c) then Picks(txs, c, handed, ps) else handed == [] && ps == []
  }

  ghost predicate BlockHands(cfg: Config, m: Mux, txs: seq<Str>, c: Str, handed: seq<Str>)
  {
    exists ps :: BlockPicks(cfg, m, txs, c, handed, ps)
  }

  lemma BlockRouteFor(cfg: Config, m: Mux, txs: seq<Str>, c: Str)
    ensures Takes(cfg, m, c) ==> Serves(BlockRoutes(cfg, m, txs), txs, c)
    ensures !Takes(cfg, m, c) ==> forall i :: 0 <= i < |txs| ==> BlockRoutes(cfg, m, txs)[i] != To(c)
  {
    hide ParseHeader;
  }

  // What FinalizeBlock computes is what the transactions say, and nothing else is.
  lemma BlockShareIff(cfg: Config, m: Mux, req: Request, c: Str, handed: seq<Str>, ps: seq<nat>)
    ensures BlockPicks(cfg, m, req.txs, c, handed, ps) <==>
              handed == BlockShares(cfg, m, req)(c) && ps == Positions(BlockRoutes(cfg, m, req.txs), To(c))
  {
    hide Positions, Shares, Serves, Picks, Takes, BlockRoutes;
    var routes := BlockRoutes(cfg, m, req.txs);
    BlockRouteFor(cfg, m, req.txs, c);
    if Takes(cfg, m, c) {
      ServedPicks(routes, req.txs, c);
      if Picks(req.txs, c, handed, ps) {
        PicksOnce(req.txs, c, handed, ps, Shares(routes, req.txs)(c), Positions(routes, To(c)));
      }
    } else {
      NothingServed(routes, req.txs, c);
    }
  }

  lemma BlockHandsIff(cfg: Config, m: Mux, req: Request, c: Str, handed: seq<Str>)
    ensures BlockHands(cfg, m, req.txs, c, handed) <==> handed == BlockShares(cfg, m, req)(c)
  {
    hide BlockPicks, BlockShares, Positions;
    forall ps ensures BlockPicks(cfg, m, req.txs, c, handed, ps) <==>
                        handed == BlockShares(cfg, m, req)(c) && ps == Positions(BlockRoutes(cfg, m, req.txs), To(c)) {
      BlockShareIff(cfg, m, req, c, handed, ps);
    }
    if handed == BlockShares(cfg, m, req)(c) {
      assert BlockPicks(cfg, m, req.txs, c, handed, Positions(BlockRoutes(cfg, m, req.txs), To(c)));
    }
  }

  // The index lists of a block: a chain's own, the skipped ones, and whether the block is refused.
  lemma BlockIndices(cfg: Config, m: Mux, txs: seq<Str>, i: nat)
    requires i < |txs|
    ensures var routes := BlockRoutes(cfg, m, txs);
      && (forall c :: i in Positions(routes, To(c)) <==> IsFor(txs[i], c) && Takes(cfg, m, c))
      && (i in Positions(routes, Skip) <==> Parses(txs[i]) && forall c :: i !in Positions(routes, To(c)))
      && (Bad in routes <==> !AllParse(txs))
  {
    hide ParseHeader, Positions, IsFor, Parses;
    var routes := BlockRoutes(cfg, m, txs);
    forall c ensures i in Positions(routes, To(c)) <==> IsFor(txs[i], c) && Takes(cfg, m, c) {
      OneOwner(routes, To(c), i);
      IsForIff(txs[i], c);
    }
    OneOwner(routes, Skip, i);
    ParsesIff(txs[i]);
    if routes[i].To? {
      OneOwner(routes, routes[i], i);
    }
    forall c ensures i in Positions(routes, To(c)) <==> routes[i] == To(c) {
      OneOwner(routes, To(c), i);
    }
    BlockBad(cfg, m, txs);
  }

  lemma BlockBad(cfg: Config, m: Mux, txs: seq<Str>)
    ensures Bad in BlockRoutes(cfg, m, txs) <==> !AllParse(txs)
    ensures forall i :: 0 <= i < |txs| ==> (BlockRoutes(cfg, m, txs)[i] == Bad <==> !Parses(txs[i]))
  {
    hide ParseHeader, Parses;
    var routes := BlockRoutes(cfg, m, txs);
    forall i | 0 <= i < |txs| ensures routes[i] == Bad <==> !Parses(txs[i]) {
      ParsesIff(txs[i]);
    }
  }

  /******* Proposals *******/

  // The chain is asked about its transactions of a proposal: the provider, or registered and initialized.
  predicate Asks(cfg: Config, m: Mux, c: Str)
  {
    c == cfg.providerId || (c in m.handlers && c in m.initialized)
  }

  ghost predicate AskedAbout(cfg: Config, m: Mux, txs: seq<Str>, c: Str)
  {
    Asks(cfg, m, c) && exists i :: 0 <= i < |txs| && IsFor(txs[i], c)
  }

  lemma ProposalRouteFor(cfg: Config, m: Mux, txs: seq<Str>, c: Str)
    ensures Asks(cfg, m, c) ==> Serves(ProposalRoutes(cfg, m, txs), txs, c)
    ensures !Asks(cfg, m, c) ==> forall i :: 0 <= i < |txs| ==> ProposalRoutes(cfg, m, txs)[i] != To(c)
  {
    hide ParseHeader;
  }

  // The chains that are asked: those with a transaction, if they are the provider or ready.
  lemma CalledIff(cfg: Config, m: Mux, txs: seq<Str>, c: Str)
    ensures c in Called(ProposalRoutes(cfg, m, txs)) <==> AskedAbout(cfg, m, txs, c)
  {
    hide Addressed, ProposalRoutes, Serves, IsFor;
    var routes := ProposalRoutes(cfg, m, txs);
    ProposalRouteFor(cfg, m, txs, c);
    ServedCalled(routes, txs, c);
    forall i | 0 <= i < |txs| ensures IsFor(txs[i], c) <==> Addressed(txs[i], c) {
      IsForIff(txs[i], c);
    }
  }

  lemma ServedCalled(routes: seq<Route>, txs: seq<Str>, c: Str)
    requires |routes| == |txs|
    ensures c in Called(routes) <==> exists i :: 0 <= i < |txs| && routes[i] == To(c)
    ensures Serves(routes, txs, c) ==> (c in Called(routes) <==> exists i :: 0 <= i < |txs| && Addressed(txs[i], c))
  {
    hide Addressed;
    if c in Called(routes) {
      var i :| 0 <= i < |routes| && routes[i].To? && routes[i].chain == c;
      assert routes[i] == To(c);
    }
  }

  lemma ProposalBad(cfg: Config, m: Mux, txs: seq<Str>)
    ensures Bad in ProposalRoutes(cfg, m, txs) <==> !AllParse(txs)
  {
    hide ParseHeader, Parses;
    var routes := ProposalRoutes(cfg, m, txs);
    forall i | 0 <= i < |txs| ensures routes[i] == Bad <==> !Parses(txs[i]) {
      ParsesIff(txs[i]);
    }
  }

  lemma ProposalShareIff(cfg: Config, m: Mux, txs: seq<Str>, c: Str, handed: seq<Str>)
    requires Asks(cfg, m, c)
    ensures Handed(txs, c, handed) <==> handed == Shares(ProposalRoutes(cfg, m, txs), txs)(c)
  {
    hide Positions, Shares, Serves, Picks, ProposalRoutes;
    var routes := ProposalRoutes(cfg, m, txs);
    ProposalRouteFor(cfg, m, txs, c);
    ServedPicks(routes, txs, c);
    if ps :| Picks(txs, c, handed, ps) {
      PicksOnce(txs, c, handed, ps, Shares(routes, txs)(c), Positions(routes, To(c)));
    }
  }

  // Chain c, asked about its transactions, gives this answer.
  ghost predicate Says(cfg: Config, m: Mux, txs: seq<Str>, judges: Str -> Judge, c: Str, answer: Option<int>)
  {
    AskedAbout(cfg, m, txs, c) && exists handed :: Handed(txs, c, handed) && judges(c)(handed) == answer
  }

  lemma SaysIff(cfg: Config, m: Mux, txs: seq<Str>, judges: Str -> Judge, c: Str, answer: Option<int>)
    ensures var routes := ProposalRoutes(cfg, m, txs);
      Says(cfg, m, txs, judges, c, answer) <==> c in Called(routes) && Answer(routes, txs, judges, c) == answer
  {
    hide Called, Shares, Handed, AskedAbout, ProposalRoutes;
    CalledIff(cfg, m, txs, c);
    if AskedAbout(cfg, m, txs, c) {
      AskedAsks(cfg, m, txs, c);
      forall handed ensures Handed(txs, c, handed) <==> handed == Shares(ProposalRoutes(cfg, m, txs), txs)(c) {
        ProposalShareIff(cfg, m, txs, c, handed);
      }
    }
  }

  lemma AskedAsks(cfg: Config, m: Mux, txs: seq<Str>, c: Str)
    requires AskedAbout(cfg, m, txs, c)
    ensures Asks(cfg, m, c)
  {
  }

  /** Every outcome of a proposal. One with a header that does not parse is rejected (2) and changes nothing.
      Any other is accepted (1) iff every chain asked answers without an error and the provider, if asked,
      answers 1. Otherwise it fails only if a chain errs, and a status is the provider's, other than 1. */
  lemma ProposalVerdict(cfg: Config, m: Mux, txs: seq<Str>, judges: Str -> Judge, m': Mux, v: Verdict)
    requires M.ProcessProposal(cfg, m, txs, judges, m', v)
    ensures !AllParse(txs) ==> v == Status(2) && m' == m
    ensures AllParse(txs) ==>
              (v == Status(1) <==> && (forall c :: !Says(cfg, m, txs, judges, c, None))
                                   && (forall s :: Says(cfg, m, txs, judges, cfg.providerId, Some(s)) ==> s == 1))
    ensures AllParse(txs) && v == Failed ==> exists c :: Says(cfg, m, txs, judges, c, None)
    ensures AllParse(txs) && v.Status? && v.status != 1 ==> Says(cfg, m, txs, judges, cfg.providerId, Some(v.status))
  {
    hide Called, Answer, Says, AllParse, ProposalRoutes, AddCalls, Refusers, Approved;
    ProposalBad(cfg, m, txs);
    if AllParse(txs) {
      ApprovedIff(cfg, m, txs, judges);
      ErrorSaid(cfg, m, txs, judges);
      if v.Status? {
        SaysIff(cfg, m, txs, judges, cfg.providerId, Some(v.status));
      }
    }
  }

  lemma ErrorSaid(cfg: Config, m: Mux, txs: seq<Str>, judges: Str -> Judge)
    ensures var routes := ProposalRoutes(cfg, m, txs);
      (exists c :: c in Called(routes) && Answer(routes, txs, judges, c).None?) <==> exists c :: Says(cfg, m, txs, judges, c, None)
  {
    hide Called, Answer, Says, ProposalRoutes;
    var routes := ProposalRoutes(cfg, m, txs);
    if c :| c in Called(routes) && Answer(routes, txs, judges, c).None? {
      SaysIff(cfg, m, txs, judges, c, None);
    }
    if c :| Says(cfg, m, txs, judges, c, None) {
      SaysIff(cfg, m, txs, judges, c, None);
    }
  }

  lemma ApprovedIff(cfg: Config, m: Mux, txs: seq<Str>, judges: Str -> Judge)
    ensures Approved(cfg, ProposalRoutes(cfg, m, txs), txs, judges) <==>
              && (forall c :: !Says(cfg, m, txs, judges, c, None))
              && (forall s :: Says(cfg, m, txs, judges, cfg.providerId, Some(s)) ==> s == 1)
  {
    hide Called, Answer, Says, ProposalRoutes;
    var routes, id := ProposalRoutes(cfg, m, txs), cfg.providerId;
    forall c, a ensures Says(cfg, m, txs, judges, c, a) <==> c in Called(routes) && Answer(routes, txs, judges, c) == a {
      SaysIff(cfg, m, txs, judges, c, a);
    }
    if Approved(cfg, routes, txs, judges) {
      assert forall c :: !Says(cfg, m, txs, judges, c, None);
    } else if c :| c in Called(routes) && Answer(routes, txs, judges, c).None? {
      assert Says(cfg, m, txs, judges, c, None);
    } else {
      var answer := Answer(routes, txs, judges, id);
      assert id in Called(routes) && answer.Some? && answer != Some(1);
      var s := answer.value;
      assert s != 1 && Says(cfg, m, txs, judges, id, Some(s));
    }
  }

  /** The calls and the rejected set of a proposal that parses: each consumer that is asked gets one call,
      with exactly its transactions without their headers, the others none; who is rejected was asked and
      answered a status other than 1, and after acceptance all who did are. */
  lemma ProposalEffect(cfg: Config, m: Mux, txs: seq<Str>, judges: Str -> Judge, m': Mux, v: Verdict, c: Str)
    requires M.ProcessProposal(cfg, m, txs, judges, m', v) && AllParse(txs) && c != cfg.providerId
    ensures AskedAbout(cfg, m, txs, c) ==>
              exists handed :: Handed(txs, c, handed) && Trace(m', c) == Trace(m, c) + [ProcessCall(handed)]
    ensures !AskedAbout(cfg, m, txs, c) ==> Trace(m', c) == Trace(m, c)
    ensures c in m'.rejected ==> exists s :: s != 1 && Says(cfg, m, txs, judges, c, Some(s))
    ensures v == Status(1) ==> (c in m'.rejected <==> exists s :: s != 1 && Says(cfg, m, txs, judges, c, Some(s)))
    ensures m'.handlers == m.handlers && m'.initialized == m.initialized && m'.active == m.active && m'.launch == m.launch
    ensures cfg.providerId !in m'.rejected
  {
    hide Called, Answer, Says, AllParse, ProposalRoutes, AddCalls, Shares, Handed, AskedAbout, Trace;
    var routes := ProposalRoutes(cfg, m, txs);
    ProposalBad(cfg, m, txs);
    CalledIff(cfg, m, txs, c);
    TraceStep(m, m', Called(routes) - {cfg.providerId}, ProcessCalls(Shares(routes, txs)), c);
    if AskedAbout(cfg, m, txs, c) {
      AskedAsks(cfg, m, txs, c);
      ProposalShareIff(cfg, m, txs, c, Shares(routes, txs)(c));
    }
    forall a ensures Says(cfg, m, txs, judges, c, a) <==> c in Called(routes) && Answer(routes, txs, judges, c) == a {
      SaysIff(cfg, m, txs, judges, c, a);
    }
    RefuserIff(cfg, routes, txs, judges, c);
    RefuserIff(cfg, routes, txs, judges, cfg.providerId);
    assert v == Status(1) ==> Approved(cfg, routes, txs, judges);
  }

  lemma RefuserIff(cfg: Config, routes: seq<Route>, txs: seq<Str>, judges: Str -> Judge, c: Str)
    requires |routes| == |txs|
    ensures c in Refusers(cfg, routes, txs, judges) <==>
              c in Called(routes) && c != cfg.providerId && exists s :: s != 1 && Answer(routes, txs, judges, c) == Some(s)
  {
    hide Called, Answer;
  }
}
