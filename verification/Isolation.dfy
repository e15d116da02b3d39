/**
 Fault isolation: two executions that differ only in how one consumer x behaves. Whatever x answers,
 fails or refuses to initialize, nothing of the others changes, in one block and over whole runs.
 */
module Isolation {
  import opened GoTypes
  import opened ByteOrder
  import opened Routing
  import opened Header
  import opened Mux
  import opened MuxRuns

  /******* The app hash around one chain *******/

  function Below(hashes: map<Str, Str>, x: Str): map<Str, Str>
  {
    map c | c in hashes && Less(c, x) :: hashes[c]
  }

  function Above(hashes: map<Str, Str>, x: Str): map<Str, Str>
  {
    map c | c in hashes && Less(x, c) :: hashes[c]
  }

  function Segment(hashes: map<Str, Str>, x: Str): Str
  {
    if x in hashes then hashes[x] else []
  }

  lemma {:induction false} ConcatAppend(a: seq<Str>, b: seq<Str>, hashes: map<Str, Str>)
    requires (forall c :: c in a ==> c in hashes) && (forall c :: c in b ==> c in hashes)
    ensures ConcatHashes(a + b, hashes) == ConcatHashes(a, hashes) + ConcatHashes(b, hashes)
    decreases |a|
  {
    if a == [] {
      assert a + b == b;
    } else {
      assert (a + b)[1..] == a[1..] + b;
      ConcatAppend(a[1..], b, hashes);
    }
  }

  lemma {:induction false} ConcatAgrees(ids: seq<Str>, h1: map<Str, Str>, h2: map<Str, Str>)
    requires forall c :: c in ids ==> c in h1 && c in h2 && h1[c] == h2[c]
    ensures ConcatHashes(ids, h1) == ConcatHashes(ids, h2)
  {
    if ids != [] {
      ConcatAgrees(ids[1..], h1, h2);
    }
  }

  lemma SortedAppend(a: seq<Str>, b: seq<Str>)
    requires Sorted(a) && Sorted(b) && forall x, y :: x in Elements(a) && y in Elements(b) ==> Less(x, y)
    ensures Sorted(a + b) && Elements(a + b) == Elements(a) + Elements(b)
  {
    var s := a + b;
    forall i, j | 0 <= i < j < |s| ensures Less(s[i], s[j]) {
      if i < |a| <= j {
        assert a[i] in Elements(a) && b[j - |a|] in Elements(b);
      }
    }
  }

  // The sorted keys are the smaller ones, x itself if it is there, and the greater ones.
  lemma KeysAround(ids: set<Str>, x: Str, below: set<Str>, above: set<Str>)
    requires below == set c | c in ids && Less(c, x)
    requires above == set c | c in ids && Less(x, c)
    ensures SortedKeys(ids) == SortedKeys(below) + ((if x in ids then [x] else []) + SortedKeys(above))
  {
    hide SortedKeys, Sorted, Elements, Less;
    var a, mid, b := SortedKeys(below), if x in ids then [x] else [], SortedKeys(above);
    Order(ids, x);
    One(x);
    SortedAppend(mid, b);
    SortedAppend(a, mid + b);
    assert Elements(a + (mid + b)) == ids;
    SortedUnique(SortedKeys(ids), a + (mid + b));
  }

  lemma ConcatOne(hashes: map<Str, Str>, x: Str)
    ensures ConcatHashes(if x in hashes then [x] else [], hashes) == Segment(hashes, x)
  {
    assert [x][1..] == [];
  }

  lemma KeysIn(ids: seq<Str>, keys: set<Str>)
    requires Elements(ids) == keys
    ensures forall c :: c in ids ==> c in keys
  {
    assert forall c :: c in ids ==> c in Elements(ids);
  }

  // The combined hash is the hash of the smaller chains, x's own segment, and that of the greater ones.
  lemma HashSegments(hashes: map<Str, Str>, x: Str)
    ensures CombineHashes(hashes) == CombineHashes(Below(hashes, x)) + Segment(hashes, x) + CombineHashes(Above(hashes, x))
  {
    hide SortedKeys, Sorted, Elements, Less, ConcatHashes, Segment;
    var below, above := Below(hashes, x), Above(hashes, x);
    var a, mid, b := SortedKeys(below.Keys), if x in hashes then [x] else [], SortedKeys(above.Keys);
    KeysAround(hashes.Keys, x, below.Keys, above.Keys);
    KeysIn(a, below.Keys);
    KeysIn(b, above.Keys);
    KeysIn(SortedKeys(hashes.Keys), hashes.Keys);
    ConcatAppend(a, mid + b, hashes);
    ConcatAppend(mid, b, hashes);
    ConcatOne(hashes, x);
    ConcatAgrees(a, below, hashes);
    ConcatAgrees(b, above, hashes);
  }

  lemma One(x: Str)
    ensures Sorted([x]) && Elements([x]) == {x}
    ensures Sorted([]) && Elements([]) == {}
  {
  }

  lemma Order(ids: set<Str>, x: Str)
    ensures forall c :: c in ids ==> c == x || Less(c, x) || Less(x, c)
    ensures !Less(x, x)
    ensures forall a, b :: Less(a, x) && Less(x, b) ==> Less(a, b)
    ensures forall a :: !(Less(a, x) && Less(x, a))
  {
    LessIrreflexive(x);
    forall c | c in ids ensures c == x || Less(c, x) || Less(x, c) {
      LessTotal(c, x);
    }
    forall a, b | Less(a, x) && Less(x, b) ensures Less(a, b) {
      LessTrans(a, x, b);
    }
    forall a ensures !(Less(a, x) && Less(x, a)) {
      if Less(a, x) && Less(x, a) {
        LessTrans(x, a, x);
      }
    }
  }

  /******* Two executions *******/

  // States that agree on who is registered, active and, but for x, initialized.
  ghost predicate SameCore(x: Str, m1: Mux, m2: Mux)
  {
    && m1.handlers == m2.handlers && m1.active == m2.active && m1.launch == m2.launch
    && m1.initialized - {x} == m2.initialized - {x}
  }

  ghost predicate SameRejected(x: Str, m1: Mux, m2: Mux)
  {
    m1.rejected - {x} == m2.rejected - {x}
  }

  // Every chain but x has received the same calls, with the same contents.
  ghost predicate SameCalls(x: Str, m1: Mux, m2: Mux)
  {
    forall c :: c != x ==> Trace(m1, c) == Trace(m2, c)
  }

  // Maps that agree except perhaps at x.
  ghost predicate SameOff<T(!new)>(x: Str, a: map<Str, T>, b: map<Str, T>)
  {
    forall c :: c != x ==> (c in a <==> c in b) && (c in a ==> a[c] == b[c])
  }

  ghost predicate AgreeOff<T(!new)>(x: Str, f: Str -> T, g: Str -> T)
  {
    forall c :: c != x ==> f(c) == g(c)
  }

  // Two routings that differ only in whether transactions addressed to x are skipped.
  ghost predicate RoutesOff(x: Str, txs: seq<Str>, r1: seq<Route>, r2: seq<Route>)
  {
    && |r1| == |r2| == |txs|
    && forall i :: 0 <= i < |txs| ==>
         if Addressed(txs[i], x) then (r1[i] == Skip || r1[i] == To(x)) && (r2[i] == Skip || r2[i] == To(x))
         else r1[i] == r2[i] && r1[i] != To(x)
  }

  lemma MembersOff(x: Str, a: set<Str>, b: set<Str>, c: Str)
    requires a - {x} == b - {x} && c != x
    ensures c in a <==> c in b
  {
    assert c in a <==> c in a - {x};
  }

  lemma BlockRoutesOff(x: Str, cfg: Config, m1: Mux, m2: Mux, txs: seq<Str>)
    requires m1.handlers == m2.handlers && SameRejected(x, m1, m2) && x != cfg.providerId
    ensures RoutesOff(x, txs, BlockRoutes(cfg, m1, txs), BlockRoutes(cfg, m2, txs))
  {
    hide ParseHeader;
    forall i | 0 <= i < |txs| && !Addressed(txs[i], x) && ParseHeader(txs[i]).Ok?
      ensures BlockRoute(cfg, m1, txs[i]) == BlockRoute(cfg, m2, txs[i])
    {
      MembersOff(x, m1.rejected, m2.rejected, ParseHeader(txs[i]).value.0);
    }
  }

  // The requests: every chain but x is handed the same transactions.
  lemma SharesOff(x: Str, txs: seq<Str>, r1: seq<Route>, r2: seq<Route>)
    requires RoutesOff(x, txs, r1, r2)
    ensures |r1| == |r2| == |txs| && AgreeOff(x, Shares(r1, txs), Shares(r2, txs))
  {
    hide Payloads, Positions;
    forall c | c != x ensures Shares(r1, txs)(c) == Shares(r2, txs)(c) {
      SameWaySame(r1, r2, PayloadsOf(txs), To(c));
    }
  }

  // A result depends on x only if the transaction is addressed to it.
  lemma ResultOff(x: Str, txs: seq<Str>, r1: seq<Route>, r2: seq<Route>,
                  a: map<Str, seq<TxResult>>, b: map<Str, seq<TxResult>>, i: nat)
    requires RoutesOff(x, txs, r1, r2) && SameOff(x, a, b) && i < |txs| && !Addressed(txs[i], x)
    ensures ResultAt(r1, a, true, i) == ResultAt(r2, b, true, i)
  {
    hide Positions, Addressed;
    if r1[i].To? {
      SameWaySame(r1[..i], r2[..i], txs[..i], r1[i]);
    }
  }

  lemma DispatchOff(x: Str, m1: Mux, m2: Mux, req: Request, apps1: Str -> Consumer, apps2: Str -> Consumer, c: Str)
    requires SameCore(x, m1, m2) && SameRejected(x, m1, m2) && AgreeOff(x, apps1, apps2) && c != x
    ensures c in m1.initialized <==> c in m2.initialized
    ensures c in Candidates(m1) <==> c in Candidates(m2)
    ensures c in Dispatched(m1, req, apps1) <==> c in Dispatched(m2, req, apps2)
    ensures InitCalls(m1, req, apps1(c), c) == InitCalls(m2, req, apps2(c), c)
  {
    assert apps1(c) == apps2(c);
    MembersOff(x, m1.rejected, m2.rejected, c);
    MembersOff(x, m1.initialized, m2.initialized, c);
  }

  lemma SetsOff(x: Str, a: set<Str>, b: set<Str>)
    requires forall c :: c != x ==> (c in a <==> c in b)
    ensures a - {x} == b - {x}
  {
  }

  lemma DispatchedCore(x: Str, m1: Mux, m2: Mux, req: Request, share1: Str -> seq<Str>, share2: Str -> seq<Str>,
                       apps1: Str -> Consumer, apps2: Str -> Consumer)
    requires SameCore(x, m1, m2) && SameRejected(x, m1, m2) && AgreeOff(x, apps1, apps2)
    ensures SameCore(x, Dispatch(m1, req, share1, apps1), Dispatch(m2, req, share2, apps2))
  {
    hide AddCalls, Dispatched, Candidates, DispatchCalls, AgreeOff;
    var n1, n2 := Dispatch(m1, req, share1, apps1), Dispatch(m2, req, share2, apps2);
    forall c | c != x ensures c in n1.initialized <==> c in n2.initialized {
      DispatchOff(x, m1, m2, req, apps1, apps2, c);
    }
    SetsOff(x, n1.initialized, n2.initialized);
  }

  lemma DispatchedCalls(x: Str, m1: Mux, m2: Mux, req: Request, share1: Str -> seq<Str>, share2: Str -> seq<Str>,
                        apps1: Str -> Consumer, apps2: Str -> Consumer)
    requires SameCore(x, m1, m2) && SameRejected(x, m1, m2) && AgreeOff(x, apps1, apps2) && AgreeOff(x, share1, share2)
    ensures SameNewCalls(x, m1, Dispatch(m1, req, share1, apps1), m2, Dispatch(m2, req, share2, apps2))
  {
    hide Trace, AddCalls, Dispatched, Candidates, InitCalls, SameCore, SameRejected;
    var n1, n2 := Dispatch(m1, req, share1, apps1), Dispatch(m2, req, share2, apps2);
    forall c | c != x ensures SameNews(m1, n1, m2, n2, c) {
      DispatchOff(x, m1, m2, req, apps1, apps2, c);
      assert share1(c) == share2(c);
      TraceStep(m1, n1, Candidates(m1), DispatchCalls(m1, req, share1, apps1), c);
      TraceStep(m2, n2, Candidates(m2), DispatchCalls(m2, req, share2, apps2), c);
      var news := if c in Candidates(m1) then DispatchCalls(m1, req, share1, apps1)(c) else [];
      assert Trace(n1, c) == Trace(m1, c) + news && Trace(n2, c) == Trace(m2, c) + news;
    }
  }

  // From m1 to n1 and from m2 to n2, chain c has received the same calls.
  ghost predicate SameNews(m1: Mux, n1: Mux, m2: Mux, n2: Mux, c: Str)
  {
    exists news :: Trace(n1, c) == Trace(m1, c) + news && Trace(n2, c) == Trace(m2, c) + news
  }

  ghost predicate SameNewCalls(x: Str, m1: Mux, n1: Mux, m2: Mux, n2: Mux)
  {
    forall c :: c != x ==> SameNews(m1, n1, m2, n2, c)
  }

  lemma CallsKept(x: Str, m1: Mux, n1: Mux, m2: Mux, n2: Mux)
    requires SameCalls(x, m1, m2) && SameNewCalls(x, m1, n1, m2, n2)
    ensures SameCalls(x, n1, n2)
  {
    hide Trace;
    forall c | c != x ensures Trace(n1, c) == Trace(n2, c) {
      assert SameNews(m1, n1, m2, n2, c);
    }
  }

  lemma RepliesOff(x: Str, m1: Mux, m2: Mux, req: Request, share1: Str -> seq<Str>, share2: Str -> seq<Str>,
                   apps1: Str -> Consumer, apps2: Str -> Consumer)
    requires SameCore(x, m1, m2) && SameRejected(x, m1, m2) && AgreeOff(x, apps1, apps2) && AgreeOff(x, share1, share2)
    ensures SameOff(x, Replies(m1, req, share1, apps1), Replies(m2, req, share2, apps2))
  {
    hide Dispatched, Candidates, InitCalls, SameCore, SameRejected;
    var a, b := Replies(m1, req, share1, apps1), Replies(m2, req, share2, apps2);
    forall c | c != x ensures (c in a <==> c in b) && (c in a ==> a[c] == b[c]) {
      DispatchOff(x, m1, m2, req, apps1, apps2, c);
      assert apps1(c) == apps2(c) && share1(c) == share2(c);
    }
  }

  // The segments of two responses whose replies agree off x.
  lemma HashesOff(x: Str, h1: map<Str, Str>, h2: map<Str, Str>)
    requires SameOff(x, h1, h2)
    ensures Below(h1, x) == Below(h2, x) && Above(h1, x) == Above(h2, x)
  {
    LessIrreflexive(x);
  }

  // Two responses that differ only where x has a say: its own results, and its own segment of the
  // app hash, which is s1 in the one and s2 in the other.
  ghost predicate IsolatedResponse(x: Str, txs: seq<Str>, o1: FinalizeOutcome, s1: Str, o2: FinalizeOutcome, s2: Str)
  {
    && o1.Done? && o2.Done?
    && |o1.txResults| == |o2.txResults| == |txs|
    && (forall i :: 0 <= i < |txs| && !Addressed(txs[i], x) ==> o1.txResults[i] == o2.txResults[i])
    && (exists before, after :: Around(o1.appHash, before, s1, after) && Around(o2.appHash, before, s2, after))
    && o1.validatorUpdates == o2.validatorUpdates
    && o1.consensusParamUpdates == o2.consensusParamUpdates
  }

  predicate Around(hash: Str, before: Str, segment: Str, after: Str)
  {
    hash == before + segment + after
  }

  lemma PutOff<T(!new)>(x: Str, id: Str, p: T, a: map<Str, T>, b: map<Str, T>)
    requires SameOff(x, a, b)
    ensures SameOff(x, a[id := p], b[id := p])
  {
  }

  lemma ResultsOff(x: Str, a: map<Str, FinalizeReply>, b: map<Str, FinalizeReply>)
    requires SameOff(x, a, b)
    ensures SameOff(x, Results(a), Results(b))
  {
    forall c | c != x ensures (c in Results(a) <==> c in Results(b)) && (c in Results(a) ==> Results(a)[c] == Results(b)[c]) {
      assert c in a <==> c in b;
    }
  }

  lemma AnswersOff(x: Str, a: map<Str, FinalizeReply>, b: map<Str, FinalizeReply>)
    requires SameOff(x, a, b)
    ensures SameOff(x, Hashes(a), Hashes(b))
  {
    forall c | c != x ensures (c in Hashes(a) <==> c in Hashes(b)) && (c in Hashes(a) ==> Hashes(a)[c] == Hashes(b)[c]) {
      assert c in a <==> c in b;
    }
  }

  lemma SegmentOff(x: Str, id: Str, p: FinalizeReply, a: map<Str, FinalizeReply>)
    requires x != id
    ensures Segment(Hashes(a[id := p]), x) == Segment(Hashes(a), x)
  {
  }

  lemma AppHashOff(x: Str, h1: map<Str, Str>, h2: map<Str, Str>)
    requires SameOff(x, h1, h2)
    ensures exists before, after ::
              Around(CombineHashes(h1), before, Segment(h1, x), after) && Around(CombineHashes(h2), before, Segment(h2, x), after)
  {
    hide CombineHashes, Below, Above, Segment, SameOff;
    HashesOff(x, h1, h2);
    HashSegments(h1, x);
    HashSegments(h2, x);
    var before, after := CombineHashes(Below(h1, x)), CombineHashes(Above(h1, x));
    assert Around(CombineHashes(h1), before, Segment(h1, x), after) && Around(CombineHashes(h2), before, Segment(h2, x), after);
  }

  // The responses built from replies that agree off x.
  lemma ResponsesOff(x: Str, cfg: Config, txs: seq<Str>, r1: seq<Route>, r2: seq<Route>, p: FinalizeReply,
                     a: map<Str, FinalizeReply>, b: map<Str, FinalizeReply>)
    requires RoutesOff(x, txs, r1, r2) && SameOff(x, a, b) && x != cfg.providerId
    ensures IsolatedResponse(x, txs, Respond(cfg, r1, p, a), Segment(Hashes(a), x),
                                     Respond(cfg, r2, p, b), Segment(Hashes(b), x))
  {
    hide CombineHashes, Segment, Around, ResultAt, RoutesOff, Addressed, SameOff, Results, Hashes;
    SameCount(x, txs, r1, r2);
    var all1, all2 := a[cfg.providerId := p], b[cfg.providerId := p];
    PutOff(x, cfg.providerId, p, a, b);
    ResultsOff(x, all1, all2);
    AnswersOff(x, all1, all2);
    SegmentOff(x, cfg.providerId, p, a);
    SegmentOff(x, cfg.providerId, p, b);
    AppHashOff(x, Hashes(all1), Hashes(all2));
    forall i | 0 <= i < |txs| && !Addressed(txs[i], x)
      ensures ResultAt(r1, Results(all1), true, i) == ResultAt(r2, Results(all2), true, i)
    {
      ResultOff(x, txs, r1, r2, Results(all1), Results(all2), i);
    }
  }

  lemma SameCount(x: Str, txs: seq<Str>, r1: seq<Route>, r2: seq<Route>)
    requires RoutesOff(x, txs, r1, r2)
    ensures |r1| == |r2| == |txs|
    ensures Bad in r1 <==> Bad in r2
    ensures Bad in r1 ==> FirstBad(r1) == FirstBad(r2)
  {
    hide FirstBad;
    SameBad(r1, r2);
  }

  /** Fault isolation of one block, from states that agree but for x. The two calls fail alike or both
      succeed, with responses that differ only at the transactions addressed to x and in x's segment
      of the app hash. Every other chain is handed the same transactions, receives the same calls and
      gives the same reply; the states go on agreeing but for x. */
  lemma FaultIsolation(x: Str, cfg: Config, m1: Mux, m2: Mux, req: Request, provider: FinalizeApp, reply: Option<QueryReply>,
                       apps1: Str -> Consumer, apps2: Str -> Consumer)
    requires reply.Some? ==> |reply.value.value| <= MAX_INT
    requires x != cfg.providerId && SameCore(x, m1, m2) && SameRejected(x, m1, m2) && AgreeOff(x, apps1, apps2)
    ensures var (n1, o1) := FinalizeBlock(cfg, m1, req, provider, reply, apps1);
      var (n2, o2) := FinalizeBlock(cfg, m2, req, provider, reply, apps2);
      var share1, share2 := BlockShares(cfg, m1, req), BlockShares(cfg, m2, req);
      var replies1 := Replies(Refreshed(cfg, m1, req, reply), req, share1, apps1);
      var replies2 := Replies(Refreshed(cfg, m2, req, reply), req, share2, apps2);
      && SameCore(x, n1, n2) && SameRejected(x, n1, n2)
      && AgreeOff(x, share1, share2) && SameNewCalls(x, m1, n1, m2, n2)
      && (!o1.Done? ==> o1 == o2)
      && (o1.Done? ==> SameOff(x, replies1, replies2)
                       && IsolatedResponse(x, req.txs, o1, Segment(Hashes(replies1), x), o2, Segment(Hashes(replies2), x)))
  {
    hide Trace, Replies, Respond, QueriedIds, Shares, Dispatch, FirstBad, IsolatedResponse, SameOff, AgreeOff, RoutesOff,
         Hashes, Segment, ShouldHalt, BlockRoutes, SameNewCalls;
    var r1, r2 := BlockRoutes(cfg, m1, req.txs), BlockRoutes(cfg, m2, req.txs);
    BlockRoutesOff(x, cfg, m1, m2, req.txs);
    SameCount(x, req.txs, r1, r2);
    SharesOff(x, req.txs, r1, r2);
    var share1, share2 := BlockShares(cfg, m1, req), BlockShares(cfg, m2, req);
    ShareOff(x, share1, share2, cfg.providerId);
    BlockDone(cfg, m1, req, provider, reply, apps1);
    BlockDone(cfg, m2, req, provider, reply, apps2);
    BlockOutcome(cfg, m1, req, provider, reply, apps1);
    BlockOutcome(cfg, m2, req, provider, reply, apps2);
    if FinalizeBlock(cfg, m1, req, provider, reply, apps1).1.Done? {
      var ready1, ready2 := Refreshed(cfg, m1, req, reply), Refreshed(cfg, m2, req, reply);
      assert SameCore(x, ready1, ready2);
      RepliesOff(x, ready1, ready2, req, share1, share2, apps1, apps2);
      ResponsesOff(x, cfg, req.txs, r1, r2, provider(share1(cfg.providerId)).value,
                   Replies(ready1, req, share1, apps1), Replies(ready2, req, share2, apps2));
      DispatchedCore(x, ready1, ready2, req, share1, share2, apps1, apps2);
      DispatchedCalls(x, ready1, ready2, req, share1, share2, apps1, apps2);
      FromRefreshed(x, m1, ready1, Dispatch(ready1, req, share1, apps1), m2, ready2, Dispatch(ready2, req, share2, apps2));
      SameRejects(ready1, req, share1, apps1);
      SameRejects(ready2, req, share2, apps2);
    } else {
      NoNews(x, m1, m2);
    }
  }

  lemma ShareOff(x: Str, share1: Str -> seq<Str>, share2: Str -> seq<Str>, c: Str)
    requires AgreeOff(x, share1, share2) && c != x
    ensures share1(c) == share2(c)
  {
  }

  lemma FromRefreshed(x: Str, m1: Mux, ready1: Mux, n1: Mux, m2: Mux, ready2: Mux, n2: Mux)
    requires m1.trace == ready1.trace && m2.trace == ready2.trace && SameNewCalls(x, ready1, n1, ready2, n2)
    ensures SameNewCalls(x, m1, n1, m2, n2)
  {
    hide Trace;
    SameTraces(m1, ready1);
    SameTraces(m2, ready2);
    forall c | c != x ensures SameNews(m1, n1, m2, n2, c) {
      assert SameNews(ready1, n1, ready2, n2, c);
    }
  }

  lemma SameRejects(m: Mux, req: Request, share: Str -> seq<Str>, apps: Str -> Consumer)
    ensures Dispatch(m, req, share, apps).rejected == m.rejected
  {
  }

  lemma NoNews(x: Str, m1: Mux, m2: Mux)
    ensures SameNewCalls(x, m1, m1, m2, m2)
  {
    hide Trace;
    forall c ensures SameNews(m1, m1, m2, m2, c) {
      assert Trace(m1, c) + [] == Trace(m1, c) && Trace(m2, c) + [] == Trace(m2, c);
    }
  }
}
