/**
 The outcomes of a proposal and the orders of arrival: every order leads to an outcome Mux.ProcessProposal
 allows, and every outcome it allows comes from some order.
 */
module Tallies {
  import opened GoTypes
  import opened ByteOrder
  import opened Routing
  import opened Mux
  import M = Mux

  // A chain whose result lets the loop go on.
  predicate Quiet(cfg: Config, answers: Str -> Option<int>, c: Str)
  {
    answers(c).Some? && (c == cfg.providerId ==> answers(c) == Some(ACCEPT))
  }

  predicate Refuses(cfg: Config, answers: Str -> Option<int>, c: Str)
  {
    c != cfg.providerId && answers(c).Some? && answers(c).value != ACCEPT
  }

  function Noted(cfg: Config, answers: Str -> Option<int>, order: seq<Str>): set<Str>
  {
    set c | c in order && Refuses(cfg, answers, c)
  }

  lemma NotedCons(cfg: Config, answers: Str -> Option<int>, order: seq<Str>)
    requires order != []
    ensures Noted(cfg, answers, order)
         == (if Refuses(cfg, answers, order[0]) then {order[0]} else {}) + Noted(cfg, answers, order[1..])
  {
    assert forall c :: c in order <==> c == order[0] || c in order[1..];
  }

  // Past chains that let it go on, the loop has noted those of them that refuse.
  lemma {:induction false} TallyPast(cfg: Config, answers: Str -> Option<int>, a: seq<Str>, b: seq<Str>, noted: set<Str>)
    requires forall i :: 0 <= i < |a| ==> Quiet(cfg, answers, a[i])
    ensures Tally(cfg, answers, a + b, noted) == Tally(cfg, answers, b, noted + Noted(cfg, answers, a))
    decreases |a|
  {
    hide Noted;
    if a == [] {
      assert a + b == b;
      assert Noted(cfg, answers, []) == {} by { NobodyNoted(cfg, answers); }
      assert noted + {} == noted;
    } else {
      assert (a + b)[0] == a[0] && (a + b)[1..] == a[1..] + b;
      NotedCons(cfg, answers, a);
      var more := if Refuses(cfg, answers, a[0]) then {a[0]} else {};
      assert Quiet(cfg, answers, a[0]);
      TallyPast(cfg, answers, a[1..], b, noted + more);
      assert noted + more + Noted(cfg, answers, a[1..]) == noted + (more + Noted(cfg, answers, a[1..]));
      assert noted + {} == noted;
    }
  }

  lemma NobodyNoted(cfg: Config, answers: Str -> Option<int>)
    ensures Noted(cfg, answers, []) == {}
  {
  }

  // Where the loop stops: nowhere, or at the first chain that does not let it go on.
  lemma {:induction false} FirstLoud(cfg: Config, answers: Str -> Option<int>, order: seq<Str>) returns (k: nat)
    ensures k <= |order| && (forall i :: 0 <= i < k ==> Quiet(cfg, answers, order[i]))
    ensures k < |order| ==> !Quiet(cfg, answers, order[k])
  {
    if order == [] || !Quiet(cfg, answers, order[0]) {
      return 0;
    }
    k := FirstLoud(cfg, answers, order[1..]);
    assert forall i :: 0 <= i < k ==> Quiet(cfg, answers, order[1..][i]);
    k := k + 1;
    assert forall i :: 0 < i < k ==> order[i] == order[1..][i - 1];
  }

  /** Every order: the loop has noted the refusers before the point where it stops; it accepts iff
      nothing stops it, and reports the error or the provider's status that does. */
  lemma TallyMeans(cfg: Config, answers: Str -> Option<int>, order: seq<Str>) returns (k: nat)
    ensures k <= |order| && (forall i :: 0 <= i < k ==> Quiet(cfg, answers, order[i]))
    ensures k < |order| ==> !Quiet(cfg, answers, order[k])
    ensures Tally(cfg, answers, order, {}) ==
            (Noted(cfg, answers, order[..k]),
             if k == |order| then Status(ACCEPT) else if answers(order[k]).None? then Failed else Status(answers(order[k]).value))
  {
    hide Noted;
    k := FirstLoud(cfg, answers, order);
    assert order == order[..k] + order[k..];
    TallyPast(cfg, answers, order[..k], order[k..], {});
    assert {} + Noted(cfg, answers, order[..k]) == Noted(cfg, answers, order[..k]);
  }

  lemma RefusersAre(cfg: Config, routes: seq<Route>, txs: seq<Str>, judges: Str -> Judge, c: Str)
    requires |routes| == |txs|
    ensures c in Refusers(cfg, routes, txs, judges) <==> c in Called(routes) && Refuses(cfg, Answers(routes, txs, judges), c)
  {
  }

  lemma QuietAre(cfg: Config, routes: seq<Route>, txs: seq<Str>, judges: Str -> Judge)
    requires |routes| == |txs|
    ensures Approved(cfg, routes, txs, judges) <==> forall c :: c in Called(routes) ==> Quiet(cfg, Answers(routes, txs, judges), c)
  {
    hide Called, Answer;
    var answers := Answers(routes, txs, judges);
    assert forall c :: answers(c) == Answer(routes, txs, judges, c);
  }

  // What Mux.ProcessProposal asks of the rejected set and the verdict of a proposal that parses.
  ghost predicate Allowed(cfg: Config, routes: seq<Route>, txs: seq<Str>, judges: Str -> Judge, rejected: set<Str>, v: Verdict)
    requires |routes| == |txs|
  {
    && rejected <= Refusers(cfg, routes, txs, judges)
    && (Approved(cfg, routes, txs, judges) ==> v == Status(ACCEPT) && rejected == Refusers(cfg, routes, txs, judges))
    && (!Approved(cfg, routes, txs, judges) ==>
          match v
          case Failed => exists c :: c in Called(routes) && Answer(routes, txs, judges, c).None?
          case Status(s) =>
            s != ACCEPT && cfg.providerId in Called(routes) && Answer(routes, txs, judges, cfg.providerId) == Some(s))
  }

  lemma NotedAre(cfg: Config, routes: seq<Route>, txs: seq<Str>, judges: Str -> Judge, order: seq<Str>)
    requires |routes| == |txs| && Elements(order) <= Called(routes)
    ensures Noted(cfg, Answers(routes, txs, judges), order) <= Refusers(cfg, routes, txs, judges)
    ensures Elements(order) == Called(routes) ==>
              Noted(cfg, Answers(routes, txs, judges), order) == Refusers(cfg, routes, txs, judges)
  {
    hide Called, Answer, Refuses;
    forall c ensures c in Refusers(cfg, routes, txs, judges) <==> c in Called(routes) && Refuses(cfg, Answers(routes, txs, judges), c) {
      RefusersAre(cfg, routes, txs, judges, c);
    }
    assert forall c :: c in order <==> c in Elements(order);
  }

  // Sound: an order in which the called chains arrive leads to an allowed outcome.
  lemma OrderAllowed(cfg: Config, routes: seq<Route>, txs: seq<Str>, judges: Str -> Judge, order: seq<Str>)
    requires |routes| == |txs| && Elements(order) == Called(routes)
    ensures var (rejected, v) := Tally(cfg, Answers(routes, txs, judges), order, {});
      Allowed(cfg, routes, txs, judges, rejected, v)
  {
    hide Called, Tally, Noted, Refusers, Answer;
    var answers := Answers(routes, txs, judges);
    var k := TallyMeans(cfg, answers, order);
    QuietAre(cfg, routes, txs, judges);
    assert order[..k] + order[k..] == order;
    ElementsConcat(order[..k], order[k..]);
    NotedAre(cfg, routes, txs, judges, order[..k]);
    if k == |order| {
      assert order[..k] == order;
      forall c | c in Called(routes) ensures Quiet(cfg, answers, c) {
        assert c in Elements(order);
      }
    } else {
      assert order[k] in Elements(order);
    }
  }

  // An order in which the refusers to be noted come first, then the chain that stops the loop.
  function Arrange(noted: set<Str>, z: Str, called: set<Str>): seq<Str>
  {
    SortedKeys(noted) + ([z] + SortedKeys(called - noted - {z}))
  }

  lemma DistinctConcat(a: seq<Str>, b: seq<Str>)
    requires Distinct(a) && Distinct(b) && Elements(a) !! Elements(b)
    ensures Distinct(a + b)
  {
    forall i, j | 0 <= i < j < |a + b| ensures (a + b)[i] != (a + b)[j] {
      if i < |a| <= j {
        assert a[i] in Elements(a) && b[j - |a|] in Elements(b);
      }
    }
  }

  lemma ArrangeIsOrder(noted: set<Str>, z: Str, called: set<Str>)
    requires noted <= called && z in called && z !in noted
    ensures Distinct(Arrange(noted, z, called)) && Elements(Arrange(noted, z, called)) == called
  {
    hide SortedKeys, Distinct, Elements;
    var a, b := SortedKeys(noted), SortedKeys(called - noted - {z});
    SortedDistinct(a);
    SortedDistinct(b);
    assert Distinct([z]) && Elements([z]) == {z} by { Alone(z); }
    DistinctConcat([z], b);
    ElementsConcat([z], b);
    DistinctConcat(a, [z] + b);
    ElementsConcat(a, [z] + b);
  }

  lemma Alone(z: Str)
    ensures Distinct([z]) && Elements([z]) == {z}
  {
  }

  lemma AllNoted(cfg: Config, answers: Str -> Option<int>, noted: set<Str>)
    requires forall c :: c in noted ==> Refuses(cfg, answers, c)
    ensures Noted(cfg, answers, SortedKeys(noted)) == noted
    ensures forall i :: 0 <= i < |SortedKeys(noted)| ==> Quiet(cfg, answers, SortedKeys(noted)[i])
  {
    hide SortedKeys;
    var a := SortedKeys(noted);
    assert forall c :: c in a <==> c in Elements(a);
    forall i | 0 <= i < |a| ensures Quiet(cfg, answers, a[i]) {
      assert a[i] in a;
    }
  }

  // The outcome of that order.
  lemma ArrangeStops(cfg: Config, answers: Str -> Option<int>, noted: set<Str>, z: Str, called: set<Str>)
    requires (forall c :: c in noted ==> Refuses(cfg, answers, c)) && !Quiet(cfg, answers, z)
    ensures Tally(cfg, answers, Arrange(noted, z, called), {})
         == (noted, if answers(z).None? then Failed else Status(answers(z).value))
  {
    hide SortedKeys, Noted;
    var a, rest := SortedKeys(noted), [z] + SortedKeys(called - noted - {z});
    AllNoted(cfg, answers, noted);
    TallyPast(cfg, answers, a, rest, {});
    assert {} + noted == noted;
  }

  // Complete: every allowed outcome is that of some order.
  lemma AllowedOrder(cfg: Config, routes: seq<Route>, txs: seq<Str>, judges: Str -> Judge, rejected: set<Str>, v: Verdict)
    returns (order: seq<Str>)
    requires |routes| == |txs| && Allowed(cfg, routes, txs, judges, rejected, v)
    ensures Distinct(order) && Elements(order) == Called(routes)
    ensures Tally(cfg, Answers(routes, txs, judges), order, {}) == (rejected, v)
  {
    hide Called, Tally, Answer, SortedKeys, Distinct, Elements, Arrange;
    var answers := Answers(routes, txs, judges);
    assert forall c :: answers(c) == Answer(routes, txs, judges, c);
    if Approved(cfg, routes, txs, judges) {
      order := SortedKeys(Called(routes));
      SortedDistinct(order);
      Accepting(cfg, routes, txs, judges, order);
    } else {
      var z: Str;
      if v == Failed {
        z :| z in Called(routes) && Answer(routes, txs, judges, z).None?;
      } else {
        z := cfg.providerId;
      }
      order := Arrange(rejected, z, Called(routes));
      ArrangeIsOrder(rejected, z, Called(routes));
      ArrangeStops(cfg, answers, rejected, z, Called(routes));
    }
  }

  lemma Accepting(cfg: Config, routes: seq<Route>, txs: seq<Str>, judges: Str -> Judge, order: seq<Str>)
    requires |routes| == |txs| && Elements(order) == Called(routes) && Approved(cfg, routes, txs, judges)
    ensures Tally(cfg, Answers(routes, txs, judges), order, {}) == (Refusers(cfg, routes, txs, judges), Status(ACCEPT))
  {
    hide Tally, Called, Answer, Refusers;
    OrderAllowed(cfg, routes, txs, judges, order);
  }

  /** The relation is exact: a proposal whose headers parse can lead to a state and a verdict iff some
      order in which the called chains can arrive makes the collecting loop leave them. */
  lemma OutcomesAreOrders(cfg: Config, m: Mux, txs: seq<Str>, judges: Str -> Judge, m': Mux, v: Verdict)
    requires Bad !in ProposalRoutes(cfg, m, txs)
    ensures var routes := ProposalRoutes(cfg, m, txs);
      M.ProcessProposal(cfg, m, txs, judges, m', v) <==>
        && m' == m.(rejected := m'.rejected,
                    trace := AddCalls(m.trace, Called(routes) - {cfg.providerId}, ProcessCalls(Shares(routes, txs))))
        && exists order :: Distinct(order) && Elements(order) == Called(routes)
             && Tally(cfg, Answers(routes, txs, judges), order, {}) == (m'.rejected, v)
  {
    hide Called, Tally, Answer, Refusers, Approved, AddCalls, Distinct, Elements, Shares;
    var routes := ProposalRoutes(cfg, m, txs);
    if Allowed(cfg, routes, txs, judges, m'.rejected, v) {
      var order := AllowedOrder(cfg, routes, txs, judges, m'.rejected, v);
    }
    forall order | Distinct(order) && Elements(order) == Called(routes)
                   && Tally(cfg, Answers(routes, txs, judges), order, {}) == (m'.rejected, v)
      ensures Allowed(cfg, routes, txs, judges, m'.rejected, v)
    {
      OrderAllowed(cfg, routes, txs, judges, order);
    }
  }
}
