/**
 What does and does not depend on scheduling: verdicts on proposals and events of blocks, compared
 across two executions of the same call.
 */
module Confluence {
  import opened GoTypes
  import opened ByteOrder
  import opened Routing
  import opened Mux
  import M = Mux
  import opened Multiplexer
  import opened Tallies

  /******* ProcessProposal *******/

  predicate SomeoneErrs(cfg: Config, m: Mux, txs: seq<Str>, judges: Str -> Judge)
  {
    var routes := ProposalRoutes(cfg, m, txs);
    exists c :: c in Called(routes) && Answer(routes, txs, judges, c).None?
  }

  predicate ProviderRefuses(cfg: Config, m: Mux, txs: seq<Str>, judges: Str -> Judge)
  {
    var routes := ProposalRoutes(cfg, m, txs);
    && cfg.providerId in Called(routes)
    && Answer(routes, txs, judges, cfg.providerId).Some?
    && Answer(routes, txs, judges, cfg.providerId).value != ACCEPT
  }

  /** A proposal is accepted iff every header parses, no called chain errs and the provider, if it has
      transactions, accepts; and then every execution rejects the same consumers: exactly the called
      ones that did not accept. */
  lemma AcceptIff(cfg: Config, m: Mux, txs: seq<Str>, judges: Str -> Judge, m': Mux, v: Verdict)
    requires M.ProcessProposal(cfg, m, txs, judges, m', v)
    ensures var routes := ProposalRoutes(cfg, m, txs);
      && (v == Status(ACCEPT) <==>
            Bad !in routes && !SomeoneErrs(cfg, m, txs, judges) && !ProviderRefuses(cfg, m, txs, judges))
      && (v == Status(ACCEPT) ==> m'.rejected == Refusers(cfg, routes, txs, judges))
      && m'.rejected <= m.rejected + Refusers(cfg, routes, txs, judges)
  {
    hide Called, AddCalls;
    var routes := ProposalRoutes(cfg, m, txs);
    assert Approved(cfg, routes, txs, judges) <==>
             !SomeoneErrs(cfg, m, txs, judges) && !ProviderRefuses(cfg, m, txs, judges);
  }

  // The state after a proposal that has noted the given refusers.
  function Asked(cfg: Config, m: Mux, txs: seq<Str>, rejected: set<Str>): Mux
  {
    var routes := ProposalRoutes(cfg, m, txs);
    m.(rejected := rejected,
       trace := AddCalls(m.trace, Called(routes) - {cfg.providerId}, ProcessCalls(Shares(routes, txs))))
  }

  // The results of the called chains arrive in this order.
  ghost predicate Arrives(routes: seq<Route>, order: seq<Str>)
  {
    Distinct(order) && Elements(order) == Called(routes)
  }

  // The rejected set the handler leaves and the verdict it reports when the results arrive in the given
  // order. A header that does not parse ends it before any chain is asked.
  function Handled(cfg: Config, m: Mux, txs: seq<Str>, judges: Str -> Judge, order: seq<Str>): (set<Str>, Verdict)
  {
    var routes := ProposalRoutes(cfg, m, txs);
    if Bad in routes then (m.rejected, Status(REJECT)) else Tally(cfg, Answers(routes, txs, judges), order, {})
  }

  lemma Reached(cfg: Config, m: Mux, txs: seq<Str>, judges: Str -> Judge, rejected: set<Str>, v: Verdict) returns (order: seq<Str>)
    requires Bad !in ProposalRoutes(cfg, m, txs) && Allowed(cfg, ProposalRoutes(cfg, m, txs), txs, judges, rejected, v)
    ensures Arrives(ProposalRoutes(cfg, m, txs), order) && Handled(cfg, m, txs, judges, order) == (rejected, v)
  {
    hide Called, Tally, Allowed;
    order := AllowedOrder(cfg, ProposalRoutes(cfg, m, txs), txs, judges, rejected, v);
  }

  lemma ReachedAllowed(cfg: Config, m: Mux, txs: seq<Str>, judges: Str -> Judge, order: seq<Str>)
    requires Bad !in ProposalRoutes(cfg, m, txs) && Arrives(ProposalRoutes(cfg, m, txs), order)
    ensures var (rejected, v) := Handled(cfg, m, txs, judges, order);
      Allowed(cfg, ProposalRoutes(cfg, m, txs), txs, judges, rejected, v)
  {
    hide Called, Tally, Allowed;
    OrderAllowed(cfg, ProposalRoutes(cfg, m, txs), txs, judges, order);
  }

  lemma Malformed(cfg: Config, m: Mux, txs: seq<Str>, judges: Str -> Judge)
    requires Bad in ProposalRoutes(cfg, m, txs)
    ensures forall a :: Handled(cfg, m, txs, judges, a) == (m.rejected, Status(REJECT))
  {
  }

  // The rejected set a refused proposal leaves behind is not settled: all orders of arrival leave the
  // same one iff the proposal does not parse, is accepted, or no consumer refuses.
  lemma RejectedAgreeIff(cfg: Config, m: Mux, txs: seq<Str>, judges: Str -> Judge)
    ensures var routes := ProposalRoutes(cfg, m, txs);
      (forall a, b | Arrives(routes, a) && Arrives(routes, b)
         :: Handled(cfg, m, txs, judges, a).0 == Handled(cfg, m, txs, judges, b).0)
      <==> Bad in routes
           || (!SomeoneErrs(cfg, m, txs, judges) && !ProviderRefuses(cfg, m, txs, judges))
           || Refusers(cfg, routes, txs, judges) == {}
  {
    hide Called, Handled, Arrives, Answer, Refusers;
    var routes := ProposalRoutes(cfg, m, txs);
    var refusers := Refusers(cfg, routes, txs, judges);
    assert Approved(cfg, routes, txs, judges) <==>
             !SomeoneErrs(cfg, m, txs, judges) && !ProviderRefuses(cfg, m, txs, judges);
    if Bad in routes {
      Malformed(cfg, m, txs, judges);
    } else if !Approved(cfg, routes, txs, judges) && refusers != {} {
      var v := if SomeoneErrs(cfg, m, txs, judges) then Failed
               else Status(Answer(routes, txs, judges, cfg.providerId).value);
      var a := Reached(cfg, m, txs, judges, {}, v);
      var b := Reached(cfg, m, txs, judges, refusers, v);
    } else {
      forall a, b | Arrives(routes, a) && Arrives(routes, b)
        ensures Handled(cfg, m, txs, judges, a).0 == Handled(cfg, m, txs, judges, b).0
      {
        ReachedAllowed(cfg, m, txs, judges, a);
        ReachedAllowed(cfg, m, txs, judges, b);
      }
    }
  }

  // Which refusal is reported can depend on the order of arrival: all orders agree on the verdict
  // unless the proposal parses, the provider refuses and another chain errs, and then some two differ.
  lemma VerdictsAgreeIff(cfg: Config, m: Mux, txs: seq<Str>, judges: Str -> Judge)
    ensures var routes := ProposalRoutes(cfg, m, txs);
      (forall a, b | Arrives(routes, a) && Arrives(routes, b)
         :: Handled(cfg, m, txs, judges, a).1 == Handled(cfg, m, txs, judges, b).1)
      <==> Bad in routes || !(SomeoneErrs(cfg, m, txs, judges) && ProviderRefuses(cfg, m, txs, judges))
  {
    hide Called, Handled, Arrives, Answer, Refusers;
    var routes := ProposalRoutes(cfg, m, txs);
    assert Approved(cfg, routes, txs, judges) <==>
             !SomeoneErrs(cfg, m, txs, judges) && !ProviderRefuses(cfg, m, txs, judges);
    if Bad in routes {
      Malformed(cfg, m, txs, judges);
    } else if SomeoneErrs(cfg, m, txs, judges) && ProviderRefuses(cfg, m, txs, judges) {
      var a := Reached(cfg, m, txs, judges, {}, Failed);
      var b := Reached(cfg, m, txs, judges, {}, Status(Answer(routes, txs, judges, cfg.providerId).value));
    } else {
      forall a, b | Arrives(routes, a) && Arrives(routes, b)
        ensures Handled(cfg, m, txs, judges, a).1 == Handled(cfg, m, txs, judges, b).1
      {
        ReachedAllowed(cfg, m, txs, judges, a);
        ReachedAllowed(cfg, m, txs, judges, b);
      }
    }
  }

  /******* Events *******/

  lemma IndexOf(s: seq<Str>, x: Str) returns (i: nat)
    requires x in Elements(s)
    ensures i < |s| && s[i] == x
  {
    i :| 0 <= i < |s| && s[i] == x;
  }

  // Taking one element out of a list without repetitions.
  lemma WithoutDistinct(s: seq<Str>, i: nat)
    requires i < |s| && Distinct(s)
    ensures Distinct(s[..i] + s[i + 1..])
    ensures s[i] !in Elements(s[..i]) && s[i] !in Elements(s[i + 1..])
  {
    var t := s[..i] + s[i + 1..];
    assert forall k :: 0 <= k < |t| ==> t[k] == if k < i then s[k] else s[k + 1];
  }

  lemma WithoutOne(s: seq<Str>, i: nat)
    requires i < |s| && Distinct(s)
    ensures var t := s[..i] + s[i + 1..]; Distinct(t) && Elements(t) == Elements(s) - {s[i]}
  {
    hide Distinct, Elements;
    var a, x, b := s[..i], s[i], s[i + 1..];
    assert s == a + ([x] + b);
    ElementsConcat(a, b);
    ElementsConcat(a, [x] + b);
    ElementsCons(x, b);
    WithoutDistinct(s, i);
  }

  lemma Shuffle(a: seq<Event>, b: seq<Event>, c: seq<Event>)
    ensures multiset(a + (b + c)) == multiset(b + (a + c))
  {
    assert multiset(a + (b + c)) == multiset(a) + multiset(b) + multiset(c);
  }

  // Any two orders of arrival give the same events, up to order.
  lemma {:induction false} EventsShuffle(a: seq<Str>, b: seq<Str>, replies: map<Str, FinalizeReply>)
    requires Distinct(a) && Distinct(b) && Elements(a) == Elements(b)
    ensures multiset(EventsOf(a, replies)) == multiset(EventsOf(b, replies))
    decreases |a|
  {
    hide Distinct, Elements;
    if a == [] {
      EmptyElements(a);
      EmptyElements(b);
    } else {
      FirstIn(a);
      var i := IndexOf(b, a[0]);
      var rest := b[..i] + b[i + 1..];
      WithoutOne(a, 0);
      WithoutOne(b, i);
      assert a[..0] + a[1..] == a[1..];
      EventsShuffle(a[1..], rest, replies);
      assert a == [a[0]] + a[1..] && b == b[..i] + ([a[0]] + b[i + 1..]);
      EventsConcat([a[0]], a[1..], replies);
      EventsConcat(b[..i], [a[0]] + b[i + 1..], replies);
      EventsConcat([a[0]], b[i + 1..], replies);
      EventsConcat(b[..i], b[i + 1..], replies);
      Shuffle(EventsOf(b[..i], replies), EventsOf([a[0]], replies), EventsOf(b[i + 1..], replies));
      Prepend(EventsOf([a[0]], replies), EventsOf(a[1..], replies), EventsOf(rest, replies));
    }
  }

  lemma EmptyElements(s: seq<Str>)
    ensures Elements(s) == {} <==> s == []
  {
    if s != [] {
      assert s[0] in Elements(s);
    }
  }

  lemma FirstIn(a: seq<Str>)
    requires a != []
    ensures a[0] in Elements(a)
  {
  }

  lemma Prepend(a: seq<Event>, b: seq<Event>, c: seq<Event>)
    requires multiset(b) == multiset(c)
    ensures multiset(a + b) == multiset(a + c)
  {
  }

  /** Two executions of the same FinalizeBlock call have the same events as a multiset, and both start
      with the provider's. (The rest of the reply and the state are equal outright: FinalizeBlock's
      contract equates them with a function of the call.) */
  lemma EventsAgree(cfg: Config, m: Mux, req: Request, provider: FinalizeApp, reply: Option<QueryReply>,
                    apps: Str -> Consumer, events1: seq<Event>, events2: seq<Event>)
    requires reply.Some? ==> |reply.value.value| <= MAX_INT
    requires EventsInSomeOrder(cfg, m, req, provider, reply, apps, events1)
    requires EventsInSomeOrder(cfg, m, req, provider, reply, apps, events2)
    ensures multiset(events1) == multiset(events2)
    ensures var p := provider(BlockShares(cfg, m, req)(cfg.providerId));
      p.Some? && p.value.events <= events1 && p.value.events <= events2
  {
    hide Distinct, Elements, Dispatched, Shares, Replies, QueriedIds, EventsOf;
    var share := BlockShares(cfg, m, req);
    var p := provider(share(cfg.providerId));
    var ready := Refreshed(cfg, m, req, reply);
    var replies := Replies(ready, req, share, apps);
    var a :| Distinct(a) && Elements(a) == Dispatched(ready, req, apps)
             && events1 == p.value.events + EventsOf(a, replies);
    var b :| Distinct(b) && Elements(b) == Dispatched(ready, req, apps)
             && events2 == p.value.events + EventsOf(b, replies);
    EventsShuffle(a, b, replies);
    Prepend(p.value.events, EventsOf(a, replies), EventsOf(b, replies));
  }

  /******* Commit *******/

  // The consumers that answer Commit all answer the same.
  predicate OneAnswer(cs: set<Str>, apps: Str -> Option<nat>)
  {
    forall a, b :: a in cs && b in cs && apps(a).Some? && apps(b).Some? ==> apps(a) == apps(b)
  }

  lemma {:induction false} RetainedOf(order: seq<Str>, provider: nat, apps: Str -> Option<nat>)
    ensures (Retained(order, provider, apps) == provider && forall c :: c in order ==> apps(c).None?)
            || exists c :: c in order && apps(c) == Some(Retained(order, provider, apps))
    ensures (exists c :: c in order && apps(c).Some?) ==>
              exists c :: c in order && apps(c) == Some(Retained(order, provider, apps))
  {
    if order != [] {
      var last := |order| - 1;
      RetainedOf(order[..last], provider, apps);
      assert order[last] in order;
      assert forall c :: c in order <==> c in order[..last] || c == order[last];
    }
  }

  // An order that ends with a given consumer.
  lemma EndingWith(cs: set<Str>, c: Str, provider: nat, apps: Str -> Option<nat>) returns (order: seq<Str>)
    requires c in cs && apps(c).Some?
    ensures Distinct(order) && Elements(order) == cs && Retained(order, provider, apps) == apps(c).value
  {
    hide SortedKeys;
    var before := SortedKeys(cs - {c});
    SortedDistinct(before);
    OneMore(before, c, provider, apps);
    order := before + [c];
  }

  /** The response to Commit, and so the height the engine retains, is that of the consumer the map
      iteration reaches last: it is the same for all iteration orders iff the committing consumers that
      answer all give the same response. */
  lemma RetainedAgreeIff(cs: set<Str>, provider: nat, apps: Str -> Option<nat>)
    ensures (forall a, b | Distinct(a) && Distinct(b) && Elements(a) == cs && Elements(b) == cs
               :: Retained(a, provider, apps) == Retained(b, provider, apps))
       <==> OneAnswer(cs, apps)
  {
    hide Distinct, Retained;
    if OneAnswer(cs, apps) {
      forall a, b | Distinct(a) && Distinct(b) && Elements(a) == cs && Elements(b) == cs
        ensures Retained(a, provider, apps) == Retained(b, provider, apps)
      {
        RetainedOf(a, provider, apps);
        RetainedOf(b, provider, apps);
        assert forall c :: c in a <==> c in Elements(a);
        assert forall c :: c in b <==> c in Elements(b);
      }
    } else {
      var x, y :| x in cs && y in cs && apps(x).Some? && apps(y).Some? && apps(x) != apps(y);
      var a := EndingWith(cs, x, provider, apps);
      var b := EndingWith(cs, y, provider, apps);
    }
  }
}
