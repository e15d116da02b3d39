/** Splitting a block's transactions by chain and putting the chains' results back in place. */
module Routing {
  import opened GoTypes

  datatype Route = Bad | Skip | To(chain: Str)

  datatype TxResult = TxResult(code: nat, log: string)

  const SKIPPED := TxResult(1, "transaction skipped")

  // The indices with a given route, as the loop over the transactions appends them.
  function Positions(routes: seq<Route>, r: Route): (ps: seq<nat>)
  {
    if routes == [] then []
    else
      var n := |routes| - 1;
      Positions(routes[..n], r) + (if routes[n] == r then [n] else [])
  }

  // The payloads handed to a chain.
  function Payloads(routes: seq<Route>, payloads: seq<Str>, r: Route): (txs: seq<Str>)
    requires |routes| == |payloads|
  {
    if routes == [] then []
    else
      var n := |routes| - 1;
      Payloads(routes[..n], payloads[..n], r) + (if routes[n] == r then [payloads[n]] else [])
  }

  // How many earlier transactions went the same way.
  function Rank(routes: seq<Route>, i: nat): nat
    requires i < |routes|
  {
    |Positions(routes[..i], routes[i])|
  }

  // The j-th position holds the route's j-th transaction, and the lists are strictly increasing.
  lemma {:induction false} PositionSound(routes: seq<Route>, r: Route, j: nat)
    requires j < |Positions(routes, r)|
    ensures var p := Positions(routes, r)[j]; p < |routes| && routes[p] == r && Rank(routes, p) == j
    ensures forall i :: 0 <= i < j ==> Positions(routes, r)[i] < Positions(routes, r)[j]
  {
    var n := |routes| - 1;
    var init := routes[..n];
    if j < |Positions(init, r)| {
      PositionSound(init, r, j);
      var p := Positions(init, r)[j];
      assert routes[..p] == init[..p];
    } else {
      assert Positions(routes, r)[j] == n;
      forall i | 0 <= i < j ensures Positions(routes, r)[i] < n {
        PositionSound(init, r, i);
      }
    }
  }

  // Every transaction is in the list of its own route, at its rank.
  lemma {:induction false} PositionComplete(routes: seq<Route>, i: nat)
    requires i < |routes|
    ensures Rank(routes, i) < |Positions(routes, routes[i])|
    ensures Positions(routes, routes[i])[Rank(routes, i)] == i
  {
    var n := |routes| - 1;
    if i < n {
      PositionComplete(routes[..n], i);
      assert routes[..i] == routes[..n][..i];
    }
  }

  // No index has two owners: it is in the list of a route exactly if that is its route.
  lemma OneOwner(routes: seq<Route>, r: Route, i: nat)
    requires i < |routes|
    ensures i in Positions(routes, r) <==> routes[i] == r
  {
    PositionComplete(routes, i);
    if i in Positions(routes, r) {
      var j :| 0 <= j < |Positions(routes, r)| && Positions(routes, r)[j] == i;
      PositionSound(routes, r, j);
    }
  }

  // The payload lists run parallel to the position lists.
  lemma {:induction false} Aligned(routes: seq<Route>, payloads: seq<Str>, r: Route, j: nat)
    requires |routes| == |payloads|
    requires j < |Positions(routes, r)|
    ensures |Payloads(routes, payloads, r)| == |Positions(routes, r)|
    ensures Positions(routes, r)[j] < |payloads|
    ensures Payloads(routes, payloads, r)[j] == payloads[Positions(routes, r)[j]]
  {
    var n := |routes| - 1;
    PositionSound(routes, r, j);
    SameLength(routes, payloads, r);
    SameLength(routes[..n], payloads[..n], r);
    if j < |Positions(routes[..n], r)| {
      Aligned(routes[..n], payloads[..n], r, j);
    }
  }

  lemma {:induction false} SameLength(routes: seq<Route>, payloads: seq<Str>, r: Route)
    requires |routes| == |payloads|
    ensures |Payloads(routes, payloads, r)| == |Positions(routes, r)|
  {
    if routes != [] {
      SameLength(routes[..|routes| - 1], payloads[..|routes| - 1], r);
    }
  }

  // Two routings that send the same transactions one way.
  ghost predicate SameWay(r1: seq<Route>, r2: seq<Route>, r: Route)
  {
    |r1| == |r2| && forall i :: 0 <= i < |r1| ==> (r1[i] == r <==> r2[i] == r)
  }

  lemma {:induction false} SameWaySame(r1: seq<Route>, r2: seq<Route>, payloads: seq<Str>, r: Route)
    requires SameWay(r1, r2, r) && |payloads| == |r1|
    ensures Positions(r1, r) == Positions(r2, r)
    ensures Payloads(r1, payloads, r) == Payloads(r2, payloads, r)
    decreases |r1|
  {
    if r1 != [] {
      var n := |r1| - 1;
      SameWaySame(r1[..n], r2[..n], payloads[..n], r);
    }
  }

  /******* Results *******/

  // What stands at index i once the chains of replies have answered: the skip marker, the result
  // of the owner, or nothing if the owner has not answered or its list is too short.
  function ResultAt(routes: seq<Route>, replies: map<Str, seq<TxResult>>, marked: bool, i: nat): Option<TxResult>
    requires i < |routes|
  {
    match routes[i]
    case Bad => None
    case Skip => if marked then Some(SKIPPED) else None
    case To(c) =>
      if c in replies && Rank(routes, i) < |replies[c]| then Some(replies[c][Rank(routes, i)]) else None
  }

  function Table(routes: seq<Route>, replies: map<Str, seq<TxResult>>, marked: bool): (t: seq<Option<TxResult>>)
    ensures |t| == |routes|
    ensures forall i :: 0 <= i < |t| ==> t[i] == ResultAt(routes, replies, marked, i)
  {
    seq(|routes|, i requires 0 <= i < |routes| => ResultAt(routes, replies, marked, i))
  }

  // The first k turns of the loop that writes one reply's results to their positions.
  function Scatter(s: seq<Option<TxResult>>, ps: seq<nat>, rs: seq<TxResult>, k: nat): (t: seq<Option<TxResult>>)
    requires k <= |ps| && forall j :: 0 <= j < |ps| ==> ps[j] < |s|
    ensures |t| == |s|
  {
    if k == 0 then s
    else
      var t := Scatter(s, ps, rs, k - 1);
      if k - 1 < |rs| then t[ps[k - 1] := Some(rs[k - 1])] else t
  }

  lemma PositionsInRange(routes: seq<Route>, r: Route)
    ensures forall j :: 0 <= j < |Positions(routes, r)| ==> Positions(routes, r)[j] < |routes|
  {
    forall j | 0 <= j < |Positions(routes, r)| ensures Positions(routes, r)[j] < |routes| {
      PositionSound(routes, r, j);
    }
  }

  lemma {:induction false} ScatterAt(s: seq<Option<TxResult>>, routes: seq<Route>, r: Route, rs: seq<TxResult>, k: nat, i: nat)
    requires |s| == |routes| && i < |s| && k <= |Positions(routes, r)|
    requires forall j :: 0 <= j < |Positions(routes, r)| ==> Positions(routes, r)[j] < |s|
    ensures Scatter(s, Positions(routes, r), rs, k)[i] ==
            if routes[i] == r && Rank(routes, i) < k && Rank(routes, i) < |rs| then Some(rs[Rank(routes, i)]) else s[i]
  {
    hide Rank, Positions;
    if k > 0 {
      ScatterAt(s, routes, r, rs, k - 1, i);
      PositionSound(routes, r, k - 1);
      if routes[i] == r {
        PositionComplete(routes, i);
      }
    }
  }

  // Writing a chain's reply into the table gives the table with that chain among the repliers.
  lemma ScatterReply(routes: seq<Route>, replies: map<Str, seq<TxResult>>, marked: bool, c: Str, rs: seq<TxResult>)
    requires c !in replies
    ensures forall j :: 0 <= j < |Positions(routes, To(c))| ==> Positions(routes, To(c))[j] < |routes|
    ensures Scatter(Table(routes, replies, marked), Positions(routes, To(c)), rs, |Positions(routes, To(c))|)
         == Table(routes, replies[c := rs], marked)
  {
    hide Rank, Positions, Scatter;
    PositionsInRange(routes, To(c));
    var s := Table(routes, replies, marked);
    var n := |Positions(routes, To(c))|;
    forall i | 0 <= i < |routes|
      ensures Scatter(s, Positions(routes, To(c)), rs, n)[i] == Table(routes, replies[c := rs], marked)[i]
    {
      ScatterAt(s, routes, To(c), rs, n, i);
      PositionComplete(routes, i);
    }
  }

  // The markers of the skipped transactions.
  lemma ScatterMarks(routes: seq<Route>, replies: map<Str, seq<TxResult>>, marks: seq<TxResult>)
    requires |marks| == |Positions(routes, Skip)| && forall j :: 0 <= j < |marks| ==> marks[j] == SKIPPED
    ensures forall j :: 0 <= j < |Positions(routes, Skip)| ==> Positions(routes, Skip)[j] < |routes|
    ensures Scatter(Table(routes, replies, false), Positions(routes, Skip), marks, |marks|) == Table(routes, replies, true)
  {
    hide Rank, Positions, Scatter;
    PositionsInRange(routes, Skip);
    var s := Table(routes, replies, false);
    forall i | 0 <= i < |routes|
      ensures Scatter(s, Positions(routes, Skip), marks, |marks|)[i] == Table(routes, replies, true)[i]
    {
      ScatterAt(s, routes, Skip, marks, |marks|, i);
      PositionComplete(routes, i);
    }
  }

  // One chain's results, written in place.
  method WriteResults(results: array<Option<TxResult>>, positions: seq<nat>, rs: seq<TxResult>)
    requires forall j :: 0 <= j < |positions| ==> positions[j] < results.Length
    modifies results
    ensures results[..] == Scatter(old(results[..]), positions, rs, |positions|)
  {
    for i := 0 to |positions|
      invariant results[..] == Scatter(old(results[..]), positions, rs, i)
    {
      if i < |rs| {
        ghost var before := results[..];
        results[positions[i]] := Some(rs[i]);
        assert results[..] == before[positions[i] := Some(rs[i])];
      }
    }
  }

  function Marks(n: nat): (ms: seq<TxResult>)
    ensures |ms| == n && forall i :: 0 <= i < n ==> ms[i] == SKIPPED
  {
    seq(n, _ => SKIPPED)
  }

  // The skip markers, written in place.
  method MarkSkipped(results: array<Option<TxResult>>, positions: seq<nat>)
    requires forall j :: 0 <= j < |positions| ==> positions[j] < results.Length
    modifies results
    ensures results[..] == Scatter(old(results[..]), positions, Marks(|positions|), |positions|)
  {
    ghost var marks := Marks(|positions|);
    for i := 0 to |positions|
      invariant results[..] == Scatter(old(results[..]), positions, marks, i)
    {
      ghost var before := results[..];
      results[positions[i]] := Some(TxResult(1, "transaction skipped"));
      assert results[..] == before[positions[i] := Some(marks[i])];
    }
  }

  /******* Grouping by chain, one transaction at a time *******/

  // The chains that have a transaction.
  function Called(routes: seq<Route>): set<Str>
  {
    set i | 0 <= i < |routes| && routes[i].To? :: routes[i].chain
  }

  // The maps chainTxs and txPositions after the transactions with these routes.
  ghost predicate Grouped(routes: seq<Route>, payloads: seq<Str>, chainTxs: map<Str, seq<Str>>, positions: map<Str, seq<nat>>)
    requires |routes| == |payloads|
  {
    && chainTxs.Keys == positions.Keys == Called(routes)
    && forall c :: c in chainTxs ==>
         chainTxs[c] == Payloads(routes, payloads, To(c)) && positions[c] == Positions(routes, To(c))
  }

  // m[c], nil when there is no entry
  function Get<T>(m: map<Str, seq<T>>, c: Str): seq<T>
  {
    if c in m then m[c] else []
  }

  lemma {:induction false} NothingFor(routes: seq<Route>, payloads: seq<Str>, c: Str)
    requires |routes| == |payloads| && c !in Called(routes)
    ensures Positions(routes, To(c)) == [] && Payloads(routes, payloads, To(c)) == []
  {
    if routes != [] {
      var n := |routes| - 1;
      assert routes[n].To? ==> routes[n].chain in Called(routes);
      assert forall x :: x in Called(routes[..n]) ==> x in Called(routes);
      NothingFor(routes[..n], payloads[..n], c);
    }
  }

  lemma CalledAppend(routes: seq<Route>, r: Route)
    ensures Called(routes + [r]) == Called(routes) + (if r.To? then {r.chain} else {})
  {
    var all := routes + [r];
    assert forall i :: 0 <= i < |routes| ==> all[i] == routes[i];
    assert all[|routes|] == r;
    forall c | c in Called(routes) ensures c in Called(all) {
      var i :| 0 <= i < |routes| && routes[i].To? && routes[i].chain == c;
      assert all[i] == routes[i];
    }
  }

  // What one more transaction does to the lists of a route.
  lemma {:induction false} ListsAppend(routes: seq<Route>, payloads: seq<Str>, r: Route, p: Str, q: Route)
    requires |routes| == |payloads|
    ensures Positions(routes + [r], q) == Positions(routes, q) + (if r == q then [|routes|] else [])
    ensures Payloads(routes + [r], payloads + [p], q) == Payloads(routes, payloads, q) + (if r == q then [p] else [])
  {
    var rs, ps := routes + [r], payloads + [p];
    assert rs[..|rs| - 1] == routes && ps[..|rs| - 1] == payloads;
    assert rs[|rs| - 1] == r && ps[|rs| - 1] == p;
  }

  lemma {:induction false} GroupAppend(routes: seq<Route>, payloads: seq<Str>, r: Route, p: Str,
                    chainTxs: map<Str, seq<Str>>, positions: map<Str, seq<nat>>)
    requires |routes| == |payloads| && Grouped(routes, payloads, chainTxs, positions)
    ensures r.To? ==> Grouped(routes + [r], payloads + [p],
                              chainTxs[r.chain := Get(chainTxs, r.chain) + [p]],
                              positions[r.chain := Get(positions, r.chain) + [|routes|]])
    ensures !r.To? ==> Grouped(routes + [r], payloads + [p], chainTxs, positions)
    ensures forall q :: Positions(routes + [r], q) == Positions(routes, q) + (if r == q then [|routes|] else [])
  {
    hide Called, Positions, Payloads;
    CalledAppend(routes, r);
    forall q ensures Positions(routes + [r], q) == Positions(routes, q) + (if r == q then [|routes|] else [])
             ensures Payloads(routes + [r], payloads + [p], q) == Payloads(routes, payloads, q) + (if r == q then [p] else [])
    {
      ListsAppend(routes, payloads, r, p, q);
    }
    if r.To? && r.chain !in Called(routes) {
      NothingFor(routes, payloads, r.chain);
    }
  }

  lemma GroupedGet(routes: seq<Route>, payloads: seq<Str>, chainTxs: map<Str, seq<Str>>, positions: map<Str, seq<nat>>, c: Str)
    requires |routes| == |payloads| && Grouped(routes, payloads, chainTxs, positions)
    ensures Get(chainTxs, c) == Payloads(routes, payloads, To(c))
    ensures Get(positions, c) == Positions(routes, To(c))
  {
    if c !in Called(routes) {
      NothingFor(routes, payloads, c);
    }
  }
}
