/**
 The fan-out every ABCI handler uses: a loop starts one goroutine per chain, each sends a single
 result into a buffered channel, a closer waits for all of them, and the handler collects.
 Steps interleave in any way the scheduler likes.
 */
module FanOut {
  import opened GoTypes
  import opened ByteOrder

  datatype Pool = Pool(
    todo: set<Str>,        // chains the dispatch loop has not reached yet
    running: set<Str>,     // goroutines that have not sent their result
    channel: seq<Str>,     // results in the channel, by chain
    got: seq<Str>,         // results the handler has received, in order
    cap: nat,              // the channel's capacity
    closed: bool,
    listening: bool,       // false once the handler has returned early
    spawned: set<Str>)     // every chain a goroutine was started for

  datatype Step =
    | Spawn(chain: Str)
    | Pass(chain: Str)     // the dispatch loop skips a chain
    | Deliver(chain: Str)
    | Receive
    | Return               // the handler returns without draining the channel
    | Close

  // One slot for each chain of the map the loop ranges over.
  function Init(ids: set<Str>): Pool
  {
    Pool(ids, {}, [], [], |ids|, false, true, {})
  }

  predicate Enabled(p: Pool, s: Step)
  {
    match s
    case Spawn(c) => c in p.todo
    case Pass(c) => c in p.todo
    case Deliver(c) => c in p.running && |p.channel| < p.cap
    case Receive => p.todo == {} && p.listening && p.channel != []
    case Return => p.todo == {} && p.listening
    case Close => p.todo == {} && p.running == {} && !p.closed
  }

  function Do(p: Pool, s: Step): Pool
    requires Enabled(p, s)
  {
    match s
    case Spawn(c) => p.(todo := p.todo - {c}, running := p.running + {c}, spawned := p.spawned + {c})
    case Pass(c) => p.(todo := p.todo - {c})
    case Deliver(c) => p.(running := p.running - {c}, channel := p.channel + [c])
    case Receive => p.(channel := p.channel[1..], got := p.got + [p.channel[0]])
    case Return => p.(listening := false)
    case Close => p.(closed := true)
  }

  // Results sent so far, received or not, in the order they were sent.
  function Sent(p: Pool): seq<Str>
  {
    p.got + p.channel
  }

  ghost predicate Inv(p: Pool)
  {
    && Distinct(Sent(p))
    && Elements(Sent(p)) !! p.running
    && Elements(Sent(p)) + p.running == p.spawned
    && p.todo !! p.spawned
    && |p.todo| + |p.spawned| <= p.cap
    && (p.closed ==> p.todo == {} && p.running == {})
  }

  lemma InitInv(ids: set<Str>)
    ensures Inv(Init(ids))
  {
  }

  lemma DistinctAppend(s: seq<Str>, x: Str)
    requires Distinct(s) && x !in Elements(s)
    ensures Distinct(s + [x])
  {
    assert forall i :: 0 <= i < |s| ==> s[i] in Elements(s);
  }

  lemma DeliverInv(p: Pool, c: Str)
    requires Inv(p) && Enabled(p, Deliver(c))
    ensures Inv(Do(p, Deliver(c)))
  {
    hide Distinct, Elements;
    assert Sent(Do(p, Deliver(c))) == Sent(p) + [c];
    ElementsAppend(Sent(p), c);
    DistinctAppend(Sent(p), c);
  }

  lemma TakeOne(todo: set<Str>, c: Str)
    requires c in todo
    ensures |todo - {c}| == |todo| - 1
  {
  }

  lemma SpawnInv(p: Pool, c: Str)
    requires Inv(p) && Enabled(p, Spawn(c))
    ensures Inv(Do(p, Spawn(c)))
  {
    hide Distinct, Elements;
    TakeOne(p.todo, c);
    assert |p.spawned + {c}| == |p.spawned| + 1;
  }

  // Every step of every interleaving keeps the books: each chain is still to come, running, or sent.
  lemma StepInv(p: Pool, s: Step)
    requires Inv(p) && Enabled(p, s)
    ensures Inv(Do(p, s))
  {
    hide Distinct, Elements;
    match s
    case Spawn(c) => SpawnInv(p, c);
    case Pass(c) => TakeOne(p.todo, c);
    case Deliver(c) => DeliverInv(p, c);
    case Receive => assert Sent(Do(p, s)) == Sent(p);
    case Return =>
    case Close =>
  }

  lemma {:induction false} DistinctCount(s: seq<Str>)
    requires Distinct(s)
    ensures |Elements(s)| == |s|
  {
    if s == [] {
      assert Elements(s) == {};
    } else {
      var init, last := s[..|s| - 1], s[|s| - 1];
      DistinctCount(init);
      ElementsAppend(init, last);
      assert s == init + [last];
      assert last !in Elements(init);
    }
  }

  // The capacity bounds the senders: a goroutine's send never waits, whether or not the handler
  // still listens. So an early return leaks no goroutine.
  lemma SendNeverBlocks(p: Pool, c: Str)
    requires Inv(p) && c in p.running
    ensures Enabled(p, Deliver(c))
  {
    DistinctCount(Sent(p));
    assert |p.spawned| == |Elements(Sent(p))| + |p.running|;
    assert p.running != {} ==> |p.running| >= 1;
  }

  // All goroutines are done, the channel is closed, and a handler that still listens has drained it.
  predicate Finished(p: Pool)
  {
    p.todo == {} && p.running == {} && p.closed && (p.listening ==> p.channel == [])
  }

  // No deadlock: until everything is finished some step other than an early return can be taken.
  lemma Progress(p: Pool) returns (s: Step)
    requires Inv(p) && !Finished(p)
    ensures Enabled(p, s) && !s.Return?
  {
    if c :| c in p.todo {
      s := Spawn(c);
    } else if c :| c in p.running {
      SendNeverBlocks(p, c);
      s := Deliver(c);
    } else if !p.closed {
      s := Close;
    } else {
      s := Receive;
    }
  }

  function Fuel(p: Pool): nat
  {
    3 * |p.todo| + 2 * |p.running| + |p.channel| + (if p.closed then 0 else 1) + (if p.listening then 1 else 0)
  }

  // Every step uses up fuel: no schedule goes on forever.
  lemma StepBurns(p: Pool, s: Step)
    requires Enabled(p, s)
    ensures Fuel(Do(p, s)) < Fuel(p)
  {
    match s
    case Spawn(c) =>
      assert |p.todo - {c}| == |p.todo| - 1;
      assert |p.running + {c}| <= |p.running| + 1;
    case Pass(c) => assert |p.todo - {c}| == |p.todo| - 1;
    case Deliver(c) => assert |p.running - {c}| == |p.running| - 1;
    case Receive =>
    case Return =>
    case Close =>
  }

  ghost predicate Schedule(p: Pool, steps: seq<Step>)
    decreases |steps|
  {
    steps == [] || (Enabled(p, steps[0]) && Schedule(Do(p, steps[0]), steps[1..]))
  }

  ghost function After(p: Pool, steps: seq<Step>): Pool
    requires Schedule(p, steps)
    decreases |steps|
  {
    if steps == [] then p else After(Do(p, steps[0]), steps[1..])
  }

  // A schedule is no longer than the fuel; one that cannot be extended (but for the handler walking
  // away) has finished; what a listening handler has then received are all results, once each.
  lemma {:induction false} EverySchedule(p: Pool, steps: seq<Step>)
    requires Inv(p) && Schedule(p, steps)
    ensures |steps| <= Fuel(p)
    ensures var q := After(p, steps);
      && Inv(q)
      && ((forall s :: Enabled(q, s) ==> s.Return?) ==> Finished(q))
      && (Finished(q) && q.listening ==> Distinct(q.got) && Elements(q.got) == q.spawned)
      && (Finished(q) ==> Elements(Sent(q)) == q.spawned)
    decreases |steps|
  {
    if steps == [] {
      if !Finished(p) {
        var s := Progress(p);
      }
      assert p.channel == [] ==> Sent(p) == p.got;
    } else {
      StepInv(p, steps[0]);
      StepBurns(p, steps[0]);
      EverySchedule(Do(p, steps[0]), steps[1..]);
    }
  }

  /** The whole fan-out over any set of chains, under any scheduler: it is over after at most 3n + 2
      steps; at every moment each goroutine can send at once, handler gone or not; when nothing more
      can happen all goroutines are done and the channel is closed; and a handler that listened has
      then received exactly one result from each goroutine started. */
  lemma FanOutCompletes(ids: set<Str>, steps: seq<Step>)
    requires Schedule(Init(ids), steps)
    ensures |steps| <= 3 * |ids| + 2
    ensures var q := After(Init(ids), steps);
      && (forall c :: c in q.running ==> Enabled(q, Deliver(c)))
      && ((forall s :: Enabled(q, s) ==> s.Return?) ==> Finished(q))
      && (Finished(q) && q.listening ==> Distinct(q.got) && Elements(q.got) == q.spawned)
  {
    InitInv(ids);
    EverySchedule(Init(ids), steps);
    var q := After(Init(ids), steps);
    forall c | c in q.running ensures Enabled(q, Deliver(c)) {
      SendNeverBlocks(q, c);
    }
  }

  /** Runs the goroutines of the dispatched chains under a scheduler that picks any enabled step,
      and returns the chains in the order their results arrived. */
  method Collect(dispatched: set<Str>, cap: nat) returns (got: seq<Str>)
    requires |dispatched| <= cap
    ensures Distinct(got) && Elements(got) == dispatched
  {
    var p := Pool({}, dispatched, [], [], cap, false, true, dispatched);
    while !(p.closed && p.channel == [])
      invariant Inv(p) && p.todo == {} && p.spawned == dispatched && p.listening
      decreases Fuel(p)
    {
      if
      case p.running != {} =>
        var c :| c in p.running;
        SendNeverBlocks(p, c);
        StepInv(p, Deliver(c));
        StepBurns(p, Deliver(c));
        p := Do(p, Deliver(c));
      case p.channel != [] =>
        StepInv(p, Receive);
        StepBurns(p, Receive);
        p := Do(p, Receive);
      case p.running == {} && !p.closed =>
        StepBurns(p, Close);
        p := Do(p, Close);
    }
    assert Sent(p) == p.got;
    got := p.got;
  }
}
