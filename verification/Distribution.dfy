/** Conservation and retained dust: one BeginBlocker, and every run of them. */
module Distribution {
  import opened GoTypes
  import opened ByteOrder
  import opened Bank
  import opened ProRata
  import opened Provider
  import opened Fees

  /******* Paying the validators *******/

  // What the validators whose operator address is a are owed together.
  function Owed(env: Env, fees: nat, vals: seq<Validator>, total: nat, a: Str): nat
    requires total > 0
  {
    if vals == [] then 0
    else (if env.parse(vals[0].operator) == Some(a) then Share(fees, vals[0].power, total) else 0)
         + Owed(env, fees, vals[1..], total, a)
  }

  predicate Readable(env: Env, vals: seq<Validator>)
  {
    forall v :: v in vals ==> env.parse(v.operator).Some?
  }

  // No validator is operated from the fee collector's own address.
  predicate Foreign(env: Env, vals: seq<Validator>)
  {
    forall v :: v in vals ==> env.parse(v.operator) != Some(CollectorAddress(env))
  }

  // One validator's turn.
  lemma PayOne(env: Env, b: Balances, denom: Str, fees: nat, vals: seq<Validator>, total: nat) returns (b': Balances)
    requires total > 0 && vals != [] && env.parse(vals[0].operator).Some?
    requires Bal(b, CollectorAddress(env), denom) >= Share(fees, vals[0].power, total)
    ensures Pay(env, b, denom, fees, vals, total) == Pay(env, b', denom, fees, vals[1..], total)
    ensures var to, share := env.parse(vals[0].operator).value, Share(fees, vals[0].power, total);
      forall a, d :: Bal(b', a, d) == Bal(b, a, d)
        - (if a == CollectorAddress(env) && d == denom then share else 0) + (if a == to && d == denom then share else 0)
  {
    hide Share, Send, Bal;
    var to, share := env.parse(vals[0].operator).value, Share(fees, vals[0].power, total);
    if share == 0 {
      b' := b;
    } else {
      SendIsFunded(b, CollectorAddress(env), to, denom, share);
      b' := Send(b, CollectorAddress(env), to, denom, share).value;
      forall a, d {
        SendEffect(b, CollectorAddress(env), to, denom, share, a, d);
      }
    }
  }

  lemma SendIsFunded(b: Balances, from: Str, to: Str, denom: Str, amount: nat)
    ensures Send(b, from, to, denom, amount).Some? <==> Bal(b, from, denom) >= amount
  {
  }

  // With the shares' sum in the fee collector no transfer of the loop is short of funds, whoever
  // the validators are: the only way to fail is an unreadable operator address.
  lemma {:induction false} PayNeverShort(env: Env, b: Balances, denom: Str, fees: nat, vals: seq<Validator>, total: nat)
    requires total > 0 && Bal(b, CollectorAddress(env), denom) >= SumShares(fees, vals, total)
    ensures Pay(env, b, denom, fees, vals, total).error == if Readable(env, vals) then None else Some(BadOperator)
    decreases |vals|
  {
    hide Share, Send, Bal;
    if vals != [] {
      assert forall v :: v in vals <==> v == vals[0] || v in vals[1..];
      if env.parse(vals[0].operator).Some? {
        var b' := PayOne(env, b, denom, fees, vals, total);
        PayNeverShort(env, b', denom, fees, vals[1..], total);
      }
    }
  }

  // Every payee gets what its validators are owed; the fee collector keeps what the shares leave.
  lemma {:induction false} PayEffect(env: Env, b: Balances, denom: Str, fees: nat, vals: seq<Validator>, total: nat, a: Str, d: Str)
    requires total > 0 && Bal(b, CollectorAddress(env), denom) >= SumShares(fees, vals, total)
    requires Readable(env, vals) && Foreign(env, vals)
    ensures Bal(Pay(env, b, denom, fees, vals, total).balances, a, d) ==
            if d != denom then Bal(b, a, d)
            else if a == CollectorAddress(env) then Bal(b, a, d) - SumShares(fees, vals, total)
            else Bal(b, a, d) + Owed(env, fees, vals, total, a)
    decreases |vals|
  {
    hide Share, Send, Bal;
    if vals != [] {
      assert vals[0] in vals;
      assert forall v :: v in vals[1..] ==> v in vals;
      var b' := PayOne(env, b, denom, fees, vals, total);
      PayEffect(env, b', denom, fees, vals[1..], total, a, d);
      if a == CollectorAddress(env) {
        assert Owed(env, fees, vals, total, a) == Owed(env, fees, vals[1..], total, a);
      }
    }
  }

  // Whoever the validators are, and wherever the loop stops, the fee collector gives up no more than the
  // shares' sum, and gains nothing.
  lemma {:induction false} PayTakes(env: Env, b: Balances, denom: Str, fees: nat, vals: seq<Validator>, total: nat)
    requires total > 0 && Bal(b, CollectorAddress(env), denom) >= SumShares(fees, vals, total)
    ensures var before, after := Bal(b, CollectorAddress(env), denom),
                                 Bal(Pay(env, b, denom, fees, vals, total).balances, CollectorAddress(env), denom);
      before - SumShares(fees, vals, total) <= after <= before
    decreases |vals|
  {
    hide Share, Send, Bal;
    if vals != [] && env.parse(vals[0].operator).Some? {
      var b' := PayOne(env, b, denom, fees, vals, total);
      PayTakes(env, b', denom, fees, vals[1..], total);
    }
  }

  /******* Conservation: no hypothesis on the store, the validators or the outcome *******/

  lemma {:induction false} PayConserves(env: Env, b: Balances, denom: Str, fees: nat, vals: seq<Validator>, total: nat, d: Str)
    requires total > 0
    ensures Supply(Pay(env, b, denom, fees, vals, total).balances, d) == Supply(b, d)
    ensures d != denom ==> forall a :: Bal(Pay(env, b, denom, fees, vals, total).balances, a, d) == Bal(b, a, d)
    decreases |vals|
  {
    hide Share, Supply;
    if vals != [] && env.parse(vals[0].operator).Some? {
      var to, share := env.parse(vals[0].operator).value, Share(fees, vals[0].power, total);
      if share == 0 {
        PayConserves(env, b, denom, fees, vals[1..], total, d);
      } else if Send(b, CollectorAddress(env), to, denom, share).Some? {
        SendConserves(b, CollectorAddress(env), to, denom, share, d);
        PayConserves(env, Send(b, CollectorAddress(env), to, denom, share).value, denom, fees, vals[1..], total, d);
      }
    }
  }

  lemma ChargeConserves(env: Env, l: Ledger, denom: Str, fee: nat, key: Str, d: Str)
    requires key in l.chains
    ensures Supply(Charge(env, l, denom, fee, key).ledger.balances, d) == Supply(l.balances, d)
    ensures d != denom ==> forall a :: Bal(Charge(env, l, denom, fee, key).ledger.balances, a, d) == Bal(l.balances, a, d)
    ensures Charge(env, l, denom, fee, key).ledger.params == l.params
  {
    hide Supply;
    var from := ConsumerAddress(env, l.chains[key].chainId);
    if Send(l.balances, from, CollectorAddress(env), denom, fee).Some? {
      SendConserves(l.balances, from, CollectorAddress(env), denom, fee, d);
    }
  }

  lemma {:induction false} CollectConserves(env: Env, l: Ledger, denom: Str, fee: nat, keys: seq<Str>, d: Str)
    requires forall k :: k in keys ==> k in l.chains
    ensures Supply(Collect(env, l, denom, fee, keys).ledger.balances, d) == Supply(l.balances, d)
    ensures d != denom ==>
              forall a :: Bal(Collect(env, l, denom, fee, keys).ledger.balances, a, d) == Bal(l.balances, a, d)
    ensures Collect(env, l, denom, fee, keys).ledger.params == l.params
    decreases |keys|
  {
    hide Supply, Charge, Bal;
    if keys != [] {
      ChargeConserves(env, l, denom, fee, keys[0], d);
      var first := Charge(env, l, denom, fee, keys[0]);
      if first.error.None? {
        CollectConserves(env, first.ledger, denom, fee, keys[1..], d);
      }
    }
  }

  // A BeginBlocker, successful or not, moves money only in the fee denomination and makes none.
  lemma BeginBlockConserves(env: Env, l: Ledger, bonded: Option<seq<Validator>>, d: Str)
    requires FeesNotNegative(l)
    ensures var l' := BeginBlock(env, l, bonded).ledger;
      && Supply(l'.balances, d) == Supply(l.balances, d)
      && (l.params.Some? && d != l.params.value.feesPerBlock.denom ==> forall a :: Bal(l'.balances, a, d) == Bal(l.balances, a, d))
      && l'.params == l.params
  {
    hide Supply, Collect, Pay, Bal, TotalPower, SortedKeys;
    if l.params.Some? && l.params.value.feesPerBlock.amount > 0 {
      var denom, fee := l.params.value.feesPerBlock.denom, l.params.value.feesPerBlock.amount;
      var keys := SortedKeys(l.chains.Keys);
      assert forall k :: k in keys ==> k in Elements(keys);
      CollectConserves(env, l, denom, fee, keys, d);
      var c := Collect(env, l, denom, fee, keys);
      if bonded.Some? && TotalPower(bonded.value) > 0 {
        PayConserves(env, c.ledger.balances, denom, c.total, bonded.value, TotalPower(bonded.value), d);
      }
    }
  }

  /******* One BeginBlocker *******/

  // What the collection of this block takes in.
  ghost function Revenue(env: Env, l: Ledger): nat
    requires FeesNotNegative(l)
  {
    if l.params.None? then 0
    else
      var coin := l.params.value.feesPerBlock;
      coin.amount * |Payers(env, l, coin.denom, coin.amount, l.chains.Keys)|
  }

  lemma CollectWholeStore(env: Env, l: Ledger, denom: Str, fee: nat)
    requires GoodEnv(env) && GoodLedger(env, l)
    ensures forall k :: k in SortedKeys(l.chains.Keys) ==> k in l.chains
    ensures var c := Collect(env, l, denom, fee, SortedKeys(l.chains.Keys));
      Collected(env, l, denom, fee, l.chains.Keys, c) && GoodLedger(env, c.ledger)
  {
    hide Collect, Collected, GoodEnv, GoodLedger;
    var keys := SortedKeys(l.chains.Keys);
    SortedDistinct(keys);
    assert forall k :: k in keys ==> k in Elements(keys);
    CollectEffect(env, l, denom, fee, keys);
  }

  // Exactly when a BeginBlocker fails, and with what.
  lemma BeginBlockErrors(env: Env, l: Ledger, bonded: Option<seq<Validator>>)
    requires GoodEnv(env) && GoodLedger(env, l)
    ensures BeginBlock(env, l, bonded).error ==
            if l.params.None? then Some(NoParams)
            else if Revenue(env, l) == 0 then None
            else if bonded.None? then Some(StakingFailed)
            else if bonded.value == [] then None
            else if TotalPower(bonded.value) == 0 then Some(ZeroPower)
            else if !Readable(env, bonded.value) then Some(BadOperator)
            else None
    ensures GoodLedger(env, BeginBlock(env, l, bonded).ledger)
  {
    hide Collect, Pay, Payers, GoodEnv, SortedKeys, TotalPower, SumShares, Powerful, Bal, BankCollected;
    if l.params.Some? {
      var denom, fee := l.params.value.feesPerBlock.denom, l.params.value.feesPerBlock.amount;
      CollectWholeStore(env, l, denom, fee);
      var c := Collect(env, l, denom, fee, SortedKeys(l.chains.Keys));
      if bonded.Some? && TotalPower(bonded.value) > 0 {
        SharesBound(c.total, bonded.value);
        PayNeverShort(env, c.ledger.balances, denom, c.total, bonded.value, TotalPower(bonded.value));
      }
    }
  }

  // A block the validators of which can all be paid, none of them out of the collector's own pocket.
  predicate Payable(env: Env, vals: seq<Validator>)
  {
    TotalPower(vals) > 0 && Readable(env, vals) && Foreign(env, vals)
  }

  /** The dust of one block: what stays in the fee collector is less than one unit for each
      validator with power; the rest of the revenue has reached the validators, share by share. */
  lemma BeginBlockDust(env: Env, l: Ledger, vals: seq<Validator>) returns (dust: nat)
    requires GoodEnv(env) && GoodLedger(env, l) && l.params.Some? && Payable(env, vals)
    ensures var denom := l.params.value.feesPerBlock.denom;
      var l' := BeginBlock(env, l, Some(vals)).ledger;
      && Bal(l'.balances, CollectorAddress(env), denom) == Bal(l.balances, CollectorAddress(env), denom) + dust
      && dust + SumShares(Revenue(env, l), vals, TotalPower(vals)) == Revenue(env, l)
    ensures dust < Powerful(vals) <= |vals|
  {
    hide Collect, Pay, Payers, GoodEnv, SortedKeys, TotalPower, SumShares, Powerful, Bal, BankCollected, Readable, Foreign;
    var denom, fee := l.params.value.feesPerBlock.denom, l.params.value.feesPerBlock.amount;
    var total := TotalPower(vals);
    PowerfulBounds(vals);
    CollectWholeStore(env, l, denom, fee);
    var c := Collect(env, l, denom, fee, SortedKeys(l.chains.Keys));
    SharesBound(c.total, vals);
    dust := c.total - SumShares(c.total, vals, total);
    if c.total > 0 {
      assert vals != [];
      PayEffect(env, c.ledger.balances, denom, c.total, vals, total, CollectorAddress(env), denom);
    }
  }

  /******* Who is better off after a block *******/

  lemma {:induction false} OwedSplit(env: Env, fees: nat, xs: seq<Validator>, ys: seq<Validator>, total: nat, a: Str)
    requires total > 0
    ensures Owed(env, fees, xs + ys, total, a) == Owed(env, fees, xs, total, a) + Owed(env, fees, ys, total, a)
    decreases |xs|
  {
    hide Share;
    if xs == [] {
      assert xs + ys == ys;
    } else {
      assert (xs + ys)[1..] == xs[1..] + ys;
      OwedSplit(env, fees, xs[1..], ys, total, a);
    }
  }

  lemma {:induction false} OwedNobody(env: Env, fees: nat, vals: seq<Validator>, total: nat, a: Str)
    requires total > 0 && forall i :: 0 <= i < |vals| ==> env.parse(vals[i].operator) != Some(a)
    ensures Owed(env, fees, vals, total, a) == 0
  {
    hide Share;
    if vals != [] {
      OwedNobody(env, fees, vals[1..], total, a);
    }
  }

  // The operator of exactly one validator is owed that validator's part of the fees by power, rounded down.
  lemma OwedMeans(env: Env, fees: nat, vals: seq<Validator>, total: nat, a: Str, i: nat)
    requires total > 0 && i < |vals|
    requires forall j :: 0 <= j < |vals| ==> (env.parse(vals[j].operator) == Some(a) <==> j == i)
    ensures Owed(env, fees, vals, total, a) == fees * vals[i].power / total
  {
    hide Owed;
    var before, it, after := vals[..i], [vals[i]], vals[i + 1..];
    assert vals == before + (it + after);
    OwedSplit(env, fees, before, it + after, total, a);
    OwedSplit(env, fees, it, after, total, a);
    OwedNobody(env, fees, before, total, a);
    OwedNobody(env, fees, after, total, a);
    OwedIt(env, fees, vals[i], total, a);
  }

  lemma OwedIt(env: Env, fees: nat, v: Validator, total: nat, a: Str)
    requires total > 0 && env.parse(v.operator) == Some(a)
    ensures Owed(env, fees, [v], total, a) == fees * v.power / total
  {
    assert [v][1..] == [];
    var none: seq<Validator> := [];
    assert Owed(env, fees, none, total, a) == 0;
  }

  lemma {:induction false} OwedNothing(env: Env, vals: seq<Validator>, total: nat, a: Str)
    requires total > 0
    ensures Owed(env, 0, vals, total, a) == 0 && SumShares(0, vals, total) == 0
  {
    if vals != [] {
      OwedNothing(env, vals[1..], total, a);
      assert 0 * vals[0].power == 0;
    }
  }

  // The account is a paying chain's.
  ghost predicate PayingAccount(env: Env, l: Ledger, denom: Str, fee: nat, a: Str)
  {
    exists k :: k in l.chains && Pays(env, l, denom, fee, k) && ConsumerAddress(env, k) == a
  }

  lemma CollectedBalance(env: Env, l: Ledger, denom: Str, fee: nat, c: Collection, a: Str, d: Str)
    requires GoodEnv(env) && GoodLedger(env, l) && Collected(env, l, denom, fee, l.chains.Keys, c)
    ensures Bal(c.ledger.balances, a, d) == Bal(l.balances, a, d)
              - (if d == denom && PayingAccount(env, l, denom, fee, a) then fee else 0)
              + (if d == denom && a == CollectorAddress(env) then c.total else 0)
  {
    hide Bal, GoodEnv, GoodLedger, Pays, StoreCollected;
    if d == denom {
      if k :| k in l.chains && ConsumerAddress(env, k) == a {
        AddressesDistinct(env, k, k);
        forall x | x in l.chains && ConsumerAddress(env, x) == a ensures x == k {
          AddressesDistinct(env, x, k);
        }
        assert Bal(c.ledger.balances, ConsumerAddress(env, k), denom) == DebitedBal(env, l, denom, fee, k);
      } else if a != CollectorAddress(env) {
        assert !Touched(env, l.chains.Keys, a);
      }
    }
  }

  /** Every account after a block that pays its validators, in every denomination: it has what it had, less
      the fee if it is a paying chain's, plus what the validators it operates are owed out of the block's
      revenue, plus the dust if it is the fee collector. */
  lemma BeginBlockPays(env: Env, l: Ledger, vals: seq<Validator>, a: Str, d: Str) returns (dust: nat)
    requires GoodEnv(env) && GoodLedger(env, l) && l.params.Some? && Payable(env, vals)
    ensures var Coin(denom, fee) := l.params.value.feesPerBlock;
      Bal(BeginBlock(env, l, Some(vals)).ledger.balances, a, d) == Bal(l.balances, a, d)
        - (if d == denom && PayingAccount(env, l, denom, fee, a) then fee else 0)
        + (if d == denom then Owed(env, Revenue(env, l), vals, TotalPower(vals), a) else 0)
        + (if d == denom && a == CollectorAddress(env) then dust else 0)
    ensures dust == Revenue(env, l) - SumShares(Revenue(env, l), vals, TotalPower(vals))
    ensures dust < Powerful(vals) <= |vals|
  {
    hide Collect, Pay, Payers, Pays, GoodEnv, SortedKeys, TotalPower, SumShares, Powerful, Bal, Owed, BankCollected, Readable,
         Foreign, PayingAccount;
    var denom, fee := l.params.value.feesPerBlock.denom, l.params.value.feesPerBlock.amount;
    var total := TotalPower(vals);
    PowerfulBounds(vals);
    CollectWholeStore(env, l, denom, fee);
    var c := Collect(env, l, denom, fee, SortedKeys(l.chains.Keys));
    SharesBound(c.total, vals);
    dust := c.total - SumShares(c.total, vals, total);
    CollectedBalance(env, l, denom, fee, c, a, d);
    OwedNothing(env, vals, total, a);
    CollectorOwedNothing(env, c.total, vals, total);
    if c.total > 0 {
      assert vals != [];
      PayEffect(env, c.ledger.balances, denom, c.total, vals, total, a, d);
    }
  }

  lemma CollectorOwedNothing(env: Env, fees: nat, vals: seq<Validator>, total: nat)
    requires total > 0 && Foreign(env, vals)
    ensures Owed(env, fees, vals, total, CollectorAddress(env)) == 0
  {
    hide Owed;
    OwedNobody(env, fees, vals, total, CollectorAddress(env));
  }

  // A block whose validators are unknown or have no power pays nobody: the revenue stays where it is.
  lemma BeginBlockUnpaid(env: Env, l: Ledger, bonded: Option<seq<Validator>>, a: Str, d: Str)
    requires GoodEnv(env) && GoodLedger(env, l) && l.params.Some?
    requires bonded.None? || TotalPower(bonded.value) == 0
    ensures var Coin(denom, fee) := l.params.value.feesPerBlock;
      Bal(BeginBlock(env, l, bonded).ledger.balances, a, d) == Bal(l.balances, a, d)
        - (if d == denom && PayingAccount(env, l, denom, fee, a) then fee else 0)
        + (if d == denom && a == CollectorAddress(env) then Revenue(env, l) else 0)
  {
    hide Collect, Pay, Payers, Pays, GoodEnv, SortedKeys, Bal, BankCollected, PayingAccount;
    var denom, fee := l.params.value.feesPerBlock.denom, l.params.value.feesPerBlock.amount;
    CollectWholeStore(env, l, denom, fee);
    CollectedBalance(env, l, denom, fee, Collect(env, l, denom, fee, SortedKeys(l.chains.Keys)), a, d);
  }

  /** The store after a block, whatever the staking module answers: with a fee, each ACTIVE (2) or OVERDUE (5)
      chain is ACTIVE if its account covered the fee when the block started and OVERDUE if not; nothing else
      is changed. Without parameters or with a fee of zero nothing at all is changed. */
  lemma BeginBlockStatuses(env: Env, l: Ledger, bonded: Option<seq<Validator>>, k: Str)
    requires GoodEnv(env) && GoodLedger(env, l)
    ensures var r := BeginBlock(env, l, bonded);
      && r.ledger.params == l.params && r.ledger.accounts == l.accounts
      && (l.params.None? || l.params.value.feesPerBlock.amount == 0 ==> r.ledger == l)
      && (k in r.ledger.chains <==> k in l.chains)
      && (k in l.chains ==>
            var c := l.chains[k];
            r.ledger.chains[k] ==
              if l.params.None? || l.params.value.feesPerBlock.amount == 0 || (c.status != 2 && c.status != 5) then c
              else if Bal(l.balances, ConsumerAddress(env, k), l.params.value.feesPerBlock.denom)
                      >= l.params.value.feesPerBlock.amount then c.(status := 2)
              else c.(status := 5))
  {
    hide Collect, Pay, Payers, GoodEnv, SortedKeys, TotalPower, Bal, BankCollected;
    if l.params.Some? && l.params.value.feesPerBlock.amount > 0 {
      var denom, fee := l.params.value.feesPerBlock.denom, l.params.value.feesPerBlock.amount;
      CollectWholeStore(env, l, denom, fee);
    }
  }

  // What one block can leave in the fee collector at most, in denomination d: its dust if its validators
  // can be paid, all of its revenue if not.
  ghost function MostLeft(env: Env, l: Ledger, bonded: Option<seq<Validator>>, d: Str): nat
    requires FeesNotNegative(l)
  {
    if l.params.None? || l.params.value.feesPerBlock.denom != d then 0
    else if bonded.Some? && Payable(env, bonded.value) then
      PayableIsNotEmpty(env, bonded.value);
      |bonded.value| - 1
    else Revenue(env, l)
  }

  lemma PayableIsNotEmpty(env: Env, vals: seq<Validator>)
    requires Payable(env, vals)
    ensures vals != []
  {
  }

  // Any block, failing or not: the fee collector does not shrink and keeps at most its revenue.
  lemma BeginBlockKeeps(env: Env, l: Ledger, bonded: Option<seq<Validator>>)
    requires GoodEnv(env) && GoodLedger(env, l) && l.params.Some?
    ensures var denom := l.params.value.feesPerBlock.denom;
      var before, after := Bal(l.balances, CollectorAddress(env), denom),
                           Bal(BeginBlock(env, l, bonded).ledger.balances, CollectorAddress(env), denom);
      before <= after <= before + Revenue(env, l)
  {
    hide Collect, Pay, Payers, GoodEnv, SortedKeys, TotalPower, SumShares, Powerful, Bal, BankCollected;
    var denom, fee := l.params.value.feesPerBlock.denom, l.params.value.feesPerBlock.amount;
    CollectWholeStore(env, l, denom, fee);
    var c := Collect(env, l, denom, fee, SortedKeys(l.chains.Keys));
    if fee > 0 && c.total > 0 && bonded.Some? && TotalPower(bonded.value) > 0 {
      SharesBound(c.total, bonded.value);
      PayTakes(env, c.ledger.balances, denom, c.total, bonded.value, TotalPower(bonded.value));
    }
  }

  lemma BeginBlockLeaves(env: Env, l: Ledger, bonded: Option<seq<Validator>>, d: Str)
    requires GoodEnv(env) && GoodLedger(env, l)
    ensures var before, after := Bal(l.balances, CollectorAddress(env), d),
                                 Bal(BeginBlock(env, l, bonded).ledger.balances, CollectorAddress(env), d);
      before <= after <= before + MostLeft(env, l, bonded, d)
  {
    hide BeginBlock, Bal, GoodEnv, Supply, Payable, Revenue, Powerful, SumShares;
    if l.params.None? || l.params.value.feesPerBlock.denom != d {
      BeginBlockElsewhere(env, l, bonded, d);
    } else if bonded.Some? && Payable(env, bonded.value) {
      PayableIsNotEmpty(env, bonded.value);
      var dust := BeginBlockDust(env, l, bonded.value);
    } else {
      BeginBlockKeeps(env, l, bonded);
    }
  }

  lemma BeginBlockElsewhere(env: Env, l: Ledger, bonded: Option<seq<Validator>>, d: Str)
    requires FeesNotNegative(l) && (l.params.None? || l.params.value.feesPerBlock.denom != d)
    ensures forall a :: Bal(BeginBlock(env, l, bonded).ledger.balances, a, d) == Bal(l.balances, a, d)
  {
    hide Supply, Bal, Collect, Pay;
    BeginBlockConserves(env, l, bonded, d);
  }

  /******* Runs *******/

  // Consecutive BeginBlockers, one staking answer each.
  ghost function Blocks(env: Env, l: Ledger, answers: seq<Option<seq<Validator>>>): Ledger
    requires FeesNotNegative(l)
    decreases |answers|
  {
    if answers == [] then l
    else
      BeginBlockConserves(env, l, answers[0], []);
      Blocks(env, BeginBlock(env, l, answers[0]).ledger, answers[1..])
  }

  // Whatever the store, the validators and the errors, no run changes a supply, and no run touches
  // a balance outside the fee denomination.
  lemma {:induction false} RunConserves(env: Env, l: Ledger, answers: seq<Option<seq<Validator>>>, d: Str)
    requires FeesNotNegative(l)
    ensures Supply(Blocks(env, l, answers).balances, d) == Supply(l.balances, d)
    ensures l.params.Some? && d != l.params.value.feesPerBlock.denom ==>
              forall a :: Bal(Blocks(env, l, answers).balances, a, d) == Bal(l.balances, a, d)
    decreases |answers|
  {
    hide BeginBlock, Supply, Bal;
    if answers != [] {
      BeginBlockConserves(env, l, answers[0], d);
      RunConserves(env, BeginBlock(env, l, answers[0]).ledger, answers[1..], d);
    }
  }

  function MaxDust(answers: seq<Option<seq<Validator>>>): nat
    requires forall i :: 0 <= i < |answers| ==> answers[i].Some? && |answers[i].value| >= 1
  {
    if answers == [] then 0 else |answers[0].value| - 1 + MaxDust(answers[1..])
  }

  /** Over a run of blocks with payable validators the fee collector never shrinks, and what it
      gains is at most the sum of the validator counts, each less one. */
  lemma {:induction false} RunDust(env: Env, l: Ledger, answers: seq<Option<seq<Validator>>>)
    requires GoodEnv(env) && GoodLedger(env, l) && l.params.Some?
    requires forall i :: 0 <= i < |answers| ==> answers[i].Some? && Payable(env, answers[i].value)
    ensures forall i :: 0 <= i < |answers| ==> |answers[i].value| >= 1
    ensures var denom := l.params.value.feesPerBlock.denom;
      var before, after := Bal(l.balances, CollectorAddress(env), denom),
                           Bal(Blocks(env, l, answers).balances, CollectorAddress(env), denom);
      before <= after <= before + MaxDust(answers)
    decreases |answers|
  {
    hide BeginBlock, Bal, GoodEnv, Payable, Revenue, Supply;
    if answers != [] {
      var l' := BeginBlock(env, l, answers[0]).ledger;
      BeginBlockConserves(env, l, answers[0], []);
      BeginBlockErrors(env, l, answers[0]);
      var dust := BeginBlockDust(env, l, answers[0].value);
      forall i | 0 <= i < |answers[1..]| ensures answers[1..][i].Some? && Payable(env, answers[1..][i].value) {
        assert answers[1..][i] == answers[i + 1];
      }
      RunDust(env, l', answers[1..]);
      forall i | 0 <= i < |answers| ensures |answers[i].value| >= 1 {
        assert i > 0 ==> answers[i] == answers[1..][i - 1];
      }
    }
  }
}
