/** The bank behind BankKeeper: balances by address and denomination, and transfers. */
module Bank {
  import opened GoTypes

  type Account = (Str, Str)        // address, denomination
  type Balances = map<Account, nat>

  function Bal(b: Balances, address: Str, denom: Str): nat
  {
    if (address, denom) in b then b[(address, denom)] else 0
  }

  // Fails exactly when the sender is short of funds. Sender and recipient may be the same.
  function Send(b: Balances, from: Str, to: Str, denom: Str, amount: nat): Option<Balances>
  {
    if Bal(b, from, denom) < amount then None
    else
      var debited := b[(from, denom) := Bal(b, from, denom) - amount];
      Some(debited[(to, denom) := Bal(debited, to, denom) + amount])
  }

  lemma SendEffect(b: Balances, from: Str, to: Str, denom: Str, amount: nat, a: Str, d: Str)
    requires Send(b, from, to, denom, amount).Some?
    ensures Bal(Send(b, from, to, denom, amount).value, a, d) ==
            Bal(b, a, d) - (if a == from && d == denom then amount else 0) + (if a == to && d == denom then amount else 0)
  {
  }

  /******* Total supply *******/

  function Held(b: Balances, k: Account, denom: Str): nat
  {
    if k in b && k.1 == denom then b[k] else 0
  }

  ghost function Sum(ks: set<Account>, b: Balances, denom: Str): nat
  {
    if ks == {} then 0 else var k :| k in ks; Held(b, k, denom) + Sum(ks - {k}, b, denom)
  }

  ghost function Supply(b: Balances, denom: Str): nat
  {
    Sum(b.Keys, b, denom)
  }

  lemma {:induction false} SumPick(ks: set<Account>, b: Balances, denom: Str, k: Account)
    requires k in ks
    ensures Sum(ks, b, denom) == Held(b, k, denom) + Sum(ks - {k}, b, denom)
  {
    var j :| j in ks && Sum(ks, b, denom) == Held(b, j, denom) + Sum(ks - {j}, b, denom);
    if j != k {
      SumPick(ks - {j}, b, denom, k);
      SumPick(ks - {k}, b, denom, j);
      assert ks - {j} - {k} == ks - {k} - {j};
    }
  }

  lemma {:induction false} SumFrame(ks: set<Account>, b: Balances, c: Balances, denom: Str)
    requires forall k :: k in ks ==> Held(b, k, denom) == Held(c, k, denom)
    ensures Sum(ks, b, denom) == Sum(ks, c, denom)
  {
    if ks != {} {
      var k :| k in ks;
      SumPick(ks, b, denom, k);
      SumPick(ks, c, denom, k);
      SumFrame(ks - {k}, b, c, denom);
    }
  }

  lemma SetBalance(b: Balances, k: Account, v: nat, denom: Str)
    ensures Supply(b[k := v], denom) == Supply(b, denom) - Held(b, k, denom) + (if k.1 == denom then v else 0)
  {
    var c := b[k := v];
    var others := b.Keys - {k};
    SumFrame(others, b, c, denom);
    SumPick(c.Keys, c, denom, k);
    assert c.Keys - {k} == others;
    if k in b {
      SumPick(b.Keys, b, denom, k);
    } else {
      assert others == b.Keys;
    }
  }

  // A transfer creates and destroys nothing, in any denomination.
  lemma SendConserves(b: Balances, from: Str, to: Str, denom: Str, amount: nat, d: Str)
    requires Send(b, from, to, denom, amount).Some?
    ensures Supply(Send(b, from, to, denom, amount).value, d) == Supply(b, d)
  {
    var debited := b[(from, denom) := Bal(b, from, denom) - amount];
    SetBalance(b, (from, denom), Bal(b, from, denom) - amount, d);
    SetBalance(debited, (to, denom), Bal(debited, to, denom) + amount, d);
  }
}
