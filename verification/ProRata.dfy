/** The arithmetic of fee distribution: truncated shares of an amount by voting power. */
module ProRata {
  import opened GoTypes

  datatype Validator = Validator(operator: Str, power: nat)

  function TotalPower(vals: seq<Validator>): nat
  {
    if vals == [] then 0 else vals[0].power + TotalPower(vals[1..])
  }

  // totalFees.Amount.Mul(valPower).Quo(totalPower): both operands are not negative.
  function Share(fees: nat, power: nat, total: nat): nat
    requires total > 0
  {
    fees * power / total
  }

  function SumShares(fees: nat, vals: seq<Validator>, total: nat): nat
    requires total > 0
  {
    if vals == [] then 0
    else Share(fees, vals[0].power, total) + SumShares(fees, vals[1..], total)
  }

  function Powerful(vals: seq<Validator>): nat
  {
    if vals == [] then 0 else (if vals[0].power > 0 then 1 else 0) + Powerful(vals[1..])
  }

  lemma ShareRemainder(fees: nat, power: nat, total: nat) returns (r: nat)
    requires total > 0
    ensures total * Share(fees, power, total) + r == fees * power
    ensures r < total && (power == 0 ==> r == 0)
  {
    r := fees * power % total;
    if power == 0 {
      assert fees * power == 0;
    }
  }

  /******* Products *******/

  lemma MulAdd(t: int, a: int, b: int)
    ensures t * (a + b) == t * a + t * b
  {
  }

  lemma MulMono(t: nat, a: int, b: int)
    requires a <= b
    ensures t * a <= t * b
  {
    MulAdd(t, a, b - a);
    MulNat(t, b - a);
  }

  lemma MulNat(a: nat, b: nat)
    ensures a * b >= 0
  {
  }

  lemma Squeeze(fees: nat, total: nat, s: nat, n: nat, cut: nat)
    requires total > 0 && n > 0
    requires total * s + cut == total * fees && cut <= (total - 1) * n
    ensures s <= fees < s + n
  {
    if s > fees {
      MulMono(total, fees + 1, s);
      MulAdd(total, fees, 1);
    } else if fees >= s + n {
      MulMono(total, s + n, fees);
      MulAdd(total, s, n);
      MulAdd(n, total - 1, 1);
    }
  }

  // What the divisions cut off, added up over the validators.
  lemma {:induction false} CutOff(fees: nat, vals: seq<Validator>, total: nat) returns (cut: nat)
    requires total > 0
    ensures total * SumShares(fees, vals, total) + cut == fees * TotalPower(vals)
    ensures cut <= (total - 1) * Powerful(vals)
  {
    hide Share;
    if vals == [] {
      cut := 0;
    } else {
      var v, rest := vals[0], vals[1..];
      var cut0 := CutOff(fees, rest, total);
      var cut1 := ShareRemainder(fees, v.power, total);
      cut := cut0 + cut1;
      MulAdd(total, SumShares(fees, rest, total), Share(fees, v.power, total));
      MulAdd(fees, TotalPower(rest), v.power);
      MulAdd(total - 1, Powerful(rest), 1);
    }
  }

  // The shares never exceed the amount and leave less than one unit per validator with power.
  lemma SharesBound(fees: nat, vals: seq<Validator>)
    requires TotalPower(vals) > 0
    ensures var s := SumShares(fees, vals, TotalPower(vals)); s <= fees < s + Powerful(vals)
    ensures Powerful(vals) <= |vals|
  {
    hide SumShares, TotalPower, Powerful;
    var total := TotalPower(vals);
    var cut := CutOff(fees, vals, total);
    PowerfulBounds(vals);
    Squeeze(fees, total, SumShares(fees, vals, total), Powerful(vals), cut);
  }

  lemma {:induction false} PowerfulBounds(vals: seq<Validator>)
    ensures Powerful(vals) <= |vals|
    ensures TotalPower(vals) > 0 ==> Powerful(vals) > 0
  {
    if vals != [] {
      PowerfulBounds(vals[1..]);
    }
  }

  // More power, no smaller share; equal power, equal share.
  lemma ShareMonotone(fees: nat, p: nat, q: nat, total: nat)
    requires total > 0 && p <= q
    ensures Share(fees, p, total) <= Share(fees, q, total)
  {
    hide Share;
    var r0 := ShareRemainder(fees, p, total);
    var r1 := ShareRemainder(fees, q, total);
    var a, b := Share(fees, p, total), Share(fees, q, total);
    MulMono(fees, p, q);
    if b < a {
      MulMono(total, b + 1, a);
      MulAdd(total, b, 1);
    }
  }
}
