/** The amount of a renewed budget under the four rollover policies, over one cycle and over whole chains. */
module Rollover {
  import opened Prelude

  datatype RolloverMode = Reset | Surplus | Deficit | Net

  datatype Carried = Carried(amount: int, rollover: int)

  /** The switch of renewSingleBudget; amounts are in hundredths. */
  function Carry(mode: RolloverMode, base: int, spent: int): Carried {
    var remaining := base - spent;
    match mode
    case Surplus => if remaining > 0 then Carried(base + remaining, remaining) else Carried(base, 0)
    case Deficit => if remaining < 0 then Carried(Max(0, base + remaining), remaining) else Carried(base, 0)
    case Net => Carried(Max(0, base + remaining), remaining)
    case Reset => Carried(base, 0)
  }

  /** What each policy carries over: money left, money overspent, both, or nothing; never below zero in all. */
  lemma CarriedIs(mode: RolloverMode, base: int, spent: int)
    requires base >= 0
    ensures var carried := Carry(mode, base, spent);
      && carried.rollover == (match mode
           case Surplus => if spent < base then base - spent else 0
           case Deficit => if spent > base then base - spent else 0
           case Net => base - spent
           case Reset => 0)
      && carried.amount == (if base + carried.rollover < 0 then 0 else base + carried.rollover)
  {
  }

  /** The new amount is the old one plus what was carried over, but never negative. */
  lemma CarriedAmount(mode: RolloverMode, base: int, spent: int)
    requires base >= 0
    ensures Carry(mode, base, spent).amount == Max(0, base + Carry(mode, base, spent).rollover)
  {
  }

  /** The net policy is the surplus policy on money left over and the deficit policy otherwise. */
  lemma NetIsSurplusOrDeficit(base: int, spent: int)
    requires base >= 0
    ensures Carry(Net, base, spent) == Carry(if base - spent > 0 then Surplus else Deficit, base, spent)
  {
  }

  /** The amount after one renewal for each of the spendings, every base being the previous amount. */
  function Chain(mode: RolloverMode, base: int, spendings: seq<int>): int {
    if spendings == [] then base
    else Carry(mode, Chain(mode, base, spendings[..|spendings| - 1]), spendings[|spendings| - 1]).amount
  }

  predicate NonNegative(s: seq<int>) {
    forall i :: 0 <= i < |s| ==> s[i] >= 0
  }

  lemma {:induction false} ChainNonNegative(mode: RolloverMode, base: int, spendings: seq<int>)
    requires base >= 0
    ensures Chain(mode, base, spendings) >= 0
    decreases |spendings|
  {
    if spendings != [] {
      ChainNonNegative(mode, base, spendings[..|spendings| - 1]);
    }
  }

  lemma {:induction false} ChainMonotone(mode: RolloverMode, base: int, spendings: seq<int>, m: nat, n: nat)
    requires base >= 0 && m <= n <= |spendings|
    ensures mode == Surplus ==> Chain(mode, base, spendings[..m]) <= Chain(mode, base, spendings[..n])
    ensures mode == Deficit ==> Chain(mode, base, spendings[..n]) <= Chain(mode, base, spendings[..m])
    ensures mode == Reset ==> Chain(mode, base, spendings[..n]) == Chain(mode, base, spendings[..m])
    decreases n - m
  {
    if m < n {
      ChainMonotone(mode, base, spendings, m, n - 1);
      ChainNonNegative(mode, base, spendings[..n - 1]);
      assert spendings[..n][..n - 1] == spendings[..n - 1];
    }
  }

  /** Once a deficit or net chain reaches zero it stays there. */
  lemma {:induction false} ZeroAbsorbs(mode: RolloverMode, base: int, spendings: seq<int>, m: nat, n: nat)
    requires base >= 0 && NonNegative(spendings) && m <= n <= |spendings|
    requires mode == Deficit || mode == Net
    requires Chain(mode, base, spendings[..m]) == 0
    ensures Chain(mode, base, spendings[..n]) == 0
    decreases n - m
  {
    if m < n {
      ZeroAbsorbs(mode, base, spendings, m, n - 1);
      assert spendings[..n][..n - 1] == spendings[..n - 1];
    }
  }

  function Power2(n: nat): (r: nat)
    ensures r >= 1
  {
    if n == 0 then 1 else 2 * Power2(n - 1)
  }

  /** The sum of 2^(n-1-k) * s[k] over the n spendings. */
  function Weighted(s: seq<int>): int {
    if s == [] then 0 else Power2(|s| - 1) * s[0] + Weighted(s[1..])
  }

  lemma {:induction false} WeightedSnoc(s: seq<int>, x: int)
    ensures Weighted(s + [x]) == 2 * Weighted(s) + x
    decreases |s|
  {
    if s == [] {
      assert (s + [x])[1..] == [];
    } else {
      WeightedSnoc(s[1..], x);
      assert (s + [x])[1..] == s[1..] + [x];
      assert Power2(|s|) * s[0] == 2 * (Power2(|s| - 1) * s[0]);
    }
  }

  /**
   A net chain doubles the first amount at every cycle and doubles every spending from the cycle after it on,
   cut off at zero: what is spent early outweighs what is spent late.
   */
  lemma {:induction false} NetChainClosedForm(base: int, spendings: seq<int>)
    requires base >= 0 && NonNegative(spendings)
    ensures Chain(Net, base, spendings) == Max(0, Power2(|spendings|) * base - Weighted(spendings))
    decreases |spendings|
  {
    if spendings != [] {
      var n := |spendings| - 1;
      var before, last := spendings[..n], spendings[n];
      NetChainClosedForm(base, before);
      WeightedSnoc(before, last);
      assert spendings == before + [last];
      assert Power2(n + 1) * base == 2 * (Power2(n) * base);
    }
  }
}
