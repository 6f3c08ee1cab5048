/**
 * Coin arithmetic (src/VendingMachine.Domain/ValueObjects/Coin.cs): the fixed
 * denomination set, the membership test, the greedy change breakdown and the
 * batch total.
 *
 * A coin batch is the source's `Dictionary<int, int>` from denomination to
 * count, written as a sequence of (denomination, count) pairs with distinct
 * denominations; the sequence order stands for the dictionary's enumeration
 * order.
 */
module Coin {

  /** The accepted coin values in cents, in declaration order. */
  const ValidDenominations: seq<int> := [5, 10, 20, 50, 100]

  /** The denominations largest first: the order in which change is paid out. */
  const Descending: seq<int> := [100, 50, 20, 10, 5]

  type CoinBatch = seq<(int, int)>

  function IsValidDenomination(value: int): (valid: bool)
    ensures valid <==> value == 5 || value == 10 || value == 20 || value == 50 || value == 100
    ensures valid ==> value > 0 && value % 5 == 0
  {
    value in ValidDenominations
  }

  /** `Descending` is the denomination set sorted largest first. */
  lemma DescendingSortsDenominations()
    ensures forall d :: d in Descending <==> IsValidDenomination(d)
    ensures |Descending| == |ValidDenominations|
    ensures AllPositive(Descending) && StrictlyDecreasing(Descending)
  {
  }

  /** A dictionary never holds the same key twice. */
  predicate DistinctKeys(coins: CoinBatch) {
    forall i, j :: 0 <= i < j < |coins| ==> coins[i].0 != coins[j].0
  }

  /** Every key is a coin and every count at least one. */
  predicate WellFormedChange(coins: CoinBatch) {
    forall i :: 0 <= i < |coins| ==> IsValidDenomination(coins[i].0) && coins[i].1 >= 1
  }

  predicate StrictlyDecreasing(ds: seq<int>) {
    forall i, j :: 0 <= i < j < |ds| ==> ds[i] > ds[j]
  }

  predicate AllPositive(ds: seq<int>) {
    forall i :: 0 <= i < |ds| ==> ds[i] > 0
  }

  /** Σ denomination × count. */
  function CalculateTotal(coins: CoinBatch): int {
    if coins == [] then 0 else coins[0].0 * coins[0].1 + CalculateTotal(coins[1..])
  }

  /** The number of coins in a batch. */
  function CoinCount(coins: CoinBatch): int {
    if coins == [] then 0 else coins[0].1 + CoinCount(coins[1..])
  }

  /** How many coins of denomination `d` the batch holds. */
  function CountOf(coins: CoinBatch, d: int): int {
    if coins == [] then 0
    else (if coins[0].0 == d then coins[0].1 else 0) + CountOf(coins[1..], d)
  }

  /**
   * The greedy loop of `CalculateChange` over the denominations `ds`: take as
   * many of the first denomination as fit (only when at least one does),
   * continue with the remainder.
   */
  function PayOut(amount: int, ds: seq<int>): (change: CoinBatch)
    requires AllPositive(ds) && StrictlyDecreasing(ds)
    decreases |ds|
  {
    if ds == [] then []
    else if amount >= ds[0] then [(ds[0], amount / ds[0])] + PayOut(amount % ds[0], ds[1..])
    else PayOut(amount, ds[1..])
  }

  /** The denominations of a batch, in order. */
  function Keys(coins: CoinBatch): (ks: seq<int>)
    ensures |ks| == |coins| && forall i :: 0 <= i < |coins| ==> ks[i] == coins[i].0
  {
    seq(|coins|, i requires 0 <= i < |coins| => coins[i].0)
  }

  /** Keys strictly decrease, so none repeats. */
  predicate LargestFirst(coins: CoinBatch) {
    StrictlyDecreasing(Keys(coins))
  }

  /**
   * The greedy loop only emits denominations it was given, each with a
   * positive count, in the order it was given them.
   */
  lemma {:induction false} PayOutShape(amount: int, ds: seq<int>)
    requires AllPositive(ds) && StrictlyDecreasing(ds)
    ensures var change := PayOut(amount, ds);
      && (forall i :: 0 <= i < |change| ==> change[i].0 in ds && change[i].1 >= 1)
      && LargestFirst(change)
    decreases |ds|
  {
    if ds != [] {
      var rest := ds[1..];
      if amount >= ds[0] {
        PayOutShape(amount % ds[0], rest);
        var tail := PayOut(amount % ds[0], rest);
        var change := [(ds[0], amount / ds[0])] + tail;
        assert amount / ds[0] >= 1;
        forall i | 0 <= i < |change|
          ensures change[i].0 in ds && change[i].1 >= 1
        {
          if i > 0 {
            assert change[i] == tail[i - 1];
            assert tail[i - 1].0 in rest;
          }
        }
        forall i, j | 0 <= i < j < |change|
          ensures Keys(change)[i] > Keys(change)[j]
        {
          assert change[j] == tail[j - 1];
          assert tail[j - 1].0 in rest;
          if i > 0 {
            assert change[i] == tail[i - 1];
          }
        }
      } else {
        PayOutShape(amount, rest);
      }
    }
  }

  /**
   * The change for `amount`: coins only, each with a positive count, largest
   * first and so with distinct keys.
   */
  function CalculateChange(amount: int): (change: CoinBatch)
    ensures WellFormedChange(change)
    ensures LargestFirst(change) && DistinctKeys(change)
  {
    PayOutShape(amount, Descending);
    PayOut(amount, Descending)
  }

  /** The coins of one denomination taken from `remaining`; none if not even one fits. */
  function Take(d: int, remaining: int): CoinBatch
    requires d > 0
  {
    if remaining >= d then [(d, remaining / d)] else []
  }

  /** Facts about remainders by nested divisors that the greedy steps rely on. */
  lemma ModHundredFifty(a: int)
    requires a >= 0
    ensures a % 100 % 50 == a % 50
  {
  }

  lemma ModTwentyTen(x: int)
    requires x >= 0
    ensures x % 20 % 10 == x % 10
  {
  }

  lemma ModFiftyTen(a: int)
    requires a >= 0
    ensures a % 50 % 10 == a % 10
  {
  }

  lemma ModHundredTen(a: int)
    requires a >= 0
    ensures a % 100 % 10 == a % 10
  {
  }

  /** The greedy loop from 10 cents down. */
  lemma PayFrom10(r: int)
    requires r >= 0
    ensures PayOut(r, [10, 5]) == Take(10, r) + Take(5, r % 10)
  {
    if r < 10 {
      assert r % 10 == r;
    }
    if r % 10 < 5 {
      assert r % 10 % 5 == r % 10;
    }
  }

  /** The greedy loop from 20 cents down. */
  lemma PayFrom20(r: int)
    requires r >= 0
    ensures PayOut(r, [20, 10, 5]) == Take(20, r) + (Take(10, r % 20) + Take(5, r % 10))
  {
    var x := r % 20;
    assert PayOut(r, [20, 10, 5]) == Take(20, r) + PayOut(x, [10, 5]) by {
      if r < 20 {
        assert x == r;
      }
    }
    PayFrom10(x);
    ModTwentyTen(r);
  }

  /** The greedy loop from 50 cents down. */
  lemma PayFrom50(r: int)
    requires r >= 0
    ensures PayOut(r, [50, 20, 10, 5])
         == Take(50, r) + (Take(20, r % 50) + (Take(10, r % 50 % 20) + Take(5, r % 10)))
  {
    var x := r % 50;
    assert PayOut(r, [50, 20, 10, 5]) == Take(50, r) + PayOut(x, [20, 10, 5]) by {
      if r < 50 {
        assert x == r;
      }
    }
    PayFrom20(x);
    ModFiftyTen(r);
  }

  /**
   * Largest first: each count is the quotient of what the larger denominations
   * left over, and a denomination is absent exactly when that remainder is
   * below it.
   */
  lemma ChangeIsLargestFirst(amount: int)
    requires amount >= 0
    ensures CalculateChange(amount)
         == Take(100, amount) + (Take(50, amount % 100) + (Take(20, amount % 50)
          + (Take(10, amount % 50 % 20) + Take(5, amount % 10))))
  {
    var x := amount % 100;
    assert CalculateChange(amount) == Take(100, amount) + PayOut(x, [50, 20, 10, 5]) by {
      if amount < 100 {
        assert x == amount;
      }
    }
    PayFrom50(x);
    ModHundredFifty(amount);
    ModHundredTen(amount);
  }

  /** Nothing is paid out for zero or a negative amount. */
  lemma ChangeOfNonPositive(amount: int)
    requires amount <= 0
    ensures CalculateChange(amount) == []
  {
    var ds := Descending;
    assert ds[1..] == [50, 20, 10, 5];
    assert ds[1..][1..] == [20, 10, 5];
    assert ds[1..][1..][1..] == [10, 5];
    assert ds[1..][1..][1..][1..] == [5];
  }

  lemma {:induction false} TotalAppend(a: CoinBatch, b: CoinBatch)
    ensures CalculateTotal(a + b) == CalculateTotal(a) + CalculateTotal(b)
  {
    if a == [] {
      assert a + b == b;
    } else {
      assert (a + b)[1..] == a[1..] + b;
      TotalAppend(a[1..], b);
    }
  }

  lemma {:induction false} CoinCountAppend(a: CoinBatch, b: CoinBatch)
    ensures CoinCount(a + b) == CoinCount(a) + CoinCount(b)
  {
    if a == [] {
      assert a + b == b;
    } else {
      assert (a + b)[1..] == a[1..] + b;
      CoinCountAppend(a[1..], b);
    }
  }

  lemma TakeValue(d: int, remaining: int)
    requires d > 0 && remaining >= 0
    ensures CalculateTotal(Take(d, remaining)) == d * (remaining / d)
    ensures CoinCount(Take(d, remaining)) == remaining / d
  {
  }

  /** The value of the breakdown, through the largest-first form. */
  lemma ChangeTotalExact(amount: int)
    requires amount >= 0
    ensures CalculateTotal(CalculateChange(amount))
         == 100 * (amount / 100) + 50 * (amount % 100 / 50) + 20 * (amount % 50 / 20)
          + 10 * (amount % 50 % 20 / 10) + 5 * (amount % 10 / 5)
  {
    ChangeIsLargestFirst(amount);
    var t100, t50, t20, t10, t5 :=
      Take(100, amount), Take(50, amount % 100), Take(20, amount % 50),
      Take(10, amount % 50 % 20), Take(5, amount % 10);
    TotalAppend(t10, t5);
    TotalAppend(t20, t10 + t5);
    TotalAppend(t50, t20 + (t10 + t5));
    TotalAppend(t100, t50 + (t20 + (t10 + t5)));
    TakeValue(100, amount);
    TakeValue(50, amount % 100);
    TakeValue(20, amount % 50);
    TakeValue(10, amount % 50 % 20);
    TakeValue(5, amount % 10);
  }

  lemma Split(x: int, d: int)
    requires d > 0
    ensures x == d * (x / d) + x % d
  {
  }

  /** The five greedy quotients, weighted by their denominations, add up to `a` less its residue below 5. */
  lemma GreedyQuotientsSum(a: int)
    requires a >= 0
    ensures 100 * (a / 100) + 50 * (a % 100 / 50) + 20 * (a % 50 / 20)
          + 10 * (a % 50 % 20 / 10) + 5 * (a % 10 / 5) == a - a % 5
  {
    var q1, q2, q3, q4, q5 := a / 100, a % 100 / 50, a % 50 / 20, a % 50 % 20 / 10, a % 10 / 5;
    var x1, x2, x3, x4 := a % 100, a % 50, a % 50 % 20, a % 10;
    Split(a, 100);
    assert x1 == 50 * q2 + x2 by {
      Split(x1, 50);
      ModHundredFifty(a);
    }
    Split(x2, 20);
    assert x3 == 10 * q4 + x4 by {
      Split(x3, 10);
      ModTwentyTen(x2);
      ModFiftyTen(a);
    }
    assert x4 == 5 * q5 + a % 5 by {
      Split(x4, 5);
      ModTenFive(a);
    }
  }

  lemma ModTenFive(a: int)
    requires a >= 0
    ensures a % 10 % 5 == a % 5
  {
  }

  /**
   * For any non-negative amount the breakdown is worth the amount less its
   * residue below 5: the residue is dropped without an error.
   */
  lemma ChangeDropsResidue(amount: int)
    requires amount >= 0
    ensures CalculateTotal(CalculateChange(amount)) == amount - amount % 5
  {
    ChangeTotalExact(amount);
    GreedyQuotientsSum(amount);
  }

  /** A non-negative multiple of 5 is paid out exactly. */
  lemma ChangeTotal(amount: int)
    requires amount >= 0 && amount % 5 == 0
    ensures CalculateTotal(CalculateChange(amount)) == amount
  {
    ChangeDropsResidue(amount);
  }

  /** The small breakdowns the unit tests pin down. */
  lemma ChangeExamplesSmall()
    ensures CalculateChange(0) == []
    ensures CalculateChange(5) == [(5, 1)]
  {
    ChangeIsLargestFirst(0);
    ChangeIsLargestFirst(5);
  }

  /** 165 cents come back as 100 + 50 + 10 + 5. */
  lemma ChangeExample165()
    ensures CalculateChange(165) == [(100, 1), (50, 1), (10, 1), (5, 1)]
  {
    ChangeIsLargestFirst(165);
  }

  /** 275 cents come back as 2 × 100 + 50 + 20 + 5. */
  lemma ChangeExample275()
    ensures CalculateChange(275) == [(100, 2), (50, 1), (20, 1), (5, 1)]
  {
    ChangeIsLargestFirst(275);
  }

  /** A batch of coins is worth a multiple of 5; the empty batch is worth 0. */
  lemma {:induction false} TotalOfCoinsIsMultipleOf5(coins: CoinBatch)
    requires forall i :: 0 <= i < |coins| ==> IsValidDenomination(coins[i].0)
    ensures CalculateTotal(coins) % 5 == 0
    ensures coins == [] ==> CalculateTotal(coins) == 0
  {
    if coins != [] {
      TotalOfCoinsIsMultipleOf5(coins[1..]);
      MultipleOf5Step(coins[0].0, coins[0].1, CalculateTotal(coins[1..]));
    }
  }

  lemma MultipleOf5Step(d: int, c: int, rest: int)
    requires d % 5 == 0 && rest % 5 == 0
    ensures (d * c + rest) % 5 == 0
  {
    var k, m := (d / 5) * c, rest / 5;
    assert d * c == 5 * k by {
      assert d == 5 * (d / 5);
    }
    assert d * c + rest == 5 * (k + m);
  }

  /** A batch of coins with positive counts is worth something non-negative. */
  lemma {:induction false} TotalOfCoinsIsNonNegative(coins: CoinBatch)
    requires WellFormedChange(coins)
    ensures CalculateTotal(coins) >= 0
  {
    if coins != [] {
      TotalOfCoinsIsNonNegative(coins[1..]);
      var d, c := coins[0].0, coins[0].1;
      assert d * c >= 0;
    }
  }
}
