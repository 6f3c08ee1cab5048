/**
 * The denomination set {5, 10, 20, 50, 100} is canonical: the greedy
 * breakdown of `Coin.CalculateChange` never uses more coins than any other
 * way of paying the same amount. The source does not claim this; it is
 * proved here separately from the behavioural properties.
 */
module ChangeOptimality {
  import opened Coin

  /** The number of coins the greedy breakdown of `a` uses. */
  function GreedyCoinCount(a: int): int {
    a / 100 + a % 100 / 50 + a % 50 / 20 + a % 50 % 20 / 10 + a % 10 / 5
  }

  /** The value of a purse holding the given number of each coin. */
  function PurseValue(n100: int, n50: int, n20: int, n10: int, n5: int): int {
    100 * n100 + 50 * n50 + 20 * n20 + 10 * n10 + 5 * n5
  }

  /**
   * A purse with at most one 5, at most one 10, at most two 20s (and no 10
   * beside two 20s) and at most one 50 holds as many coins as greedy pays
   * out for its value.
   */
  lemma CanonicalPurseIsGreedy(n100: nat, n50: nat, n20: nat, n10: nat, n5: nat)
    requires n5 <= 1 && n10 <= 1 && n20 <= 2 && !(n20 == 2 && n10 == 1) && n50 <= 1
    ensures GreedyCoinCount(PurseValue(n100, n50, n20, n10, n5)) == n100 + n50 + n20 + n10 + n5
  {
    var a := PurseValue(n100, n50, n20, n10, n5);
    var ten := 10 * n10 + 5 * n5;
    var low := 20 * n20 + ten;
    var mid := 50 * n50 + low;
    DivModByCoin(a, 100, n100, mid);
    DivModByCoin(mid, 50, n50, low);
    DivModByCoin(a, 50, 2 * n100 + n50, low);
    DivModByCoin(low, 20, n20, ten);
    DivModByCoin(ten, 10, n10, 5 * n5);
    DivModByCoin(a, 10, 10 * n100 + 5 * n50 + 2 * n20 + n10, 5 * n5);
    DivModByCoin(5 * n5, 5, n5, 0);
  }

  /** Quotient and remainder by a denomination are the unique ones. */
  lemma DivModByCoin(x: int, d: int, q: int, r: int)
    requires IsValidDenomination(d) && 0 <= r < d && x == d * q + r
    ensures x / d == q && x % d == r
  {
    if d == 5 {
    } else if d == 10 {
    } else if d == 20 {
    } else if d == 50 {
    } else {
    }
  }

  /**
   * No purse pays `PurseValue(...)` with fewer coins than greedy. A purse that
   * is not canonical can be exchanged for one with fewer coins of the same
   * value: 5+5 for 10, 10+10 for 20, 20+20+10 for 50, 20+20+20 for 50+10,
   * 50+50 for 100.
   */
  lemma {:induction false} GreedyIsFewest(n100: nat, n50: nat, n20: nat, n10: nat, n5: nat)
    ensures GreedyCoinCount(PurseValue(n100, n50, n20, n10, n5)) <= n100 + n50 + n20 + n10 + n5
    decreases n100 + n50 + n20 + n10 + n5
  {
    if n5 >= 2 {
      GreedyIsFewest(n100, n50, n20, n10 + 1, n5 - 2);
    } else if n10 >= 2 {
      GreedyIsFewest(n100, n50, n20 + 1, n10 - 2, n5);
    } else if n20 >= 2 && n10 >= 1 {
      GreedyIsFewest(n100, n50 + 1, n20 - 2, n10 - 1, n5);
    } else if n20 >= 3 {
      GreedyIsFewest(n100, n50 + 1, n20 - 3, n10 + 1, n5);
    } else if n50 >= 2 {
      GreedyIsFewest(n100 + 1, n50 - 2, n20, n10, n5);
    } else {
      CanonicalPurseIsGreedy(n100, n50, n20, n10, n5);
    }
  }

  /** A batch of coins is worth the purse that counts it per denomination. */
  lemma {:induction false} BatchAsPurse(coins: CoinBatch)
    requires forall i :: 0 <= i < |coins| ==> IsValidDenomination(coins[i].0)
    ensures CalculateTotal(coins)
         == PurseValue(CountOf(coins, 100), CountOf(coins, 50), CountOf(coins, 20),
                       CountOf(coins, 10), CountOf(coins, 5))
  {
    if coins != [] {
      var rest := coins[1..];
      BatchAsPurse(rest);
      var d, c := coins[0].0, coins[0].1;
      PurseAdd(d, c, CountOf(rest, 100), CountOf(rest, 50), CountOf(rest, 20),
               CountOf(rest, 10), CountOf(rest, 5));
    }
  }

  /** A batch of coins holds as many coins as its per-denomination counts add up to. */
  lemma {:induction false} BatchCoinCount(coins: CoinBatch)
    requires forall i :: 0 <= i < |coins| ==> IsValidDenomination(coins[i].0)
    ensures CoinCount(coins)
         == CountOf(coins, 100) + CountOf(coins, 50) + CountOf(coins, 20)
          + CountOf(coins, 10) + CountOf(coins, 5)
  {
    if coins != [] {
      BatchCoinCount(coins[1..]);
    }
  }

  /** Adding `c` coins of denomination `d` to a purse. */
  lemma PurseAdd(d: int, c: int, m100: int, m50: int, m20: int, m10: int, m5: int)
    requires IsValidDenomination(d)
    ensures d * c + PurseValue(m100, m50, m20, m10, m5)
         == PurseValue(m100 + (if d == 100 then c else 0), m50 + (if d == 50 then c else 0),
                       m20 + (if d == 20 then c else 0), m10 + (if d == 10 then c else 0),
                       m5 + (if d == 5 then c else 0))
  {
  }

  lemma {:induction false} CountOfNonNegative(coins: CoinBatch, d: int)
    requires forall i :: 0 <= i < |coins| ==> coins[i].1 >= 0
    ensures CountOf(coins, d) >= 0
  {
    if coins != [] {
      CountOfNonNegative(coins[1..], d);
    }
  }

  /** The greedy breakdown uses as many coins as the greedy quotients say. */
  lemma ChangeCoinCount(a: int)
    requires a >= 0
    ensures CoinCount(CalculateChange(a)) == GreedyCoinCount(a)
  {
    ChangeIsLargestFirst(a);
    var t100, t50, t20, t10, t5 :=
      Take(100, a), Take(50, a % 100), Take(20, a % 50), Take(10, a % 50 % 20), Take(5, a % 10);
    CoinCountAppend(t10, t5);
    CoinCountAppend(t20, t10 + t5);
    CoinCountAppend(t50, t20 + (t10 + t5));
    CoinCountAppend(t100, t50 + (t20 + (t10 + t5)));
    TakeValue(100, a);
    TakeValue(50, a % 100);
    TakeValue(20, a % 50);
    TakeValue(10, a % 50 % 20);
    TakeValue(5, a % 10);
  }

  /**
   * Fewest coins: paying out the value of any batch of coins, greedy uses no
   * more coins than that batch holds.
   */
  lemma ChangeIsFewestCoins(coins: CoinBatch)
    requires forall i :: 0 <= i < |coins| ==> IsValidDenomination(coins[i].0) && coins[i].1 >= 0
    ensures CoinCount(CalculateChange(CalculateTotal(coins))) <= CoinCount(coins)
  {
    BatchAsPurse(coins);
    BatchCoinCount(coins);
    var n100, n50, n20, n10, n5 :=
      CountOf(coins, 100), CountOf(coins, 50), CountOf(coins, 20), CountOf(coins, 10), CountOf(coins, 5);
    CountOfNonNegative(coins, 100);
    CountOfNonNegative(coins, 50);
    CountOfNonNegative(coins, 20);
    CountOfNonNegative(coins, 10);
    CountOfNonNegative(coins, 5);
    GreedyIsFewest(n100, n50, n20, n10, n5);
    ChangeCoinCount(CalculateTotal(coins));
  }
}
