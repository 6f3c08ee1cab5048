/**
 * The coin-handling commands
 * (src/VendingMachine.Application/Handlers/VendingMachineHandlers.cs):
 * deposit a batch of coins, buy (delegated to the service) and reset the
 * deposit.
 */
module VendingMachineHandlers {
  import opened Wrappers
  import opened DomainExceptions
  import opened Text
  import opened Coin
  import opened Store
  import opened Dtos
  import VendingMachineService

  /**
   * The checks on one (denomination, count) entry: the denomination first,
   * then the count.
   */
  function CoinEntryError(entry: (int, int)): (e: Option<DomainError>)
    ensures !IsValidDenomination(entry.0) ==> e == Some(InvalidCoin(entry.0))
    ensures IsValidDenomination(entry.0) && entry.1 <= 0 ==>
      e == Some(DomainException("Coin count must be positive for denomination " + IntToString(entry.0)))
    ensures e.None? <==> IsValidDenomination(entry.0) && entry.1 > 0
  {
    if !IsValidDenomination(entry.0) then Some(InvalidCoin(entry.0))
    else if entry.1 <= 0 then
      Some(DomainException("Coin count must be positive for denomination " + IntToString(entry.0)))
    else None
  }

  /** The validation loop over a batch: the first entry that fails decides the error. */
  function ValidateCoins(coins: CoinBatch): (e: Option<DomainError>)
    ensures e.None? <==> WellFormedChange(coins)
    ensures e.Some? ==>
      exists i :: 0 <= i < |coins| && CoinEntryError(coins[i]) == e
        && forall j :: 0 <= j < i ==> CoinEntryError(coins[j]).None?
  {
    if coins == [] then None
    else if CoinEntryError(coins[0]).Some? then CoinEntryError(coins[0])
    else
      var e := ValidateCoins(coins[1..]);
      if e.Some? then
        var k :| 0 <= k < |coins[1..]| && CoinEntryError(coins[1..][k]) == e
          && forall j :: 0 <= j < k ==> CoinEntryError(coins[1..][j]).None?;
        assert CoinEntryError(coins[k + 1]) == e;
        assert forall j :: 0 <= j < k + 1 ==> CoinEntryError(coins[j]).None? by {
          forall j | 0 <= j < k + 1
            ensures CoinEntryError(coins[j]).None?
          {
            if j > 0 {
              assert coins[j] == coins[1..][j - 1];
            }
          }
        }
        e
      else
        assert forall i :: 1 <= i < |coins| ==> coins[i] == coins[1..][i - 1];
        e
  }

  function DepositMessage(depositAmount: int, newDeposit: int): string {
    "Successfully deposited " + IntToString(depositAmount) + " cents. New balance: "
      + IntToString(newDeposit) + " cents."
  }

  /**
   * `DepositHandler.Handle`. A missing user is reported before any coin is
   * looked at; one bad entry rejects the whole batch; otherwise the batch's
   * value is added to the deposit and the new deposit is reported.
   */
  function Deposit(s: State, userId: string, coins: CoinBatch): (r: Outcome<(State, DepositResponseDto)>)
    requires DistinctKeys(coins)
    ensures userId !in s.users ==> r == Err(UserNotFound(userId))
    ensures userId in s.users && !WellFormedChange(coins) ==>
      r.Err? && Some(r.error) == ValidateCoins(coins)
    ensures r.Ok? <==> userId in s.users && WellFormedChange(coins)
    ensures r.Ok? ==>
      var (s', response) := r.value;
      var newDeposit := s.users[userId].deposit + CalculateTotal(coins);
      && userId in s'.users
      && s'.users[userId] == s.users[userId].(deposit := newDeposit)
      && response.newDeposit == newDeposit
      && response.message == DepositMessage(CalculateTotal(coins), newDeposit)
      && s'.users.Keys == s.users.Keys && OtherUsersUnchanged(s, s', userId)
      && s'.products == s.products
  {
    if userId !in s.users then Err(UserNotFound(userId))
    else
      var invalid := ValidateCoins(coins);
      if invalid.Some? then Err(invalid.value)
      else
        var depositAmount := CalculateTotal(coins);
        var newDeposit := s.users[userId].deposit + depositAmount;
        var s' := UpdateDeposit(s, userId, newDeposit).value;
        Ok((s', DepositResponseDto(newDeposit, DepositMessage(depositAmount, newDeposit))))
  }

  /**
   * A successful deposit never lowers the balance and keeps a balance that
   * is a multiple of 5 a multiple of 5.
   */
  lemma DepositNeverDecreases(s: State, userId: string, coins: CoinBatch)
    requires DistinctKeys(coins)
    requires Deposit(s, userId, coins).Ok?
    ensures var newDeposit := Deposit(s, userId, coins).value.1.newDeposit;
      && newDeposit >= s.users[userId].deposit
      && (s.users[userId].deposit % 5 == 0 ==> newDeposit % 5 == 0)
  {
    var before, total := s.users[userId].deposit, CalculateTotal(coins);
    assert Deposit(s, userId, coins).value.1.newDeposit == before + total;
    TotalOfCoinsIsNonNegative(coins);
    TotalOfCoinsIsMultipleOf5(coins);
    assert before % 5 == 0 ==> before + total == 5 * (before / 5 + total / 5);
  }

  /** 100 cents plus one 100 and two 50s make a balance of 300. */
  lemma DepositExample300()
    ensures var s := State(map["user1" := User("u1", "u1@example.com", 100, ["buyer"])], map[]);
      var r := Deposit(s, "user1", [(100, 1), (50, 2)]);
      r.Ok? && r.value.1.newDeposit == 300 && r.value.0.users["user1"].deposit == 300
  {
    assert WellFormedChange([(100, 1), (50, 2)]);
  }

  /** A fresh balance plus two 100s and one 50 is 250. */
  lemma DepositExample250()
    ensures var s := State(map["user2" := User("u2", "u2@example.com", 0, ["buyer"])], map[]);
      var r := Deposit(s, "user2", [(100, 2), (50, 1)]);
      r.Ok? && r.value.1.newDeposit == 250
  {
    assert WellFormedChange([(100, 2), (50, 1)]);
  }

  /**
   * An invalid denomination rejects the batch with `InvalidCoin`, even with a
   * count of 0, since the denomination is checked first.
   */
  lemma DepositInvalidCoinExamples()
    ensures var s := State(map["user1" := User("u1", "u1@example.com", 100, ["buyer"])], map[]);
      && Deposit(s, "user1", [(15, 1)]) == Err(InvalidCoin(15))
      && Deposit(s, "user1", [(15, 0)]) == Err(InvalidCoin(15))
      && Deposit(s, "user1", [(100, 1), (15, 1)]) == Err(InvalidCoin(15))
  {
    assert !IsValidDenomination([(15, 1)][0].0);
    assert !IsValidDenomination([(15, 0)][0].0);
    assert !IsValidDenomination([(100, 1), (15, 1)][1].0);
    assert CoinEntryError((100, 1)).None?;
  }

  /** `BuyHandler.Handle` returns what the service returns, unchanged. */
  function Buy(s: State, userId: string, request: BuyRequestDto): (r: Outcome<(State, BuyResponseDto)>)
    requires ValidBuyRequest(request)
    ensures r == VendingMachineService.BuyProduct(s, userId, request.productId, request.amount)
  {
    VendingMachineService.BuyProduct(s, userId, request.productId, request.amount)
  }

  /**
   * `ResetDepositHandler.Handle`: the deposit of an existing user becomes 0
   * and no coins are handed back.
   */
  function ResetDeposit(s: State, userId: string): (r: Outcome<State>)
    ensures userId !in s.users <==> r.Err?
    ensures r.Err? ==> r.error == UserNotFound(userId)
    ensures r.Ok? ==>
      && userId in r.value.users
      && r.value.users[userId] == s.users[userId].(deposit := 0)
      && r.value.users.Keys == s.users.Keys && OtherUsersUnchanged(s, r.value, userId)
      && r.value.products == s.products
  {
    if userId !in s.users then Err(UserNotFound(userId))
    else UpdateDeposit(s, userId, 0)
  }
}
