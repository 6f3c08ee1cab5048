/**
 * The purchase (src/VendingMachine.Application/Services/VendingMachineService.cs):
 * four checks in a fixed order, then the stock write, the deposit reset and
 * the response with the change.
 */
module VendingMachineService {
  import opened Wrappers
  import opened DomainExceptions
  import opened Coin
  import opened Store
  import opened Dtos

  /** All four checks of a purchase pass. */
  predicate CanBuy(s: State, userId: string, productId: int, amount: int) {
    && userId in s.users
    && productId in s.products
    && s.products[productId].amountAvailable >= amount
    && s.users[userId].deposit >= s.products[productId].cost * amount
  }

  /** `amount` copies of a snapshot, or none when `amount` is not positive. */
  function Copies(dto: ProductDto, amount: int): (list: seq<ProductDto>)
    ensures |list| == if amount > 0 then amount else 0
    ensures forall i :: 0 <= i < |list| ==> list[i] == dto
  {
    seq(if amount > 0 then amount else 0, _ => dto)
  }

  /**
   * `BuyProductAsync`. The first failing check decides the error; on success
   * the product loses `amount` units of stock, the buyer's deposit drops to 0
   * whatever was left over, and the response carries the cost, one snapshot of
   * the product per unit bought (with the stock after the purchase) and the
   * change for the leftover.
   */
  function BuyProduct(s: State, userId: string, productId: int, amount: int)
    : (r: Outcome<(State, BuyResponseDto)>)
    ensures userId !in s.users ==> r == Err(UserNotFound(userId))
    ensures userId in s.users && productId !in s.products ==> r == Err(ProductNotFound(productId))
    ensures userId in s.users && productId in s.products && s.products[productId].amountAvailable < amount ==>
      var p := s.products[productId];
      r == Err(InsufficientStock(p.productName, amount, p.amountAvailable))
    ensures userId in s.users && productId in s.products && s.products[productId].amountAvailable >= amount ==>
      var totalCost, deposit := s.products[productId].cost * amount, s.users[userId].deposit;
      deposit < totalCost ==> r == Err(InsufficientFunds(totalCost, deposit))
    ensures r.Ok? <==> CanBuy(s, userId, productId, amount)
    ensures r.Ok? ==>
      var (s', response) := r.value;
      var user, product := s.users[userId], s.products[productId];
      && productId in s'.products && userId in s'.users
      && s'.products[productId] == product.(amountAvailable := product.amountAvailable - amount)
      && s'.products[productId].amountAvailable >= 0
      && s'.users[userId] == user.(deposit := 0)
      && s'.users.Keys == s.users.Keys && OtherUsersUnchanged(s, s', userId)
      && s'.products.Keys == s.products.Keys && OtherProductsUnchanged(s, s', productId)
      && response.totalSpent == product.cost * amount
      && response.change == CalculateChange(user.deposit - product.cost * amount)
      && |response.productsPurchased| == (if amount > 0 then amount else 0)
      && forall i :: 0 <= i < |response.productsPurchased| ==>
           response.productsPurchased[i] == ProductDtoOf(s, productId, s'.products[productId])
  {
    if userId !in s.users then Err(UserNotFound(userId))
    else if productId !in s.products then Err(ProductNotFound(productId))
    else
      var user, product := s.users[userId], s.products[productId];
      if product.amountAvailable < amount then
        Err(InsufficientStock(product.productName, amount, product.amountAvailable))
      else
        var totalCost := product.cost * amount;
        if user.deposit < totalCost then Err(InsufficientFunds(totalCost, user.deposit))
        else
          var change := CalculateChange(user.deposit - totalCost);
          var sold := product.(amountAvailable := product.amountAvailable - amount);
          var afterStock := SaveProduct(s, productId, sold);
          var afterDeposit := UpdateDeposit(afterStock, userId, 0).value;
          Ok((afterDeposit, BuyResponseDto(totalCost, Copies(ProductDtoOf(s, productId, sold), amount), change)))
  }

  /**
   * Money conservation: when the deposit and the cost are multiples of 5, what
   * was spent plus the change returned is exactly the deposit before.
   */
  lemma BuyConservesMoney(s: State, userId: string, productId: int, amount: int)
    requires CanBuy(s, userId, productId, amount)
    requires s.users[userId].deposit % 5 == 0 && s.products[productId].cost % 5 == 0
    ensures var response := BuyProduct(s, userId, productId, amount).value.1;
      response.totalSpent + CalculateTotal(response.change) == s.users[userId].deposit
  {
    var deposit, cost := s.users[userId].deposit, s.products[productId].cost;
    assert (cost * amount) % 5 == 0 by {
      assert cost * amount == 5 * ((cost / 5) * amount);
    }
    ChangeTotal(deposit - cost * amount);
  }

  /**
   * Without the multiple-of-5 assumption the leftover's residue below 5 is
   * neither spent nor returned: the deposit is reset and those cents are lost.
   */
  lemma BuyDropsResidue(s: State, userId: string, productId: int, amount: int)
    requires CanBuy(s, userId, productId, amount)
    ensures var deposit := s.users[userId].deposit;
      var response := BuyProduct(s, userId, productId, amount).value.1;
      && response.totalSpent + CalculateTotal(response.change)
           == deposit - (deposit - response.totalSpent) % 5
      && BuyProduct(s, userId, productId, amount).value.0.users[userId].deposit == 0
  {
    var deposit := s.users[userId].deposit;
    var response := BuyProduct(s, userId, productId, amount).value.1;
    var spent := response.totalSpent;
    var leftover := deposit - spent;
    assert leftover >= 0 && response.change == CalculateChange(leftover);
    ChangeDropsResidue(leftover);
  }

  /** A buyer with 10 cents buying one product that costs 7 gets no change: 3 cents vanish. */
  lemma BuyResidueExample()
    ensures var s := State(map["b" := User("buyer1", "buyer1@example.com", 10, ["buyer"])],
                           map[1 := Product("Gum", 4, 7, "s")]);
      var r := BuyProduct(s, "b", 1, 1);
      && r.Ok?
      && r.value.1.totalSpent == 7
      && r.value.1.change == []
      && r.value.0.users["b"].deposit == 0
  {
    var s := State(map["b" := User("buyer1", "buyer1@example.com", 10, ["buyer"])],
                   map[1 := Product("Gum", 4, 7, "s")]);
    assert CanBuy(s, "b", 1, 1);
    ChangeOfNonPositive(0);
    assert CalculateChange(3) == [] by {
      ChangeIsLargestFirst(3);
    }
  }

  /** Buying a 100-cent product with 275 cents: 100 spent, 175 returned, balance 0. */
  lemma BuyEmptiesBalanceExample()
    ensures var s := State(map["b" := User("buyer1", "buyer1@example.com", 275, ["buyer"])],
                           map[1 := Product("Cola", 10, 100, "s")]);
      var r := BuyProduct(s, "b", 1, 1);
      && r.Ok?
      && r.value.1.totalSpent == 100
      && CalculateTotal(r.value.1.change) == 175
      && r.value.0.users["b"].deposit == 0
      && r.value.0.products[1].amountAvailable == 9
  {
    var s := State(map["b" := User("buyer1", "buyer1@example.com", 275, ["buyer"])],
                   map[1 := Product("Cola", 10, 100, "s")]);
    assert CanBuy(s, "b", 1, 1);
    ChangeTotal(175);
  }

  /**
   * The last unit cannot be sold twice: after one buyer takes it, a second
   * purchase of it fails with `InsufficientStock`.
   */
  lemma LastUnitSoldOnce(s: State, buyer1: string, buyer2: string, productId: int)
    requires CanBuy(s, buyer1, productId, 1) && s.products[productId].amountAvailable == 1
    requires buyer2 in s.users
    ensures var s' := BuyProduct(s, buyer1, productId, 1).value.0;
      var p := s'.products[productId];
      BuyProduct(s', buyer2, productId, 1) == Err(InsufficientStock(p.productName, 1, 0))
  {
    var s' := BuyProduct(s, buyer1, productId, 1).value.0;
    assert buyer2 in s'.users by {
      assert s'.users.Keys == s.users.Keys;
    }
  }
}
