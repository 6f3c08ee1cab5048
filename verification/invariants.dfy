/**
 * The state every command keeps: balances are whole multiples of the smallest
 * coin, stock is never negative, products satisfy the ranges their requests
 * were validated against, and user names are unique.
 */
module Invariants {
  import opened Coin
  import opened Store
  import opened Dtos
  import VendingMachineService
  import VendingMachineHandlers
  import ProductHandlers
  import UserHandlers

  predicate ValidBalance(u: User) {
    u.deposit >= 0 && u.deposit % 5 == 0
  }

  predicate ValidProduct(p: Product) {
    && p.amountAvailable >= 0
    && p.cost >= 5
    && Required(p.productName) && LengthIn(p.productName, 1, 100)
  }

  predicate Consistent(s: State) {
    && (forall id :: id in s.users ==> ValidBalance(s.users[id]))
    && (forall id :: id in s.products ==> ValidProduct(s.products[id]))
    && UniqueUsernames(s)
  }

  lemma DepositKeepsConsistent(s: State, userId: string, coins: CoinBatch)
    requires DistinctKeys(coins)
    requires Consistent(s)
    requires VendingMachineHandlers.Deposit(s, userId, coins).Ok?
    ensures Consistent(VendingMachineHandlers.Deposit(s, userId, coins).value.0)
  {
    var s' := VendingMachineHandlers.Deposit(s, userId, coins).value.0;
    VendingMachineHandlers.DepositNeverDecreases(s, userId, coins);
    forall id | id in s'.users ensures ValidBalance(s'.users[id]) {
      if id != userId {
        assert s'.users[id] == s.users[id];
      }
    }
    forall a, b | a in s'.users && b in s'.users && s'.users[a].userName == s'.users[b].userName
      ensures a == b
    {
      assert s.users[a].userName == s'.users[a].userName;
      assert s.users[b].userName == s'.users[b].userName;
    }
  }

  lemma BuyKeepsConsistent(s: State, userId: string, productId: int, amount: int)
    requires Consistent(s)
    requires VendingMachineService.BuyProduct(s, userId, productId, amount).Ok?
    ensures Consistent(VendingMachineService.BuyProduct(s, userId, productId, amount).value.0)
  {
    var s' := VendingMachineService.BuyProduct(s, userId, productId, amount).value.0;
    forall id | id in s'.users ensures ValidBalance(s'.users[id]) {
      if id != userId {
        assert s'.users[id] == s.users[id];
      }
    }
    forall id | id in s'.products ensures ValidProduct(s'.products[id]) {
      if id != productId {
        assert s'.products[id] == s.products[id];
      }
    }
    forall a, b | a in s'.users && b in s'.users && s'.users[a].userName == s'.users[b].userName
      ensures a == b
    {
      assert s.users[a].userName == s'.users[a].userName;
      assert s.users[b].userName == s'.users[b].userName;
    }
  }

  lemma ResetKeepsConsistent(s: State, userId: string)
    requires Consistent(s)
    requires VendingMachineHandlers.ResetDeposit(s, userId).Ok?
    ensures Consistent(VendingMachineHandlers.ResetDeposit(s, userId).value)
  {
    var s' := VendingMachineHandlers.ResetDeposit(s, userId).value;
    forall id | id in s'.users ensures ValidBalance(s'.users[id]) {
      if id != userId {
        assert s'.users[id] == s.users[id];
      }
    }
    forall a, b | a in s'.users && b in s'.users && s'.users[a].userName == s'.users[b].userName
      ensures a == b
    {
      assert s.users[a].userName == s'.users[a].userName;
      assert s.users[b].userName == s'.users[b].userName;
    }
  }

  lemma CreateProductKeepsConsistent(s: State, request: ProductCreateDto, sellerId: string, newId: int)
    requires ValidProductCreate(request) && newId !in s.products
    requires Consistent(s)
    requires ProductHandlers.CreateProduct(s, request, sellerId, newId).Ok?
    ensures Consistent(ProductHandlers.CreateProduct(s, request, sellerId, newId).value.0)
  {
    var s' := ProductHandlers.CreateProduct(s, request, sellerId, newId).value.0;
    forall id | id in s'.products ensures ValidProduct(s'.products[id]) {
      if id != newId {
        assert s'.products[id] == s.products[id];
      }
    }
  }

  lemma UpdateProductKeepsConsistent(s: State, id: int, request: ProductUpdateDto, sellerId: string)
    requires ValidProductUpdate(request)
    requires Consistent(s)
    requires ProductHandlers.UpdateProduct(s, id, request, sellerId).Ok?
    ensures Consistent(ProductHandlers.UpdateProduct(s, id, request, sellerId).value.0)
  {
    var s' := ProductHandlers.UpdateProduct(s, id, request, sellerId).value.0;
    forall other | other in s'.products ensures ValidProduct(s'.products[other]) {
      if other != id {
        assert s'.products[other] == s.products[other];
      }
    }
  }

  lemma DeleteProductKeepsConsistent(s: State, id: int, sellerId: string)
    requires Consistent(s)
    requires ProductHandlers.DeleteProduct(s, id, sellerId).Ok?
    ensures Consistent(ProductHandlers.DeleteProduct(s, id, sellerId).value)
  {
    var s' := ProductHandlers.DeleteProduct(s, id, sellerId).value;
    forall other | other in s'.products ensures ValidProduct(s'.products[other]) {
      assert s'.products[other] == s.products[other];
    }
  }

  lemma CreateUserKeepsConsistent(s: State, request: UserRegistrationDto, newId: string)
    requires ValidRegistration(request) && newId !in s.users
    requires Consistent(s)
    requires UserHandlers.CreateUser(s, request, newId).Ok?
    ensures Consistent(UserHandlers.CreateUser(s, request, newId).value.0)
  {
    var s' := UserHandlers.CreateUser(s, request, newId).value.0;
    UserHandlers.CreateKeepsUsernamesUnique(s, request, newId);
    forall id | id in s'.users ensures ValidBalance(s'.users[id]) {
      if id != newId {
        assert s'.users[id] == s.users[id];
      }
    }
  }

  lemma UpdateUserKeepsConsistent(s: State, id: string, request: UserUpdateDto, currentUserId: string)
    requires ValidUserUpdate(request)
    requires Consistent(s)
    requires UserHandlers.UpdateUser(s, id, request, currentUserId).Ok?
    ensures Consistent(UserHandlers.UpdateUser(s, id, request, currentUserId).value.0)
  {
    var s' := UserHandlers.UpdateUser(s, id, request, currentUserId).value.0;
    UserHandlers.UpdateKeepsUsernamesUnique(s, id, request, currentUserId);
    forall other | other in s'.users ensures ValidBalance(s'.users[other]) {
      if other != id {
        assert s'.users[other] == s.users[other];
      }
    }
  }

  lemma DeleteUserKeepsConsistent(s: State, id: string, currentUserId: string)
    requires Consistent(s)
    requires UserHandlers.DeleteUser(s, id, currentUserId).Ok?
    ensures Consistent(UserHandlers.DeleteUser(s, id, currentUserId).value)
  {
    var s' := UserHandlers.DeleteUser(s, id, currentUserId).value;
    forall other | other in s'.users ensures ValidBalance(s'.users[other]) {
      assert s'.users[other] == s.users[other];
    }
    forall a, b | a in s'.users && b in s'.users && s'.users[a].userName == s'.users[b].userName
      ensures a == b
    {
      assert s.users[a].userName == s'.users[a].userName;
      assert s.users[b].userName == s'.users[b].userName;
    }
  }

  /**
   * A request as it reaches the handlers. A request whose body fails its
   * validation attributes is answered before any handler runs, and a command
   * that fails in its handler leaves the store as it was.
   */
  datatype Command =
    | DepositCoins(userId: string, coins: CoinBatch)
    | Buy(userId: string, request: BuyRequestDto)
    | Reset(userId: string)
    | UpdateProduct(productId: int, update: ProductUpdateDto, sellerId: string)
    | DeleteProduct(productId: int, sellerId: string)
    | UpdateUser(id: string, userUpdate: UserUpdateDto, currentUserId: string)
    | DeleteUser(id: string, currentUserId: string)

  /** The store after one command: the handler's new store, or the old one when it fails. */
  function Step(s: State, c: Command): (s': State)
    ensures s'.products.Keys <= s.products.Keys
  {
    match c
    case DepositCoins(userId, coins) =>
      if !DistinctKeys(coins) then s
      else
        var r := VendingMachineHandlers.Deposit(s, userId, coins);
        if r.Ok? then r.value.0 else s
    case Buy(userId, request) =>
      if !ValidBuyRequest(request) then s
      else
        var r := VendingMachineHandlers.Buy(s, userId, request);
        if r.Ok? then r.value.0 else s
    case Reset(userId) =>
      var r := VendingMachineHandlers.ResetDeposit(s, userId);
      if r.Ok? then r.value else s
    case UpdateProduct(id, update, sellerId) =>
      if !ValidProductUpdate(update) then s
      else
        var r := ProductHandlers.UpdateProduct(s, id, update, sellerId);
        if r.Ok? then r.value.0 else s
    case DeleteProduct(id, sellerId) =>
      var r := ProductHandlers.DeleteProduct(s, id, sellerId);
      if r.Ok? then r.value else s
    case UpdateUser(id, userUpdate, currentUserId) =>
      if !ValidUserUpdate(userUpdate) then s
      else
        var r := UserHandlers.UpdateUser(s, id, userUpdate, currentUserId);
        if r.Ok? then r.value.0 else s
    case DeleteUser(id, currentUserId) =>
      var r := UserHandlers.DeleteUser(s, id, currentUserId);
      if r.Ok? then r.value else s
  }

  /** Every command keeps a consistent store consistent. */
  lemma StepKeepsConsistent(s: State, c: Command)
    requires Consistent(s)
    ensures Consistent(Step(s, c))
  {
    match c
    case DepositCoins(userId, coins) =>
      if DistinctKeys(coins) && VendingMachineHandlers.Deposit(s, userId, coins).Ok? {
        DepositKeepsConsistent(s, userId, coins);
      }
    case Buy(userId, request) =>
      if ValidBuyRequest(request) && VendingMachineHandlers.Buy(s, userId, request).Ok? {
        BuyKeepsConsistent(s, userId, request.productId, request.amount);
      }
    case Reset(userId) =>
      if VendingMachineHandlers.ResetDeposit(s, userId).Ok? {
        ResetKeepsConsistent(s, userId);
      }
    case UpdateProduct(id, update, sellerId) =>
      if ValidProductUpdate(update) && ProductHandlers.UpdateProduct(s, id, update, sellerId).Ok? {
        UpdateProductKeepsConsistent(s, id, update, sellerId);
      }
    case DeleteProduct(id, sellerId) =>
      if ProductHandlers.DeleteProduct(s, id, sellerId).Ok? {
        DeleteProductKeepsConsistent(s, id, sellerId);
      }
    case UpdateUser(id, userUpdate, currentUserId) =>
      if ValidUserUpdate(userUpdate) && UserHandlers.UpdateUser(s, id, userUpdate, currentUserId).Ok? {
        UpdateUserKeepsConsistent(s, id, userUpdate, currentUserId);
      }
    case DeleteUser(id, currentUserId) =>
      if UserHandlers.DeleteUser(s, id, currentUserId).Ok? {
        DeleteUserKeepsConsistent(s, id, currentUserId);
      }
  }

  /** The store after a sequence of commands, applied in order. */
  function Run(s: State, cs: seq<Command>): (s': State)
    decreases |cs|
  {
    if cs == [] then s else Run(Step(s, cs[0]), cs[1..])
  }

  /** Every sequence of commands keeps a consistent store consistent. */
  lemma {:induction false} RunKeepsConsistent(s: State, cs: seq<Command>)
    requires Consistent(s)
    ensures Consistent(Run(s, cs))
    decreases |cs|
  {
    if cs != [] {
      StepKeepsConsistent(s, cs[0]);
      RunKeepsConsistent(Step(s, cs[0]), cs[1..]);
    }
  }

  /** A buyer whose balance is a multiple of 5 never loses change to the residue, whatever the product costs. */
  lemma ConsistentBuyConservesMoney(s: State, userId: string, productId: int, amount: int)
    requires Consistent(s)
    requires VendingMachineService.CanBuy(s, userId, productId, amount)
    requires s.products[productId].cost % 5 == 0
    ensures var response := VendingMachineService.BuyProduct(s, userId, productId, amount).value.1;
      response.totalSpent + CalculateTotal(response.change) == s.users[userId].deposit
  {
    assert ValidBalance(s.users[userId]);
    VendingMachineService.BuyConservesMoney(s, userId, productId, amount);
  }
}
