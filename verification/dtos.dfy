/**
 * Request and response records (src/VendingMachine.Domain/DTOs) and the
 * validation attributes the framework checks before a handler runs, written
 * as predicates that the handlers take as preconditions.
 */
module Dtos {
  import opened Wrappers
  import opened Text
  import Coin
  import opened Store

  datatype ProductDto = ProductDto(
    id: int, productName: string, amountAvailable: int, cost: int, sellerId: string, sellerUsername: string)

  datatype UserDto = UserDto(id: string, username: string, deposit: int, role: string)

  datatype ProductCreateDto = ProductCreateDto(productName: string, amountAvailable: int, cost: int)

  /** Every field is optional: an absent one is left as it is. */
  datatype ProductUpdateDto = ProductUpdateDto(
    productName: Option<string>, amountAvailable: Option<int>, cost: Option<int>)

  datatype UserRegistrationDto = UserRegistrationDto(username: string, password: string, role: string)

  datatype UserUpdateDto = UserUpdateDto(username: Option<string>, password: Option<string>)

  datatype BuyRequestDto = BuyRequestDto(productId: int, amount: int)

  datatype BuyResponseDto = BuyResponseDto(
    totalSpent: int, productsPurchased: seq<ProductDto>, change: Coin.CoinBatch)

  datatype DepositResponseDto = DepositResponseDto(newDeposit: int, message: string)

  /** `[Required]` on a string: present and not blank. */
  predicate Required(s: string) {
    !IsBlank(s)
  }

  /** `[StringLength(max, MinimumLength = min)]`. */
  predicate LengthIn(s: string, min: nat, max: nat) {
    min <= |s| <= max
  }

  predicate ValidProductCreate(d: ProductCreateDto) {
    && Required(d.productName) && LengthIn(d.productName, 1, 100)
    && d.amountAvailable >= 0
    && d.cost >= 5
  }

  /** The same ranges, checked only on the fields that are present. */
  predicate ValidProductUpdate(d: ProductUpdateDto) {
    && (d.productName.Some? ==> LengthIn(d.productName.value, 1, 100))
    && (d.amountAvailable.Some? ==> d.amountAvailable.value >= 0)
    && (d.cost.Some? ==> d.cost.value >= 5)
  }

  predicate ValidRegistration(d: UserRegistrationDto) {
    && Required(d.username) && LengthIn(d.username, 3, 50)
    && Required(d.password) && LengthIn(d.password, 6, 100)
    && (d.role == "buyer" || d.role == "seller")
  }

  predicate ValidUserUpdate(d: UserUpdateDto) {
    && (d.username.Some? ==> LengthIn(d.username.value, 3, 50))
    && (d.password.Some? ==> LengthIn(d.password.value, 6, 100))
  }

  predicate ValidBuyRequest(d: BuyRequestDto) {
    d.productId >= 1 && d.amount >= 1
  }

  /** The response record of a product, with its seller's name looked up in `s`. */
  function ProductDtoOf(s: State, id: int, p: Product): (dto: ProductDto)
    ensures dto.id == id && dto.productName == p.productName
    ensures dto.amountAvailable == p.amountAvailable && dto.cost == p.cost
    ensures dto.sellerId == p.sellerId && dto.sellerUsername == SellerUsername(s, p.sellerId)
  {
    ProductDto(id, p.productName, p.amountAvailable, p.cost, p.sellerId, SellerUsername(s, p.sellerId))
  }

  /** The role a user is reported with: its first role, or "buyer" when it has none. */
  function ReportedRole(roles: seq<string>): (role: string)
    ensures |roles| > 0 ==> role == roles[0]
    ensures |roles| == 0 ==> role == "buyer"
  {
    if |roles| > 0 then roles[0] else "buyer"
  }

  function UserDtoOf(id: string, u: User): (dto: UserDto)
    ensures dto.id == id && dto.username == u.userName && dto.deposit == u.deposit
    ensures dto.role == ReportedRole(u.roles)
  {
    UserDto(id, u.userName, u.deposit, ReportedRole(u.roles))
  }
}
