# Vending machine core in Dafny

This project models the core of a vending-machine web API. Buyers deposit
coins of 5, 10, 20, 50 and 100 cents and buy products. The purchase spends
the whole balance: the leftover comes back as change, counted greedily, and
the deposit is reset to 0. Sellers create, update and delete their own
products. Users register, rename themselves and delete their own accounts.

Everything is a pure function over a `State` that holds two maps: users by
their string id and products by their integer id. Each handler returns a
`Result` whose error side mirrors the domain exceptions. The validation
attributes on the request records become predicates that the handlers take
as preconditions; ASP.NET checks them before any handler runs. A dictionary
of coins (denomination to count) is a sequence of pairs with distinct keys.
The dictionary's enumeration order is the sequence order.

Modules, one per source unit:

- `Wrappers`: `Option` and `Result`.
- `DomainExceptions`: the exception hierarchy.
- `Text`: `string.IsNullOrWhiteSpace` and the decimal rendering of numbers in messages.
- `Coin`: the denominations, greedy change and batch totals.
- `ChangeOptimality`: greedy change uses the fewest coins.
- `Store`: the user and product repositories.
- `Dtos`: the request and response records and their validation.
- `VendingMachineService`: the purchase.
- `VendingMachineHandlers`: deposit, buy and reset.
- `ProductHandlers`: the product commands and queries.
- `UserHandlers`: the user commands and queries.
- `Invariants`: the store-wide invariant, preserved by every command.

## Model

| member | source | states |
|---|---|---|
| Coin.IsValidDenomination | src/VendingMachine.Domain/ValueObjects/Coin.cs:6-11 | A value is accepted exactly when it is 5, 10, 20, 50 or 100, and every accepted value is a positive multiple of 5 |
| Coin.DescendingSortsDenominations | src/VendingMachine.Domain/ValueObjects/Coin.cs:16 | The order the change loop walks holds exactly the valid denominations, each once, strictly largest first |
| Coin.PayOutShape | src/VendingMachine.Domain/ValueObjects/Coin.cs:18-26 | Every coin the loop pays out is a denomination it walked, with a count of at least 1, and denominations come out largest first |
| Coin.CalculateChange | src/VendingMachine.Domain/ValueObjects/Coin.cs:13-29 | The change holds only valid denominations with positive counts, each denomination at most once, largest first |
| Coin.ChangeIsLargestFirst | src/VendingMachine.Domain/ValueObjects/Coin.cs:18-26 | For a non-negative amount, the change is as many 100s as fit, then as many 50s as fit in the rest, and so on down to 5s; a denomination is present exactly when the rest reaches it |
| Coin.ChangeOfNonPositive | src/VendingMachine.Domain/ValueObjects/Coin.cs:20 | A zero or negative amount yields no coins at all |
| Coin.ChangeTotal | src/VendingMachine.Domain/ValueObjects/Coin.cs:13-29 | For a non-negative multiple of 5, the change is worth exactly the amount |
| Coin.ChangeDropsResidue | src/VendingMachine.Domain/ValueObjects/Coin.cs:13-29 | For any non-negative amount, the change is worth the amount minus its remainder modulo 5: the remainder below the smallest coin is not paid out |
| Coin.ChangeExamplesSmall | tests/VendingMachine.Tests/Services/ChangeCalculatorServiceTests.cs:18-19 | 0 cents give no coins and 5 cents give one 5 |
| Coin.ChangeExample165 | tests/VendingMachine.Tests/Services/ChangeCalculatorServiceTests.cs:20 | 165 cents give 100 + 50 + 10 + 5 |
| Coin.ChangeExample275 | tests/VendingMachine.Tests/Services/ChangeCalculatorServiceTests.cs:21 | 275 cents give 100 + 100 + 50 + 20 + 5 |
| Coin.TotalAppend | src/VendingMachine.Domain/ValueObjects/Coin.cs:31-34 | The worth of two batches laid end to end is the sum of their worths |
| Coin.TotalOfCoinsIsMultipleOf5 | src/VendingMachine.Domain/ValueObjects/Coin.cs:31-34 | A batch of valid coins is worth a multiple of 5, and the empty batch is worth 0 |
| Coin.TotalOfCoinsIsNonNegative | src/VendingMachine.Domain/ValueObjects/Coin.cs:31-34 | A batch of valid coins with positive counts is never worth less than 0 |
| ChangeOptimality.CanonicalPurseIsGreedy | src/VendingMachine.Domain/ValueObjects/Coin.cs:18-26 | A purse that cannot be exchanged for fewer coins uses exactly as many coins as greedy does for its value |
| ChangeOptimality.GreedyIsFewest | src/VendingMachine.Domain/ValueObjects/Coin.cs:18-26 | No purse of 100s, 50s, 20s, 10s and 5s holds fewer coins than greedy uses for the same value |
| ChangeOptimality.ChangeCoinCount | src/VendingMachine.Domain/ValueObjects/Coin.cs:13-29 | The change for an amount holds as many coins as the greedy quotients add up to |
| ChangeOptimality.ChangeIsFewestCoins | src/VendingMachine.Domain/ValueObjects/Coin.cs:13-29 | Paying out the worth of any batch of valid coins, the change never holds more coins than that batch |
| Text.IntToString | src/VendingMachine.Application/Handlers/VendingMachineHandlers.cs:60 | A number renders as at least one character, and it starts with a digit exactly when the number is non-negative |
| Text.NatToStringRoundTrip | src/VendingMachine.Application/Handlers/VendingMachineHandlers.cs:60 | Reading the rendered digits back gives the number |
| Text.IntToStringInjective | src/VendingMachine.Application/Handlers/VendingMachineHandlers.cs:60 | Two amounts with the same text in a message are the same amount |
| Store.UpdateDeposit | src/VendingMachine.Infrastructure/Repositories/UserRepository.cs:77-85 | A missing user is reported as UserNotFound; otherwise only that user's deposit changes, and every other user and every product stays as it was |
| Store.SaveUser | src/VendingMachine.Infrastructure/Repositories/UserRepository.cs:48-56 | The stored record is replaced; no user appears or disappears and the others are untouched |
| Store.AddUser | src/VendingMachine.Infrastructure/Repositories/UserRepository.cs:37-46 | The new user is stored under its fresh id and nobody else changes |
| Store.RemoveUser | src/VendingMachine.Infrastructure/Repositories/UserRepository.cs:58-70 | The user is gone, whether or not it existed, and nobody else changes |
| Store.UniqueNameHasOneHolder | src/VendingMachine.Infrastructure/Repositories/UserRepository.cs:27-30 | While user names are unique, at most one user holds a given name, so the single user the name lookup returns is every holder of that name |
| Store.SaveProduct | src/VendingMachine.Infrastructure/Repositories/ProductRepository.cs:49-53 | The stored product is replaced; no product appears or disappears and the others are untouched |
| Store.AddProduct | src/VendingMachine.Infrastructure/Repositories/ProductRepository.cs:42-47 | The new product is stored under its fresh id and no other product changes |
| Store.RemoveProduct | src/VendingMachine.Infrastructure/Repositories/ProductRepository.cs:55-63 | The product is gone, whether or not it existed, and no other product changes |
| Dtos.ReportedRole | src/VendingMachine.Application/Handlers/UserHandlers.cs:111-112 | A user is reported with their first role, or as "buyer" when they have none |
| VendingMachineService.BuyProduct | src/VendingMachine.Application/Services/VendingMachineService.cs:28-93 | The first failing check decides the error: UserNotFound, then ProductNotFound, then InsufficientStock, then InsufficientFunds. It succeeds exactly when all four pass. On success the stock drops by the amount and stays non-negative, the deposit becomes 0, nothing else changes, and the response carries the cost, the change for the leftover and one snapshot per unit |
| VendingMachineService.BuyConservesMoney | src/VendingMachine.Application/Services/VendingMachineService.cs:59-68 | When the deposit and the price are multiples of 5, the amount spent plus the change's worth equals the deposit before |
| VendingMachineService.BuyDropsResidue | src/VendingMachine.Application/Services/VendingMachineService.cs:59-68 | In general, the amount spent plus the change's worth falls short of the deposit by the leftover's remainder modulo 5, and the reset deposit keeps none of it |
| VendingMachineService.BuyResidueExample | src/VendingMachine.Application/Services/VendingMachineService.cs:59-68 | A 7-cent product bought with 10 cents returns no change and leaves a balance of 0, so 3 cents are lost |
| VendingMachineService.BuyEmptiesBalanceExample | src/VendingMachine.Application/Services/VendingMachineService.cs:59-68 | A 100-cent product bought with 275 cents returns 175 cents in change, leaves a balance of 0 and a stock of 9 |
| VendingMachineService.LastUnitSoldOnce | src/VendingMachine.Application/Services/VendingMachineService.cs:44-48 | After the last unit is sold, a second purchase of it fails with InsufficientStock against a stock of 0 |
| VendingMachineHandlers.CoinEntryError | src/VendingMachine.Application/Handlers/VendingMachineHandlers.cs:35-45 | An entry is rejected as InvalidCoin when its denomination is invalid, whatever its count. Otherwise it is rejected as a non-positive count when the count is 0 or less. It passes exactly when both are fine |
| VendingMachineHandlers.ValidateCoins | src/VendingMachine.Application/Handlers/VendingMachineHandlers.cs:34-46 | A batch passes exactly when every entry is a valid coin with a positive count; otherwise the error is the first failing entry's, and every entry before it passes |
| VendingMachineHandlers.Deposit | src/VendingMachine.Application/Handlers/VendingMachineHandlers.cs:24-62 | A missing user is reported before any coin is looked at; a bad entry rejects the whole batch. On success only the depositor's balance changes: it grows by the batch's worth, and the message reports both amounts |
| VendingMachineHandlers.DepositNeverDecreases | src/VendingMachine.Application/Handlers/VendingMachineHandlers.cs:48-51 | A successful deposit never lowers the balance, and a balance that is a multiple of 5 stays one |
| VendingMachineHandlers.DepositExample300 | tests/VendingMachine.Tests/Handlers/VendingMachineHandlersTests.cs:27-48 | 100 cents plus one 100 and two 50s make 300, in the response and in the store |
| VendingMachineHandlers.DepositExample250 | tests/VendingMachine.Tests/Controllers/VendingMachineControllerTests.cs:50-76 | A fresh balance of 0 plus two 100s and one 50 makes 250 |
| VendingMachineHandlers.DepositInvalidCoinExamples | tests/VendingMachine.Tests/Handlers/VendingMachineHandlersTests.cs:50-65 | A 15-cent coin is rejected as InvalidCoin(15), with a count of 1 or of 0, and also after a valid entry |
| VendingMachineHandlers.Buy | src/VendingMachine.Application/Handlers/VendingMachineHandlers.cs:76-90 | A validated buy request yields exactly what the purchase service yields |
| VendingMachineHandlers.ResetDeposit | src/VendingMachine.Application/Handlers/VendingMachineHandlers.cs:104-117 | A missing user is reported as UserNotFound; otherwise only that user's deposit changes, to 0, and no coins are returned |
| ProductHandlers.CreateProduct | src/VendingMachine.Application/Handlers/ProductHandlers.cs:30-62 | A missing seller is reported as UserNotFound. Otherwise exactly one product is added, carrying the request's fields and the seller's id, and the response carries the seller's name |
| ProductHandlers.ApplyUpdate | src/VendingMachine.Application/Handlers/ProductHandlers.cs:94-107 | A blank or absent name keeps the old one; an absent stock or cost keeps the old value; the seller never changes |
| ProductHandlers.UpdateProduct | src/VendingMachine.Application/Handlers/ProductHandlers.cs:81-124 | ProductNotFound, then Unauthorized for another seller's product. It succeeds exactly for the owner, and then only that product changes |
| ProductHandlers.DeleteProduct | src/VendingMachine.Application/Handlers/ProductHandlers.cs:138-153 | ProductNotFound, then Unauthorized for another seller's product. It succeeds exactly for the owner, and then only that product disappears |
| ProductHandlers.GetProductById | src/VendingMachine.Application/Handlers/ProductHandlers.cs:165-180 | A result exists exactly when the product does, and it is that product's response record |
| ProductHandlers.GetAllProducts | src/VendingMachine.Application/Handlers/ProductHandlers.cs:192-205 | Every stored product is listed, and each entry is what the by-id query returns for it |
| ProductHandlers.GetProductsBySellerId | src/VendingMachine.Application/Handlers/ProductHandlers.cs:217-230 | Exactly the products of that seller are listed |
| ProductHandlers.BySellerIsRestrictionOfAll | src/VendingMachine.Infrastructure/Repositories/ProductRepository.cs:27-40 | A seller's list is the full list restricted to that seller's products, with the same records |
| ProductHandlers.EveryProductListedUnderItsSeller | src/VendingMachine.Infrastructure/Repositories/ProductRepository.cs:34-40 | Every listed product appears in its own seller's list |
| ProductHandlers.CreateThenGet | src/VendingMachine.Application/Handlers/ProductHandlers.cs:41-61 | A created product is found by its id with the record the creation returned, and in its seller's list |
| ProductHandlers.DeleteThenGet | src/VendingMachine.Application/Handlers/ProductHandlers.cs:151 | A deleted product is no longer found, and every other product is found as before |
| ProductHandlers.UpdateIsIdempotent | src/VendingMachine.Application/Handlers/ProductHandlers.cs:94-109 | Applying the same update a second time changes nothing and returns the same record |
| ProductHandlers.EmptyUpdateChangesNothing | src/VendingMachine.Application/Handlers/ProductHandlers.cs:94-109 | An update with no fields leaves the store as it was |
| ProductHandlers.CreateProductExamples | tests/VendingMachine.Tests/Handlers/ProductHandlersTests.cs:30-87 | A known seller creates "Test Product" at 100 cents; an unknown seller is reported as UserNotFound |
| UserHandlers.CreateUser | src/VendingMachine.Application/Handlers/UserHandlers.cs:30-59 | It fails with DuplicateUsername exactly when the name is taken. Otherwise exactly one user is added, with a derived e-mail, a zero deposit and the requested role, which the response reports |
| UserHandlers.UpdateUser | src/VendingMachine.Application/Handlers/UserHandlers.cs:78-123 | Unauthorized for another's profile, then UserNotFound. A non-blank new name is rejected exactly when someone else holds it. The update succeeds exactly for the owner of an existing profile whose new name is blank or held by nobody else. On success only the name may change: to the new one, or kept when the new one is blank |
| UserHandlers.DeleteUser | src/VendingMachine.Application/Handlers/UserHandlers.cs:137-151 | Unauthorized for another's account, then UserNotFound; it succeeds exactly for one's own existing account, which is the only one removed |
| UserHandlers.GetUserById | src/VendingMachine.Application/Handlers/UserHandlers.cs:165-181 | A result exists exactly when the user does, with their name, deposit and reported role |
| UserHandlers.GetAllUsers | src/VendingMachine.Application/Handlers/UserHandlers.cs:195-215 | Every stored user is listed, and each entry is what the by-id query returns for them |
| UserHandlers.CreateKeepsUsernamesUnique | src/VendingMachine.Application/Handlers/UserHandlers.cs:34-38 | Registering keeps user names unique |
| UserHandlers.UpdateKeepsUsernamesUnique | src/VendingMachine.Application/Handlers/UserHandlers.cs:91-99 | Renaming keeps user names unique |
| UserHandlers.RenameToOwnNameAllowed | src/VendingMachine.Application/Handlers/UserHandlers.cs:93-94 | Renaming oneself to the name one already holds succeeds and changes nothing |
| UserHandlers.RenameToTakenNameRejected | src/VendingMachine.Application/Handlers/UserHandlers.cs:93-97 | Renaming oneself to another user's name fails with DuplicateUsername |
| UserHandlers.CreateThenGetUser | src/VendingMachine.Application/Handlers/UserHandlers.cs:40-58 | A registered user is found by the new id, reported exactly as the registration response reported them, including the requested role |
| UserHandlers.DeleteThenGetUser | src/VendingMachine.Application/Handlers/UserHandlers.cs:149 | A deleted account is no longer found, and every other account is found as before |
| UserHandlers.CreateUserExamples | tests/VendingMachine.Tests/Handlers/UserHandlersTests.cs:31-74 | "testuser" registers as a buyer with a zero deposit; registering a taken "testuser" is reported as DuplicateUsername |
| Invariants.DepositKeepsConsistent | src/VendingMachine.Application/Handlers/VendingMachineHandlers.cs:34-51 | A deposit keeps every balance a non-negative multiple of 5 and every other part of the invariant |
| Invariants.BuyKeepsConsistent | src/VendingMachine.Application/Services/VendingMachineService.cs:44-68 | A purchase keeps stock non-negative and balances valid |
| Invariants.ResetKeepsConsistent | src/VendingMachine.Application/Handlers/VendingMachineHandlers.cs:108-114 | A reset keeps the invariant |
| Invariants.CreateProductKeepsConsistent | src/VendingMachine.Domain/DTOs/ProductDTOs.cs:6-17 | A product created from a validated request satisfies the product ranges |
| Invariants.UpdateProductKeepsConsistent | src/VendingMachine.Domain/DTOs/ProductDTOs.cs:19-29 | An update validated field by field keeps the product ranges, since a blank name is never written |
| Invariants.DeleteProductKeepsConsistent | src/VendingMachine.Application/Handlers/ProductHandlers.cs:138-153 | Deleting a product keeps the invariant |
| Invariants.CreateUserKeepsConsistent | src/VendingMachine.Application/Handlers/UserHandlers.cs:34-47 | Registering keeps the invariant: zero deposit and a fresh name |
| Invariants.UpdateUserKeepsConsistent | src/VendingMachine.Application/Handlers/UserHandlers.cs:91-99 | Renaming keeps the invariant |
| Invariants.DeleteUserKeepsConsistent | src/VendingMachine.Application/Handlers/UserHandlers.cs:137-151 | Deleting an account keeps the invariant |
| Invariants.Step | src/VendingMachine.Application/Handlers/VendingMachineHandlers.cs:24-117 | No command in the run adds a product |
| Invariants.StepKeepsConsistent | src/VendingMachine.Application/Handlers/VendingMachineHandlers.cs:24-117 | Every command, whether it succeeds or fails, keeps a consistent store consistent |
| Invariants.RunKeepsConsistent | src/VendingMachine.Application/Handlers/VendingMachineHandlers.cs:24-117 | Any sequence of commands keeps a consistent store consistent |
| Invariants.ConsistentBuyConservesMoney | src/VendingMachine.Application/Services/VendingMachineService.cs:59-68 | In a consistent store, buying a product whose price is a multiple of 5 loses no money: the amount spent plus the change equals the balance |

## Left out

- HTTP routing, controllers, model binding, JWT authentication and role-based authorization (`[Authorize(Roles = ...)]`): the handlers receive the caller's id as a parameter.
- Passwords. Registration and update take a password, and the update resets it through `UserManager`; the state keeps no password, so an update that only changes the password leaves the modelled store unchanged.
- UserHandlers.UpdateUser: a password change is saved through `ResetPasswordAsync`, whose result the handler ignores; the model always persists the new user name, which is what happens whenever the reset succeeds.
- Identity's own failures: `CreateAsync`, `UpdateAsync` and `DeleteAsync` can fail, for example on its password policy, with DomainException "Failed to ...". The model treats them as always succeeding. Registration records the requested role, as `AddToRoleAsync` does; only that call's `IdentityResult`, which the handler ignores, and its possible failure are not modelled.
- Ids are generated by the database and by Identity; they are parameters that must be fresh.
- Entity Framework persistence, change tracking, and cascading deletes between users and their products. Deleting a user leaves their products in place, and those products then report the seller as "Unknown".
- Concurrency. Every command runs alone on the state it is given.
- Logging.
- The `[Range(1, ...)]` attribute on `DepositDto.Coins`: an empty batch deposits 0.
- The enumeration order of `GetAll...` results: listing queries return maps keyed by id.
- UserHandlers.CreateUser: compares user names exactly, while Identity's `FindByNameAsync` matches them after case normalisation, because case folding is outside the model.
- UserHandlers.UpdateUser: same exact-match simplification; it also treats "someone other than me holds the name" as the duplicate rule, which equals the source's single lookup whenever names are unique (the invariant every command keeps).
- VendingMachineService.BuyProduct: does not model 32-bit wrap-around of `Cost * amount` or of the deposit sums, because integers here are unbounded.
- VendingMachineHandlers.Deposit: requires distinct denominations in the batch, since the request is a dictionary.
- Invariants.Step: covers the commands that take no fresh id. Creating a product or user is covered by its own preservation lemma.
- `InvalidRoleException` is declared but never thrown; role checks happen in the authorization attributes. The error datatype carries it, but no modelled handler raises it.
