/**
 * The persisted state and the repository operations the handlers use
 * (src/VendingMachine.Infrastructure/Repositories/UserRepository.cs and
 * ProductRepository.cs), as pure functions over two maps keyed by id.
 */
module Store {
  import opened Wrappers
  import opened DomainExceptions

  /** An Identity user with its deposit in cents and the roles assigned to it. */
  datatype User = User(userName: string, email: string, deposit: int, roles: seq<string>)

  /** A product a seller offers; `amountAvailable` is its stock. */
  datatype Product = Product(productName: string, amountAvailable: int, cost: int, sellerId: string)

  /** Users by their string id and products by their integer id: the key is the entity's id. */
  datatype State = State(users: map<string, User>, products: map<int, Product>)

  /** The users other than `id` are untouched. */
  predicate OtherUsersUnchanged(s: State, s': State, id: string) {
    && s'.users.Keys - {id} == s.users.Keys - {id}
    && forall other :: other in s.users && other != id ==> other in s'.users && s'.users[other] == s.users[other]
  }

  /** The products other than `id` are untouched. */
  predicate OtherProductsUnchanged(s: State, s': State, id: int) {
    && s'.products.Keys - {id} == s.products.Keys - {id}
    && forall other :: other in s.products && other != id ==> other in s'.products && s'.products[other] == s.products[other]
  }

  /**
   * `UpdateDepositAsync`: a missing user is reported, otherwise the deposit
   * is overwritten and nothing else changes.
   */
  function UpdateDeposit(s: State, userId: string, newDeposit: int): (r: Outcome<State>)
    ensures userId !in s.users <==> r.Err?
    ensures r.Err? ==> r.error == UserNotFound(userId)
    ensures r.Ok? ==>
      && userId in r.value.users
      && r.value.users[userId] == s.users[userId].(deposit := newDeposit)
      && OtherUsersUnchanged(s, r.value, userId)
      && r.value.products == s.products
  {
    if userId !in s.users then Err(UserNotFound(userId))
    else Ok(s.(users := s.users[userId := s.users[userId].(deposit := newDeposit)]))
  }

  /** `UpdateAsync` of a user already in the store: its record is replaced. */
  function SaveUser(s: State, id: string, u: User): (s': State)
    requires id in s.users
    ensures id in s'.users && s'.users[id] == u
    ensures OtherUsersUnchanged(s, s', id) && s'.users.Keys == s.users.Keys
    ensures s'.products == s.products
  {
    s.(users := s.users[id := u])
  }

  /** `CreateAsync` of a user under an id the store does not hold yet. */
  function AddUser(s: State, id: string, u: User): (s': State)
    requires id !in s.users
    ensures s'.users.Keys == s.users.Keys + {id} && s'.users[id] == u
    ensures OtherUsersUnchanged(s, s', id)
    ensures s'.products == s.products
  {
    s.(users := s.users[id := u])
  }

  /** `DeleteAsync` of a user: removes it when present, does nothing otherwise. */
  function RemoveUser(s: State, id: string): (s': State)
    ensures s'.users.Keys == s.users.Keys - {id}
    ensures OtherUsersUnchanged(s, s', id)
    ensures s'.products == s.products
  {
    s.(users := s.users - {id})
  }

  /** `UpdateAsync` of a product already in the store: its record is replaced. */
  function SaveProduct(s: State, id: int, p: Product): (s': State)
    requires id in s.products
    ensures id in s'.products && s'.products[id] == p
    ensures OtherProductsUnchanged(s, s', id) && s'.products.Keys == s.products.Keys
    ensures s'.users == s.users
  {
    s.(products := s.products[id := p])
  }

  /** `CreateAsync` of a product under the id the database assigns it. */
  function AddProduct(s: State, id: int, p: Product): (s': State)
    requires id !in s.products
    ensures s'.products.Keys == s.products.Keys + {id} && s'.products[id] == p
    ensures OtherProductsUnchanged(s, s', id)
    ensures s'.users == s.users
  {
    s.(products := s.products[id := p])
  }

  /** `DeleteAsync` of a product: removes it when present, does nothing otherwise. */
  function RemoveProduct(s: State, id: int): (s': State)
    ensures s'.products.Keys == s.products.Keys - {id}
    ensures OtherProductsUnchanged(s, s', id)
    ensures s'.users == s.users
  {
    s.(products := s.products - {id})
  }

  /** The ids of the users whose user name is `name` (what `FindByNameAsync` searches). */
  function UsernameHolders(s: State, name: string): (ids: set<string>)
    ensures forall id :: id in ids <==> id in s.users && s.users[id].userName == name
  {
    set id | id in s.users && s.users[id].userName == name
  }

  /** No two users share a user name. */
  predicate UniqueUsernames(s: State) {
    forall a, b :: a in s.users && b in s.users && s.users[a].userName == s.users[b].userName ==> a == b
  }

  /**
   * With unique user names a name is held by at most one user, so the single
   * user `FindByNameAsync` returns is the whole of `UsernameHolders`.
   */
  lemma UniqueNameHasOneHolder(s: State, name: string)
    requires UniqueUsernames(s)
    ensures |UsernameHolders(s, name)| <= 1
    ensures forall id :: id in UsernameHolders(s, name) ==> UsernameHolders(s, name) == {id}
  {
    var holders := UsernameHolders(s, name);
    if holders != {} {
      var id :| id in holders;
      assert holders == {id};
    }
  }

  /** The seller's user name as a product's navigation property yields it: "Unknown" for a missing seller. */
  function SellerUsername(s: State, sellerId: string): (name: string)
    ensures sellerId in s.users ==> name == s.users[sellerId].userName
    ensures sellerId !in s.users ==> name == "Unknown"
  {
    if sellerId in s.users then s.users[sellerId].userName else "Unknown"
  }
}
