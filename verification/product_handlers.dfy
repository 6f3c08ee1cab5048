/**
 * The product commands and queries
 * (src/VendingMachine.Application/Handlers/ProductHandlers.cs). The id a
 * new product receives from the database is a parameter.
 */
module ProductHandlers {
  import opened Wrappers
  import opened DomainExceptions
  import opened Text
  import opened Store
  import opened Dtos

  /** `CreateProductHandler.Handle`: the seller must exist; the product is stored under `newId`. */
  function CreateProduct(s: State, request: ProductCreateDto, sellerId: string, newId: int): (r: Outcome<(State, ProductDto)>)
    requires ValidProductCreate(request)
    requires newId !in s.products
    ensures sellerId !in s.users <==> r.Err?
    ensures r.Err? ==> r.error == UserNotFound(sellerId)
    ensures r.Ok? ==>
      var (s', dto) := r.value;
      && s'.products.Keys == s.products.Keys + {newId}
      && s'.products[newId] == Product(request.productName, request.amountAvailable, request.cost, sellerId)
      && OtherProductsUnchanged(s, s', newId)
      && s'.users == s.users
      && dto == ProductDto(newId, request.productName, request.amountAvailable, request.cost,
                           sellerId, s.users[sellerId].userName)
  {
    if sellerId !in s.users then Err(UserNotFound(sellerId))
    else
      var product := Product(request.productName, request.amountAvailable, request.cost, sellerId);
      var s' := AddProduct(s, newId, product);
      Ok((s', ProductDto(newId, product.productName, product.amountAvailable, product.cost,
                         sellerId, s.users[sellerId].userName)))
  }

  /** `GetOr`: the value of a present optional field, the current value otherwise. */
  function GetOr<T>(o: Option<T>, current: T): (v: T)
    ensures o.Some? ==> v == o.value
    ensures o.None? ==> v == current
  {
    if o.Some? then o.value else current
  }

  /**
   * The record after an update request: the name is replaced only by a
   * non-blank one, the stock and the cost only when present; the seller never
   * changes.
   */
  function ApplyUpdate(p: Product, request: ProductUpdateDto): (p': Product)
    ensures p'.productName == (if IsNullOrWhiteSpace(request.productName) then p.productName
                               else request.productName.value)
    ensures p'.amountAvailable == GetOr(request.amountAvailable, p.amountAvailable)
    ensures p'.cost == GetOr(request.cost, p.cost)
    ensures p'.sellerId == p.sellerId
  {
    var name := if IsNullOrWhiteSpace(request.productName) then p.productName else request.productName.value;
    Product(name, GetOr(request.amountAvailable, p.amountAvailable), GetOr(request.cost, p.cost), p.sellerId)
  }

  /**
   * `UpdateProductHandler.Handle`: a missing product, then a product of
   * another seller, is rejected; otherwise the update is applied and stored.
   */
  function UpdateProduct(s: State, id: int, request: ProductUpdateDto, sellerId: string): (r: Outcome<(State, ProductDto)>)
    requires ValidProductUpdate(request)
    ensures id !in s.products ==> r == Err(ProductNotFound(id))
    ensures id in s.products && s.products[id].sellerId != sellerId ==>
      r == Err(Unauthorized("You can only update your own products"))
    ensures r.Ok? <==> id in s.products && s.products[id].sellerId == sellerId
    ensures r.Ok? ==>
      var (s', dto) := r.value;
      && s'.products.Keys == s.products.Keys
      && s'.products[id] == ApplyUpdate(s.products[id], request)
      && OtherProductsUnchanged(s, s', id)
      && s'.users == s.users
      && dto == ProductDtoOf(s', id, s'.products[id])
  {
    if id !in s.products then Err(ProductNotFound(id))
    else if s.products[id].sellerId != sellerId then Err(Unauthorized("You can only update your own products"))
    else
      var updated := ApplyUpdate(s.products[id], request);
      var s' := SaveProduct(s, id, updated);
      Ok((s', ProductDtoOf(s', id, updated)))
  }

  /** `DeleteProductHandler.Handle`: only the owner may delete, and only an existing product. */
  function DeleteProduct(s: State, id: int, sellerId: string): (r: Outcome<State>)
    ensures id !in s.products ==> r == Err(ProductNotFound(id))
    ensures id in s.products && s.products[id].sellerId != sellerId ==>
      r == Err(Unauthorized("You can only delete your own products"))
    ensures r.Ok? <==> id in s.products && s.products[id].sellerId == sellerId
    ensures r.Ok? ==>
      && r.value.products.Keys == s.products.Keys - {id}
      && OtherProductsUnchanged(s, r.value, id)
      && r.value.users == s.users
  {
    if id !in s.products then Err(ProductNotFound(id))
    else if s.products[id].sellerId != sellerId then Err(Unauthorized("You can only delete your own products"))
    else Ok(RemoveProduct(s, id))
  }

  /** `GetProductByIdHandler.Handle`: `None` stands for the null result. */
  function GetProductById(s: State, id: int): (r: Option<ProductDto>)
    ensures r.None? <==> id !in s.products
    ensures r.Some? ==> r.value.id == id && r.value == ProductDtoOf(s, id, s.products[id])
  {
    if id in s.products then Some(ProductDtoOf(s, id, s.products[id])) else None
  }

  /** `GetAllProductsHandler.Handle`, keyed by product id. */
  function GetAllProducts(s: State): (dtos: map<int, ProductDto>)
    ensures dtos.Keys == s.products.Keys
    ensures forall id :: id in dtos ==> Some(dtos[id]) == GetProductById(s, id)
  {
    map id | id in s.products :: ProductDtoOf(s, id, s.products[id])
  }

  /** `GetProductsBySellerIdHandler.Handle`, keyed by product id. */
  function GetProductsBySellerId(s: State, sellerId: string): (dtos: map<int, ProductDto>)
    ensures forall id :: id in dtos <==> id in s.products && s.products[id].sellerId == sellerId
    ensures forall id :: id in dtos ==> dtos[id].sellerId == sellerId
  {
    map id | id in s.products && s.products[id].sellerId == sellerId :: ProductDtoOf(s, id, s.products[id])
  }

  /**
   * The products of a seller are exactly the listed products whose seller
   * it is, with the same records, and every listed product is in its
   * seller's list.
   */
  lemma BySellerIsRestrictionOfAll(s: State, sellerId: string)
    ensures var all, mine := GetAllProducts(s), GetProductsBySellerId(s, sellerId);
      && mine.Keys <= all.Keys
      && (forall id :: id in mine ==> mine[id] == all[id])
      && (forall id :: id in all && all[id].sellerId == sellerId ==> id in mine)
  {
  }

  lemma EveryProductListedUnderItsSeller(s: State, id: int)
    requires id in s.products
    ensures var all := GetAllProducts(s);
      id in GetProductsBySellerId(s, all[id].sellerId)
  {
  }

  /** A created product is found under its id with the record the creation returned. */
  lemma CreateThenGet(s: State, request: ProductCreateDto, sellerId: string, newId: int)
    requires ValidProductCreate(request)
    requires newId !in s.products
    requires CreateProduct(s, request, sellerId, newId).Ok?
    ensures var (s', dto) := CreateProduct(s, request, sellerId, newId).value;
      && GetProductById(s', newId) == Some(dto)
      && newId in GetProductsBySellerId(s', sellerId)
  {
  }

  /** A deleted product is no longer found; every other product still is. */
  lemma DeleteThenGet(s: State, id: int, sellerId: string, other: int)
    requires DeleteProduct(s, id, sellerId).Ok?
    ensures GetProductById(DeleteProduct(s, id, sellerId).value, id).None?
    ensures other != id ==>
      GetProductById(DeleteProduct(s, id, sellerId).value, other) == GetProductById(s, other)
  {
  }

  /** Applying the same update twice has the effect of applying it once. */
  lemma UpdateIsIdempotent(s: State, id: int, request: ProductUpdateDto, sellerId: string)
    requires ValidProductUpdate(request)
    requires UpdateProduct(s, id, request, sellerId).Ok?
    ensures var (s', dto) := UpdateProduct(s, id, request, sellerId).value;
      UpdateProduct(s', id, request, sellerId) == Ok((s', dto))
  {
    var (s', dto) := UpdateProduct(s, id, request, sellerId).value;
    assert s'.products[id := ApplyUpdate(s'.products[id], request)] == s'.products;
  }

  /** An update that carries no field leaves the store exactly as it was. */
  lemma EmptyUpdateChangesNothing(s: State, id: int, sellerId: string)
    requires UpdateProduct(s, id, ProductUpdateDto(None, None, None), sellerId).Ok?
    ensures UpdateProduct(s, id, ProductUpdateDto(None, None, None), sellerId).value.0 == s
  {
    assert s.products[id := s.products[id]] == s.products;
  }

  /** A known seller creates a product; an unknown seller is reported. */
  lemma CreateProductExamples()
    ensures var s := State(map["seller1" := User("seller1", "seller1@example.com", 0, ["seller"])], map[]);
      var request := ProductCreateDto("Test Product", 10, 100);
      && ValidProductCreate(request)
      && CreateProduct(s, request, "seller1", 1)
         == Ok((State(s.users, map[1 := Product("Test Product", 10, 100, "seller1")]),
                ProductDto(1, "Test Product", 10, 100, "seller1", "seller1")))
      && CreateProduct(s, request, "invalid-seller", 1) == Err(UserNotFound("invalid-seller"))
  {
    assert !IsBlank("Test Product") by {
      assert !IsWhiteSpace("Test Product"[0]);
    }
  }
}
