/**
 The cart state transitions of the storefront's cart hook: adding a product
 (stock-checked), removing a product and setting a product's amount.

 A cart is an ordered sequence of items; each item carries the product id and the
 requested amount (price and the other catalogue fields play no part in any
 decision and are not carried). The two remote lookups an operation makes become
 inputs: the stock level of the product (None when that request fails) and the
 catalogue record of the product (None when that request fails). The user-visible
 notifications become the returned Outcome.
 */
module Cart {

  datatype Option<T> = None | Some(value: T)

  /** The catalogue record of a product, as far as the cart uses it. */
  datatype Product = Product(id: int)

  /** A cart line: a product and the amount of it requested. */
  datatype Item = Item(id: int, amount: int)

  /** What an operation ends in: the new cart, or the notification it raises. */
  datatype Outcome =
    | Ok(cart: seq<Item>)
    | OutOfStock      // "requested amount out of stock"
    | AddFailed       // "error adding the product"
    | RemoveFailed    // "error removing the product"
    | UpdateFailed    // "error changing the product's amount"

  /** Some item of the cart has this product id. */
  predicate Has(cart: seq<Item>, id: int) {
    exists i :: 0 <= i < |cart| && cart[i].id == id
  }

  /** No two items of the cart share a product id. */
  predicate UniqueIds(cart: seq<Item>) {
    forall i, j :: 0 <= i < j < |cart| ==> cart[i].id != cart[j].id
  }

  /** Every item of the cart asks for at least one unit. */
  predicate PositiveAmounts(cart: seq<Item>) {
    forall i :: 0 <= i < |cart| ==> cart[i].amount >= 1
  }

  /** The cart invariant the three operations keep. */
  predicate Valid(cart: seq<Item>) {
    UniqueIds(cart) && PositiveAmounts(cart)
  }

  /** Number of items of the cart with this product id. */
  function Count(cart: seq<Item>, id: int): (n: nat)
    ensures n <= |cart|
    ensures n == 0 <==> !Has(cart, id)
  {
    if cart == [] then 0
    else (if cart[0].id == id then 1 else 0) + Count(cart[1..], id)
  }

  /** `cart.find(p => p.id === id)`: the first item with this id, if any. */
  function Find(cart: seq<Item>, id: int): (r: Option<Item>)
    ensures r.None? <==> !Has(cart, id)
    ensures r.Some? ==> r.value in cart && r.value.id == id
  {
    if cart == [] then None
    else if cart[0].id == id then Some(cart[0])
    else
      assert forall i :: 1 <= i < |cart| ==> cart[i] == cart[1..][i - 1];
      Find(cart[1..], id)
  }

  /**
   The `map` of the add operation. Its callback evaluates `found.amount += 1` on
   the first matching item `found` once per matching item, so the k-th item with
   this id gets `last + k`, where `last` is the amount before the call.
   */
  function IncrementMatches(cart: seq<Item>, id: int, last: int): (r: seq<Item>)
    ensures |r| == |cart|
    ensures forall i :: 0 <= i < |cart| && cart[i].id != id ==> r[i] == cart[i]
    ensures forall i :: 0 <= i < |cart| && cart[i].id == id ==>
              r[i] == cart[i].(amount := last + Count(cart[..i + 1], id))
  {
    if cart == [] then []
    else
      var rest := cart[1..];
      var next := if cart[0].id == id then last + 1 else last;
      var tail := IncrementMatches(rest, id, next);
      var r := [if cart[0].id == id then cart[0].(amount := next) else cart[0]] + tail;
      assert forall i :: 1 <= i < |cart| ==> cart[..i + 1][1..] == rest[..i] && r[i] == tail[i - 1];
      r
  }

  /** The `map` of the update operation: every item with this id gets `amount`. */
  function SetAmount(cart: seq<Item>, id: int, amount: int): (r: seq<Item>)
    ensures |r| == |cart|
    ensures forall i :: 0 <= i < |cart| ==>
              r[i] == if cart[i].id == id then cart[i].(amount := amount) else cart[i]
  {
    if cart == [] then []
    else [if cart[0].id == id then cart[0].(amount := amount) else cart[0]]
         + SetAmount(cart[1..], id, amount)
  }

  /** The `filter` of the remove operation: the items whose id differs, in order. */
  function Without(cart: seq<Item>, id: int): (r: seq<Item>)
    ensures |r| == |cart| - Count(cart, id)
    ensures forall it :: it in r <==> it in cart && it.id != id
  {
    if cart == [] then []
    else
      var tail := Without(cart[1..], id);
      assert forall it :: it in cart <==> it == cart[0] || it in cart[1..];
      if cart[0].id == id then tail else [cart[0]] + tail
  }

  /**
   addProduct(productId) (src/hooks/useCart.tsx:56-91). `stock` is the answer
   of the stock request and `product` that of the catalogue request; the
   catalogue is only consulted when the product is not in the cart yet.
   */
  function AddProduct(cart: seq<Item>, productId: int, stock: Option<int>, product: Option<Product>): (r: Outcome)
    ensures r == AddFailed <==> stock.None? || (!Has(cart, productId) && product.None?)
    ensures r == OutOfStock <==>
              stock.Some? && Has(cart, productId) && Find(cart, productId).value.amount >= stock.value
    ensures r.Ok? && Has(cart, productId) ==>
              |r.cart| == |cart| && forall i :: 0 <= i < |cart| ==> r.cart[i].id == cart[i].id
    ensures r.Ok? && Has(cart, productId) ==>
              forall i :: 0 <= i < |cart| && cart[i].id != productId ==> r.cart[i] == cart[i]
    ensures r.Ok? && !Has(cart, productId) ==> r.cart == cart + [Item(product.value.id, 1)]
    ensures !r.RemoveFailed? && !r.UpdateFailed?
  {
    match stock
    case None => AddFailed
    case Some(available) =>
      match Find(cart, productId)
      case Some(found) =>
        if found.amount < available then Ok(IncrementMatches(cart, productId, found.amount))
        else OutOfStock
      case None =>
        match product
        case None => AddFailed
        case Some(p) => Ok(cart + [Item(p.id, 1)])
  }

  /** removeProduct(productId) (src/hooks/useCart.tsx:93-110). */
  function RemoveProduct(cart: seq<Item>, productId: int): (r: Outcome)
    ensures r == RemoveFailed <==> !Has(cart, productId)
    ensures r.Ok? <==> Has(cart, productId)
    ensures r.Ok? ==> |r.cart| == |cart| - Count(cart, productId)
    ensures r.Ok? ==> forall it :: it in r.cart <==> it in cart && it.id != productId
  {
    match Find(cart, productId)
    case Some(found) => Ok(Without(cart, found.id))
    case None => RemoveFailed
  }

  /**
   updateProductAmount({productId, amount}) (src/hooks/useCart.tsx:112-142).
   `stock` is the answer of the stock request, made only for a positive amount.
   */
  function UpdateProductAmount(cart: seq<Item>, productId: int, amount: int, stock: Option<int>): (r: Outcome)
    ensures amount <= 0 ==> r == Ok(cart)
    ensures !r.AddFailed? && !r.RemoveFailed?
    ensures r == UpdateFailed <==> amount > 0 && (stock.None? || !Has(cart, productId))
    ensures r == OutOfStock <==> amount > 0 && stock.Some? && Has(cart, productId) && amount > stock.value
    ensures r.Ok? ==> |r.cart| == |cart| && forall i :: 0 <= i < |cart| ==> r.cart[i].id == cart[i].id
    ensures r.Ok? && amount > 0 ==> forall i :: 0 <= i < |cart| && cart[i].id == productId ==> r.cart[i].amount == amount
    ensures r.Ok? ==> forall i :: 0 <= i < |cart| && cart[i].id != productId ==> r.cart[i] == cart[i]
  {
    if amount <= 0 then Ok(cart)
    else
      match stock
      case None => UpdateFailed
      case Some(available) =>
        match Find(cart, productId)
        case Some(_) =>
          if amount <= available then Ok(SetAmount(cart, productId, amount))
          else OutOfStock
        case None => UpdateFailed
  }
}
