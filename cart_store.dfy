/**
 The holder of the cart: the state cell the three operations replace. Each
 method applies the matching transition of module Cart and, when it ends in Ok,
 makes the new cart the current one; on any other outcome the cart is left as
 it was and the outcome is the notification to show.
 */
module CartStore {
  import opened Cart
  import CartProperties

  class Store {
    var cart: seq<Item>

    /** The initial cart: the persisted one when there is one, else empty. */
    constructor (persisted: Option<seq<Item>>)
      ensures cart == if persisted.Some? then persisted.value else []
    {
      cart := if persisted.Some? then persisted.value else [];
    }

    method AddProduct(productId: int, stock: Option<int>, product: Option<Product>) returns (outcome: Outcome)
      modifies this
      ensures outcome == Cart.AddProduct(old(cart), productId, stock, product)
      ensures cart == if outcome.Ok? then outcome.cart else old(cart)
      ensures Valid(old(cart)) && (product.Some? ==> product.value.id == productId) ==> Valid(cart)
    {
      outcome := Cart.AddProduct(cart, productId, stock, product);
      if Valid(cart) && (product.Some? ==> product.value.id == productId) {
        CartProperties.AddPreservesValid(cart, productId, stock, product);
      }
      if outcome.Ok? {
        cart := outcome.cart;
      }
    }

    method RemoveProduct(productId: int) returns (outcome: Outcome)
      modifies this
      ensures outcome == Cart.RemoveProduct(old(cart), productId)
      ensures cart == if outcome.Ok? then outcome.cart else old(cart)
      ensures Valid(old(cart)) ==> Valid(cart)
    {
      outcome := Cart.RemoveProduct(cart, productId);
      if Valid(cart) {
        CartProperties.RemovePreservesValid(cart, productId);
      }
      if outcome.Ok? {
        cart := outcome.cart;
      }
    }

    method UpdateProductAmount(productId: int, amount: int, stock: Option<int>) returns (outcome: Outcome)
      modifies this
      ensures outcome == Cart.UpdateProductAmount(old(cart), productId, amount, stock)
      ensures cart == if outcome.Ok? then outcome.cart else old(cart)
      ensures Valid(old(cart)) ==> Valid(cart)
    {
      outcome := Cart.UpdateProductAmount(cart, productId, amount, stock);
      if Valid(cart) {
        CartProperties.UpdatePreservesValid(cart, productId, amount, stock);
      }
      if outcome.Ok? {
        cart := outcome.cart;
      }
    }
  }
}
