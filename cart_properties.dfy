/**
 What the three cart transitions do, case by case: which item changes, that
 nothing else changes and the order is kept, which notification is raised, and
 that the cart invariant (unique product ids, every amount at least 1) is kept.
 */
module CartProperties {
  import opened Cart

  // ---------------------------------------------------------------------------
  // The list helpers behind find, map and filter

  /** `find` returns the first item with the id. */
  lemma {:induction false} FindFirst(cart: seq<Item>, id: int, k: int)
    requires 0 <= k < |cart| && cart[k].id == id
    requires forall j :: 0 <= j < k ==> cart[j].id != id
    ensures Find(cart, id) == Some(cart[k])
  {
    if k > 0 {
      FindFirst(cart[1..], id, k - 1);
    }
  }

  /** In a cart with unique ids, `find` returns the one item with the id. */
  lemma FindUnique(cart: seq<Item>, id: int, k: int)
    requires UniqueIds(cart)
    requires 0 <= k < |cart| && cart[k].id == id
    ensures Find(cart, id) == Some(cart[k])
  {
    FindFirst(cart, id, k);
  }

  lemma {:induction false} CountAppend(s: seq<Item>, t: seq<Item>, id: int)
    ensures Count(s + t, id) == Count(s, id) + Count(t, id)
  {
    if s != [] {
      assert (s + t)[1..] == s[1..] + t;
      CountAppend(s[1..], t, id);
    } else {
      assert s + t == t;
    }
  }

  /** The number of items with the id up to and including position i, when k is its only position. */
  lemma CountPrefixUnique(cart: seq<Item>, id: int, k: int, i: int)
    requires UniqueIds(cart)
    requires 0 <= k < |cart| && cart[k].id == id
    requires 0 <= i < |cart|
    ensures Count(cart[..i + 1], id) == if i < k then 0 else 1
  {
    if i < k {
      assert !Has(cart[..i + 1], id);
    } else {
      assert cart[..i + 1] == cart[..k] + [cart[k]] + cart[k + 1..i + 1];
      CountAppend(cart[..k] + [cart[k]], cart[k + 1..i + 1], id);
      CountAppend(cart[..k], [cart[k]], id);
      assert !Has(cart[..k], id);
      assert !Has(cart[k + 1..i + 1], id);
    }
  }

  /** With unique ids, the add operation's `map` raises exactly the one matching item to `last + 1`. */
  lemma IncrementMatchesUnique(cart: seq<Item>, id: int, last: int, k: int)
    requires UniqueIds(cart)
    requires 0 <= k < |cart| && cart[k].id == id
    ensures IncrementMatches(cart, id, last) == cart[k := cart[k].(amount := last + 1)]
  {
    var r := IncrementMatches(cart, id, last);
    var expected := cart[k := cart[k].(amount := last + 1)];
    forall i | 0 <= i < |cart|
      ensures r[i] == expected[i]
    {
      if i == k {
        CountPrefixUnique(cart, id, k, i);
        assert r[i] == cart[i].(amount := last + Count(cart[..i + 1], id));
      } else {
        assert cart[i].id != id;
        assert r[i] == cart[i];
      }
    }
    assert |r| == |expected|;
  }

  /** The remove operation's `filter` leaves the cart as it is when no item has the id. */
  lemma {:induction false} WithoutAbsent(cart: seq<Item>, id: int)
    requires !Has(cart, id)
    ensures Without(cart, id) == cart
  {
    if cart != [] {
      assert !Has(cart[1..], id) by {
        forall i | 0 <= i < |cart[1..]| ensures cart[1..][i].id != id {
          assert cart[1..][i] == cart[i + 1];
        }
      }
      WithoutAbsent(cart[1..], id);
    }
  }

  /** The remove operation's `filter` keeps the order: it distributes over concatenation. */
  lemma {:induction false} WithoutAppend(s: seq<Item>, t: seq<Item>, id: int)
    ensures Without(s + t, id) == Without(s, id) + Without(t, id)
  {
    if s != [] {
      assert (s + t)[1..] == s[1..] + t;
      WithoutAppend(s[1..], t, id);
    } else {
      assert s + t == t;
    }
  }

  /** With unique ids, the remove operation's `filter` cuts out exactly the one item with the id. */
  lemma WithoutUnique(cart: seq<Item>, id: int, k: int)
    requires UniqueIds(cart)
    requires 0 <= k < |cart| && cart[k].id == id
    ensures Without(cart, id) == cart[..k] + cart[k + 1..]
  {
    assert cart == cart[..k] + ([cart[k]] + cart[k + 1..]);
    WithoutAppend(cart[..k], [cart[k]] + cart[k + 1..], id);
    WithoutAppend([cart[k]], cart[k + 1..], id);
    assert !Has(cart[..k], id);
    assert !Has(cart[k + 1..], id);
    WithoutAbsent(cart[..k], id);
    WithoutAbsent(cart[k + 1..], id);
  }

  /** Filtering a cart with unique ids leaves a cart with unique ids. */
  lemma {:induction false} WithoutKeepsUniqueIds(cart: seq<Item>, id: int)
    requires UniqueIds(cart)
    ensures UniqueIds(Without(cart, id))
  {
    if cart != [] {
      var tail := Without(cart[1..], id);
      WithoutKeepsUniqueIds(cart[1..], id);
      forall it | it in tail ensures it.id != cart[0].id {
        var j :| 0 <= j < |cart[1..]| && cart[1..][j] == it;
        assert cart[j + 1] == it;
      }
    }
  }

  // ---------------------------------------------------------------------------
  // addProduct

  /** A product in the cart below its stock has its amount raised by exactly 1; nothing else changes. */
  lemma AddIncrementsPresentProduct(cart: seq<Item>, productId: int, available: int,
                                    product: Option<Product>, k: int)
    requires UniqueIds(cart)
    requires 0 <= k < |cart| && cart[k].id == productId
    requires cart[k].amount < available
    ensures AddProduct(cart, productId, Some(available), product)
         == Ok(cart[k := Item(productId, cart[k].amount + 1)])
  {
    FindUnique(cart, productId, k);
    IncrementMatchesUnique(cart, productId, cart[k].amount, k);
  }

  /** A product in the cart at or above its stock is refused as out of stock. */
  lemma AddRefusesAtStock(cart: seq<Item>, productId: int, available: int,
                          product: Option<Product>, k: int)
    requires UniqueIds(cart)
    requires 0 <= k < |cart| && cart[k].id == productId
    requires cart[k].amount >= available
    ensures AddProduct(cart, productId, Some(available), product) == OutOfStock
  {
    FindUnique(cart, productId, k);
  }

  /** Adding keeps the cart invariant, when the catalogue answers with the product asked for. */
  lemma AddPreservesValid(cart: seq<Item>, productId: int, stock: Option<int>, product: Option<Product>)
    requires Valid(cart)
    requires product.Some? ==> product.value.id == productId
    ensures AddProduct(cart, productId, stock, product).Ok? ==>
              Valid(AddProduct(cart, productId, stock, product).cart)
  {
    if stock.Some? && Has(cart, productId) {
      var k :| 0 <= k < |cart| && cart[k].id == productId;
      if cart[k].amount < stock.value {
        AddIncrementsPresentProduct(cart, productId, stock.value, product, k);
        var next := cart[k := Item(productId, cart[k].amount + 1)];
        assert forall i :: 0 <= i < |next| ==> next[i].id == cart[i].id;
      }
    }
  }

  // ---------------------------------------------------------------------------
  // removeProduct

  /** With unique ids, removing cuts out exactly the product's one item, keeping the others in order. */
  lemma RemoveCutsPresentProduct(cart: seq<Item>, productId: int, k: int)
    requires UniqueIds(cart)
    requires 0 <= k < |cart| && cart[k].id == productId
    ensures RemoveProduct(cart, productId) == Ok(cart[..k] + cart[k + 1..])
    ensures |RemoveProduct(cart, productId).cart| == |cart| - 1
  {
    WithoutUnique(cart, productId, k);
  }

  /** Removing keeps the cart invariant. */
  lemma RemovePreservesValid(cart: seq<Item>, productId: int)
    requires Valid(cart)
    ensures RemoveProduct(cart, productId).Ok? ==> Valid(RemoveProduct(cart, productId).cart)
  {
    WithoutKeepsUniqueIds(cart, productId);
  }

  // ---------------------------------------------------------------------------
  // updateProductAmount

  /** A positive amount within stock replaces the product's amount (not added to it); nothing else changes. */
  lemma UpdateSetsPresentProduct(cart: seq<Item>, productId: int, amount: int, available: int, k: int)
    requires UniqueIds(cart)
    requires 0 <= k < |cart| && cart[k].id == productId
    requires 0 < amount <= available
    ensures UpdateProductAmount(cart, productId, amount, Some(available))
         == Ok(cart[k := Item(productId, amount)])
  {
    FindUnique(cart, productId, k);
    var r := SetAmount(cart, productId, amount);
    assert forall i :: 0 <= i < |cart| ==> r[i] == cart[k := Item(productId, amount)][i];
  }

  /** Updating keeps the cart invariant. */
  lemma UpdatePreservesValid(cart: seq<Item>, productId: int, amount: int, stock: Option<int>)
    requires Valid(cart)
    ensures UpdateProductAmount(cart, productId, amount, stock).Ok? ==>
              Valid(UpdateProductAmount(cart, productId, amount, stock).cart)
  {
  }

  // ---------------------------------------------------------------------------
  // Worked examples

  /**
   An empty cart; add product 1 (stock 5) twice, ask for 10 of it, then remove it.
   */
  lemma Scenario()
    ensures AddProduct([], 1, Some(5), Some(Product(1))) == Ok([Item(1, 1)])
    ensures AddProduct([Item(1, 1)], 1, Some(5), None) == Ok([Item(1, 2)])
    ensures UpdateProductAmount([Item(1, 2)], 1, 10, Some(5)) == OutOfStock
    ensures RemoveProduct([Item(1, 2)], 1) == Ok([])
  {
  }

  /**
   The add operation on a cart holding the same id twice: the in-place increment
   of the first match runs once per match, so the second item gets the first
   item's amount plus 2, whatever its own amount was.
   */
  lemma AddOnDuplicateIds()
    ensures AddProduct([Item(7, 2), Item(7, 5)], 7, Some(10), None) == Ok([Item(7, 3), Item(7, 4)])
  {
  }
}
