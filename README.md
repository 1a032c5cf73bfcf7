# Cart state transitions of the RocketShoes storefront

This project models the shopping-cart hook of the storefront (`src/hooks/useCart.tsx`) in Dafny. The cart is an ordered list of products, each with the amount requested. Three operations change it:

- `addProduct` checks the stock. It raises the amount of a product already in the cart by one, or appends a new product with amount 1.
- `removeProduct` filters a product out of the cart.
- `updateProductAmount` sets a product's amount to a given value, within stock.

The model has three files:

- `cart.dfy` (module `Cart`) holds the data, the list helpers behind `find`, `map` and `filter`, and the three transitions as pure functions. Each function returns an `Outcome`: either `Ok(newCart)` or the notification that the hook would show (`OutOfStock`, `AddFailed`, `RemoveFailed`, `UpdateFailed`).
- `cart_properties.dfy` (module `CartProperties`) holds the lemmas. They cover which item changes, that nothing else changes and the order is kept, and which notification is raised. They also prove that remove and update keep the cart invariant (product ids are unique and every amount is at least 1), and that add keeps it when the catalogue answers with the product asked for.
- `cart_store.dfy` (module `CartStore`) holds the class `Store`. It owns the `cart` state cell, and its methods apply the transitions, replacing the cart only on `Ok`.

The two remote lookups become inputs:

- the stock level from `GET /stock/{id}`, as `Option<int>`;
- the catalogue record from `GET /products/{id}`, as `Option<Product>`.

A failed request is `None`. The hook's `try`/`catch` turns every failure into the operation's own notification, and the model does the same.

Three details of the code shape the model:

- An add whose product is already in the cart at or above its stock shows the out-of-stock notification (`useCart.tsx:73-75`), not the add-failed one. The model returns `OutOfStock`.
- The add's `map` (`useCart.tsx:66-70`) evaluates `storagedProduct.amount += 1` once for every item with the id. With unique ids, the one matching item gets its amount plus 1. On a cart holding an id twice, the second item gets the first item's amount plus 2. `Cart.IncrementMatches` models this exactly, and `CartProperties.AddOnDuplicateIds` shows it.
- The appended item takes its id from the catalogue's answer (`...product`, `useCart.tsx:81-84`), not from `productId`. That is why `AddPreservesValid` assumes that the catalogue answers with the product asked for.

## Model

| member | source | states |
|---|---|---|
| `Cart.Count` | src/hooks/useCart.tsx:100-102 | the number of items with an id is at most the cart length, and it is zero exactly when no item has that id |
| `Cart.Find` | src/hooks/useCart.tsx:62 | `find` gives nothing exactly when no item has the id; otherwise it gives an item of the cart that has the id |
| `Cart.IncrementMatches` | src/hooks/useCart.tsx:66-70 | the add operation's `map` keeps the length, leaves items with other ids untouched, and gives the k-th item with the id the amount `last + k`, because the increment of the found item is evaluated once per match |
| `Cart.SetAmount` | src/hooks/useCart.tsx:129-131 | the update operation's `map` keeps the length and sets the amount of every item with the id to the given value; the other items stay as they were |
| `Cart.Without` | src/hooks/useCart.tsx:100-102 | the remove operation's `filter` holds exactly the cart's items with another id, and it is shorter by the number of items with the id |
| `Cart.AddProduct` | src/hooks/useCart.tsx:56-91 | the add fails exactly when the stock request fails, or when the product is new and the catalogue request fails. It is out of stock exactly when the first item with the id already has at least the stock. For a product already in the cart it keeps the length and every id and leaves every item with another id unchanged. For a new product it appends `Item(p.id, 1)` to the unchanged cart |
| `Cart.RemoveProduct` | src/hooks/useCart.tsx:93-110 | the remove fails exactly when no item has the id. Otherwise the new cart holds exactly the items with another id, and it is shorter by their count |
| `Cart.UpdateProductAmount` | src/hooks/useCart.tsx:112-142 | an amount of 0 or less gives `Ok` with the cart unchanged. The update fails exactly when the amount is positive and either the stock request fails or the product is absent. It is out of stock exactly when the product is present and the amount exceeds the stock, and it never gives `AddFailed` or `RemoveFailed`, so a positive amount within stock on a present product gives `Ok`. On success it keeps the length and every id, every item with the id gets exactly the given amount, and every other item is unchanged |
| `CartProperties.FindFirst` | src/hooks/useCart.tsx:62 | `find` gives the first item with the id |
| `CartProperties.FindUnique` | src/hooks/useCart.tsx:62 | with unique ids, `find` gives the one item with the id |
| `CartProperties.CountAppend` | src/hooks/useCart.tsx:100-102 | the count of items with an id adds up over concatenation |
| `CartProperties.CountPrefixUnique` | src/hooks/useCart.tsx:66-70 | with unique ids, the count of the id in a prefix is 0 before the item's position and 1 from there on |
| `CartProperties.IncrementMatchesUnique` | src/hooks/useCart.tsx:66-70 | with unique ids, the add operation's `map` changes only the one matching item, to `last + 1` |
| `CartProperties.WithoutAbsent` | src/hooks/useCart.tsx:100-102 | filtering an id that no item has leaves the cart as it was |
| `CartProperties.WithoutAppend` | src/hooks/useCart.tsx:100-102 | filtering keeps the order: it distributes over concatenation |
| `CartProperties.WithoutUnique` | src/hooks/useCart.tsx:100-102 | with unique ids, filtering cuts out exactly the item at the id's position; the items before and after it stay in order |
| `CartProperties.WithoutKeepsUniqueIds` | src/hooks/useCart.tsx:100-102 | filtering a cart with unique ids gives a cart with unique ids |
| `CartProperties.AddIncrementsPresentProduct` | src/hooks/useCart.tsx:62-72 | with unique ids, adding a present product whose amount is below the stock gives the cart with that one item's amount raised by exactly 1; every other item and the order stay the same |
| `CartProperties.AddRefusesAtStock` | src/hooks/useCart.tsx:64-75 | with unique ids, adding a present product whose amount is at or above the stock gives `OutOfStock` and no new cart |
| `CartProperties.AddPreservesValid` | src/hooks/useCart.tsx:56-91 | a successful add keeps ids unique and every amount at least 1, provided the catalogue answers with the requested id |
| `CartProperties.RemoveCutsPresentProduct` | src/hooks/useCart.tsx:97-103 | with unique ids, removing a present product gives the cart without that one item, the others in order, one item shorter |
| `CartProperties.RemovePreservesValid` | src/hooks/useCart.tsx:93-110 | a successful remove keeps ids unique and every amount at least 1 |
| `CartProperties.UpdateSetsPresentProduct` | src/hooks/useCart.tsx:125-132 | with unique ids, a positive amount within stock replaces that one item's amount with exactly the given value (it is not added); every other item and the order stay the same |
| `CartProperties.UpdatePreservesValid` | src/hooks/useCart.tsx:112-142 | a successful update keeps ids unique and every amount at least 1 |
| `CartProperties.Scenario` | src/hooks/useCart.tsx:56-142 | starting from an empty cart with stock 5: add product 1 gives `[1×1]`; add it again gives `[1×2]`; asking for 10 gives `OutOfStock`; remove gives `[]` |
| `CartProperties.AddOnDuplicateIds` | src/hooks/useCart.tsx:66-70 | on a cart holding id 7 with amounts 2 and 5, an add gives amounts 3 and 4 |
| `CartStore.Store.constructor` | src/hooks/useCart.tsx:32-40 | the initial cart is the persisted cart when there is one, else the empty cart |
| `CartStore.Store.AddProduct` | src/hooks/useCart.tsx:56-91 | the returned outcome is `Cart.AddProduct` of the old cart. The cart is replaced only on `Ok`, and a valid cart stays valid when the catalogue answers with the requested id |
| `CartStore.Store.RemoveProduct` | src/hooks/useCart.tsx:93-110 | the returned outcome is `Cart.RemoveProduct` of the old cart. The cart is replaced only on `Ok`, and a valid cart stays valid |
| `CartStore.Store.UpdateProductAmount` | src/hooks/useCart.tsx:112-142 | the returned outcome is `Cart.UpdateProductAmount` of the old cart. The cart is replaced only on `Ok`, and a valid cart stays valid |

## Left out

- The React plumbing is not modelled (`useCart.tsx:29-54,144-157`): the context, the provider, `useState`, `useRef`, `useEffect` and `useCart`. It is framework glue. The `Store` class stands in for the state cell.
- The HTTP calls through `api.get` are foreign I/O. Their answers are parameters, and a failed request is `None`.
- Persistence through `localStorage` with `JSON.stringify`/`JSON.parse` is browser I/O and library serialisation. The constructor takes the already-parsed persisted cart. An empty stored string is treated like no stored cart. Malformed stored data is not modelled, because the source does no validation.
- The text of the `toast.error` notifications is not modelled. Each notification is an `Outcome` constructor.
- The race between the captured `cart` snapshot and the functional `setCart(prev => [...prev, newProduct])` update (`useCart.tsx:58,86,121`) is not modelled. It is concurrency between asynchronous calls. The model applies each operation to the current cart, which is what happens when the calls do not overlap.
- The in-place write `storagedProduct.amount += 1` (`useCart.tsx:68`) also changes the item inside the old snapshot array. That aliasing is not modelled. Its effect on the new cart is modelled by `Cart.IncrementMatches`.
- Price, name and image of a product are not modelled. They take no part in any decision. Amounts and ids are JavaScript numbers; the model uses integers, so fractional amounts are not modelled.
- `CartProperties.AddPreservesValid` is weaker than an unconditional invariant: it assumes the catalogue returns a product whose id is the requested id. Without that, the appended item could repeat an id already in the cart.
