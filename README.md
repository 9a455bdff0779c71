# Shopping-cart service, modelled in Dafny

This project models the shopping-cart service of an e-commerce back end
(`ShoppingCartService`). Each user has one cart. A cart holds lines: a
product, a quantity and the unit price copied from the product. It also
holds a derived `totalPrice` and a `shippingCost`. Every change to a cart
moves units between the cart and the product's integer `stock`, in the
opposite direction.

Six operations are modelled:

- find-or-create a user's cart;
- read the cart view;
- add a product;
- update a line's quantity;
- remove a product;
- clear the cart.

The project has three modules:

- `Cart` (`cart.dfy`) holds the cart aggregate:
  - lines, the first-match search (`FindLine`) and the filter (`Without`);
  - the total as a left fold of price × quantity (`Total`);
  - the units of a product the lines hold (`Quantity`);
  - the flattened view the service returns (`ToView`) and its inverse (`FromView`).
- `CartStore` (`store.dfy`) holds the persisted state:
  - the state is a value: the user directory, the catalog with its stock, the carts keyed by owner, and the next generated key;
  - each operation is a function from one state to the next state and a result or error;
  - failure paths are modelled: a failed operation still keeps the empty cart that find-or-create saved first;
  - the lemmas state the error cases and their order, the exact effect of each success path, and the invariants every operation keeps.
- `ShoppingCartService` (`service.dfy`) is a class:
  - its fields hold users, products, carts and the next key;
  - its methods update those fields in place, one per service operation;
  - `clearCart`'s loop is a `while` loop with its invariant (`RestoreLines`);
  - each method is proved to leave exactly the state, and return exactly the result, that the matching `CartStore` function gives.

The model proves these invariants about the functions:

- At most one line per product.
- The cart total equals Σ price × quantity over the lines.
- For every product, conservation: stock plus the units held by all carts never changes.
- Users, product keys and prices never change.
- No cart other than the caller's changes.
- Add and a positive update never take stock below zero.
- Remove, clear and an update to zero or less keep stock at or above zero only while every line quantity is positive. A non-positive add can break that, and a later remove can then write negative stock (`CartStore.NonPositiveAddThenRemove`).
- Line quantities stay positive. For add, this holds only when the added quantity is positive.
- Every key in use, of a cart or of a line, is below the next generated key, so each new cart and new line takes a fresh key.

Error kinds and messages are a datatype (`Error`). `Kind()` gives the exception class and `Message()` the text. Plain integers stand for the database's generated keys.

## Model

| member | source | states |
|---|---|---|
| Cart.Total | src/shopping-cart/shopping-cart.service.ts:91 | the reduce as a left fold; its properties are `Cart.TotalConcat`, `Cart.TotalUpdate` and `Cart.WithoutUnique` |
| Cart.Added | src/shopping-cart/shopping-cart.service.ts:78-87 | the lines after an add; its properties are `Cart.QuantityAdded`, `Cart.AddedLines`, `Cart.IdsAdded`, `CartStore.AddToExisting` and `CartStore.AddToNew` |
| Cart.Without | src/shopping-cart/shopping-cart.service.ts:173 | the filter; its properties are `Cart.WithoutMembers`, `Cart.QuantityWithout`, `Cart.RemovedLines`, `Cart.WithoutUnique`, `Cart.WithoutLast` and `Cart.IdsWithout` |
| Cart.ToView | src/shopping-cart/shopping-cart.service.ts:51-63 | the returned view; its properties are `Cart.ViewRoundTrip` and `Cart.LinesRoundTrip` |
| Cart.LineViews | src/shopping-cart/shopping-cart.service.ts:54-60 | the mapped lines of the view; its property is `Cart.LinesRoundTrip` |
| Cart.FindLine | src/shopping-cart/shopping-cart.service.ts:78 | finds nothing exactly when no line has the product; otherwise returns the first line that has it |
| Cart.TotalConcat | src/shopping-cart/shopping-cart.service.ts:91 | the total of two runs of lines is the sum of their totals |
| Cart.TotalUpdate | src/shopping-cart/shopping-cart.service.ts:149 | changing one line changes the total by exactly the difference of that line's price × quantity |
| Cart.QuantityAdded | src/shopping-cart/shopping-cart.service.ts:78-87 | after an add, the cart holds q more units of the product and the same units of every other product |
| Cart.AddedLines | src/shopping-cart/shopping-cart.service.ts:78-87 | an add keeps one line per product and moves only that product's units, by q |
| Cart.IdsAdded | src/shopping-cart/shopping-cart.service.ts:80-87 | every line key stays below the bound, and the bound advances by one exactly when a line is appended |
| Cart.IdsWithout | src/shopping-cart/shopping-cart.service.ts:173 | the filter keeps every line key below the bound |
| Cart.IdsUpdated | src/shopping-cart/shopping-cart.service.ts:135 | setting a line's quantity keeps every line key below the bound |
| Cart.UpdatedLines | src/shopping-cart/shopping-cart.service.ts:135 | setting a line's quantity keeps one line per product, changes only that product's units, and, when every quantity was positive and the new one is, leaves none ≤ 0 |
| Cart.QuantityWithout | src/shopping-cart/shopping-cart.service.ts:173 | after the filter the product has no units left and every other product keeps its units |
| Cart.WithoutMembers | src/shopping-cart/shopping-cart.service.ts:173 | the filter keeps exactly the lines of the other products |
| Cart.QuantityUnique | src/shopping-cart/shopping-cart.service.ts:167 | with one line per product, the cart's units of a product are that line's quantity (the amount remove gives back) |
| Cart.RemovedLines | src/shopping-cart/shopping-cart.service.ts:159-174 | removing a product keeps one line per product, zeroes its units, keeps every other product's units, keeps only lines that were in the cart, and keeps positive quantities positive |
| Cart.WithoutUnique | src/shopping-cart/shopping-cart.service.ts:173-174 | with one line per product, the filter drops exactly the found line, keeps the others in order, and lowers the total by that line's cost |
| Cart.WithoutLast | src/shopping-cart/shopping-cart.service.ts:84-87 | an appended line of a new product is the line found for that product, and filtering that product out gives back the earlier lines |
| Cart.LinesRoundTrip | src/shopping-cart/shopping-cart.service.ts:54-60 | the view's lines give back the cart's lines, and each line view carries the cart's id |
| Cart.ViewRoundTrip | src/shopping-cart/shopping-cart.service.ts:51-63 | the view loses nothing of the cart, names the requesting user, and tags every line with the cart id |
| CartStore.FindOrCreate | src/shopping-cart/shopping-cart.service.ts:25-46 | findOrCreateCart; its properties are `CartStore.FindOrCreateSpec`, `CartStore.UnknownUser`, `CartStore.FindOrCreateKeys` and `CartStore.NextKeyFresh` |
| CartStore.GetCart | src/shopping-cart/shopping-cart.service.ts:48-64 | getCartByUserId; its properties are `CartStore.GetCartIdempotent`, `CartStore.UnknownUser` and `Cart.ViewRoundTrip` |
| CartStore.FindOrCreateSpec | src/shopping-cart/shopping-cart.service.ts:25-46 | missing user: NotFound, nothing written; existing cart: returned unchanged; otherwise a new saved cart with no lines, total 0, shipping 0 and the key nextId; the state stays valid and no stock moves |
| CartStore.UnknownUser | src/shopping-cart/shopping-cart.service.ts:26-27 | every operation checks the user first: an unknown user gives NotFound with nothing written |
| CartStore.GetCartIdempotent | src/shopping-cart/shopping-cart.service.ts:48-64 | reading the cart a second time gives the same view and writes nothing more |
| CartStore.AddToCart | src/shopping-cart/shopping-cart.service.ts:71-106 | add on a loaded cart; its properties are `CartStore.AddToCartOutcome`, `CartStore.AddToExisting`, `CartStore.AddToNew`, `CartStore.AddToCartPreserves` and `CartStore.AddToCartKeys` |
| CartStore.AddToCartOutcome | src/shopping-cart/shopping-cart.service.ts:71-92 | unknown product: NotFound; stock below q: BadRequest; both write nothing. Otherwise stock drops by exactly q and stays ≥ 0, the total equals Σ over the new lines, and the view is that cart |
| CartStore.AddToExisting | src/shopping-cart/shopping-cart.service.ts:78-83 | a product already in the cart: its line grows by q and takes the current price, no line is added, other lines are untouched, and the total moves by the line's cost change |
| CartStore.AddToNew | src/shopping-cart/shopping-cart.service.ts:84-87 | a product not in the cart: exactly one new line, keyed nextId, is appended, the key counter advances, and the total grows by price × q |
| CartStore.AddToCartPreserves | src/shopping-cart/shopping-cart.service.ts:71-92 | on a loaded cart, add keeps the state valid, conserves stock, touches only this cart, never makes stock negative, and keeps quantities positive when q > 0 |
| CartStore.Add | src/shopping-cart/shopping-cart.service.ts:66-107 | addProductToCart; its properties are `CartStore.AddPreserves`, `CartStore.AddKeys`, `CartStore.UnknownUser`, `CartStore.AddThenRemove` and `CartStore.NonPositiveAddThenRemove` |
| CartStore.AddPreserves | src/shopping-cart/shopping-cart.service.ts:66-107 | the same for the whole operation, including find-or-create |
| CartStore.UpdateInCart | src/shopping-cart/shopping-cart.service.ts:123-152 | update on a loaded cart; its properties are `CartStore.UpdateInCartErrors`, `CartStore.UpdateInCartSuccess`, `CartStore.UpdateInCartOk`, `CartStore.UpdateInCartPreserves` and `CartStore.UpdateInCartKeys` |
| CartStore.UpdateInCartErrors | src/shopping-cart/shopping-cart.service.ts:123-141 | no line: NotFound, checked before the quantity; product gone from the catalog: NotFound; quantity ≤ 0: exactly remove; a rise beyond the stock: BadRequest, nothing written |
| CartStore.UpdateInCartSuccess | src/shopping-cart/shopping-cart.service.ts:135-152 | a positive quantity within stock: the line holds it at its old price, the other lines are untouched, stock moves by exactly the difference (stock + line quantity unchanged), the total moves by the line's cost change, and the view is the cart |
| CartStore.UpdateNonPositiveIsRemove | src/shopping-cart/shopping-cart.service.ts:131-133 | an update to ≤ 0 leaves the state remove leaves; it returns what remove returns, except "Product Not Found" in place of "Product not found in cart" when the product has no line |
| CartStore.UpdateInCartOk | src/shopping-cart/shopping-cart.service.ts:135-151 | a successful positive update keeps the state valid, conserves stock, touches only this cart, never takes stock below zero, and keeps positive quantities positive |
| CartStore.UpdateInCartPreserves | src/shopping-cart/shopping-cart.service.ts:123-152 | on a loaded cart, update in every case keeps the state valid, conserves stock and touches only this cart; while every line quantity is positive it leaves none ≤ 0 and keeps stock ≥ 0 |
| CartStore.Update | src/shopping-cart/shopping-cart.service.ts:120-153 | updateShoppingCartProductQuantity; its properties are `CartStore.UpdatePreserves`, `CartStore.UpdateKeys`, `CartStore.UpdateNonPositiveIsRemove` and `CartStore.UnknownUser` |
| CartStore.UpdatePreserves | src/shopping-cart/shopping-cart.service.ts:120-153 | the same for the whole operation |
| CartStore.RemoveFromCart | src/shopping-cart/shopping-cart.service.ts:159-178 | remove on a loaded cart; its properties are `CartStore.RemoveFromCartOutcome`, `CartStore.RemoveFromCartPreserves` and `CartStore.RemoveFromCartKeys` |
| CartStore.RemoveFromCartOutcome | src/shopping-cart/shopping-cart.service.ts:159-178 | product not in the cart, or gone from the catalog: NotFound, nothing written. Otherwise the line's full quantity returns to stock, exactly that line is dropped with the others kept in order, and the total drops by its cost |
| CartStore.RemoveFromCartPreserves | src/shopping-cart/shopping-cart.service.ts:159-176 | on a loaded cart, remove keeps the state valid, conserves stock and touches only this cart; while every line quantity is positive it keeps them positive and stock ≥ 0 |
| CartStore.Remove | src/shopping-cart/shopping-cart.service.ts:156-179 | removeProductCartShopping; its properties are `CartStore.RemovePreserves`, `CartStore.RemoveKeys`, `CartStore.AddThenRemove` and `CartStore.UnknownUser` |
| CartStore.RemovePreserves | src/shopping-cart/shopping-cart.service.ts:156-179 | the same for the whole operation |
| CartStore.Restock | src/shopping-cart/shopping-cart.service.ts:189-192 | one step of clearCart's loop; its property is `CartStore.RestoreStockEffect` |
| CartStore.RestoreStock | src/shopping-cart/shopping-cart.service.ts:188-194 | clearCart's loop as a fold; its property is `CartStore.RestoreStockEffect`, and `ShoppingCartService.ShoppingCartService.RestoreLines` is proved equal to it |
| CartStore.ClearLoaded | src/shopping-cart/shopping-cart.service.ts:184-201 | clear on a loaded cart; its properties are `CartStore.ClearLoadedOutcome` and `CartStore.ClearLoadedPreserves` |
| CartStore.RestoreStockEffect | src/shopping-cart/shopping-cart.service.ts:188-194 | clearCart's loop raises each catalog product's stock by exactly the units the lines held of it; it skips products no longer in the catalog and changes no price |
| CartStore.ClearLoadedOutcome | src/shopping-cart/shopping-cart.service.ts:184-201 | empty cart: BadRequest, nothing written; otherwise no lines, total 0, every product's stock raised by what the cart held of it, and the view is the emptied cart |
| CartStore.ClearLoadedPreserves | src/shopping-cart/shopping-cart.service.ts:184-199 | on a loaded cart, clear keeps the state valid, conserves stock and touches only this cart; while every line quantity is positive it keeps stock ≥ 0 |
| CartStore.Clear | src/shopping-cart/shopping-cart.service.ts:181-202 | clearCart; its properties are `CartStore.ClearPreserves`, `CartStore.ClearKeys` and `CartStore.UnknownUser` |
| CartStore.ClearPreserves | src/shopping-cart/shopping-cart.service.ts:181-202 | the same for the whole operation |
| CartStore.NonPositiveAddThenRemove | src/shopping-cart/shopping-cart.service.ts:74-171 | on a valid store with stock 0 and every quantity positive, an add of -3 for one user, an add of 3 for another and the first user's remove leave the store valid with stock -3: without a quantity check, stock can go negative |
| CartStore.NextKeyFresh | src/shopping-cart/shopping-cart.service.ts:42 | while every key in use is below nextId, nextId is the key of no cart and of no line |
| CartStore.FindOrCreateKeys | src/shopping-cart/shopping-cart.service.ts:34-43 | find-or-create keeps every key in use below the next key |
| CartStore.AddToCartKeys | src/shopping-cart/shopping-cart.service.ts:78-92 | add on a loaded cart keeps every key in use below the next key |
| CartStore.AddKeys | src/shopping-cart/shopping-cart.service.ts:66-107 | the whole add keeps every key in use below the next key |
| CartStore.UpdateInCartKeys | src/shopping-cart/shopping-cart.service.ts:123-152 | update on a loaded cart keeps every key in use below the next key |
| CartStore.UpdateKeys | src/shopping-cart/shopping-cart.service.ts:120-153 | the whole update keeps every key in use below the next key |
| CartStore.RemoveFromCartKeys | src/shopping-cart/shopping-cart.service.ts:159-176 | remove on a loaded cart keeps every key in use below the next key |
| CartStore.RemoveKeys | src/shopping-cart/shopping-cart.service.ts:156-179 | the whole remove keeps every key in use below the next key |
| CartStore.ClearKeys | src/shopping-cart/shopping-cart.service.ts:181-202 | clear keeps every key in use below the next key |
| CartStore.AddThenRemove | src/shopping-cart/shopping-cart.service.ts:66-179 | adding a product the cart lacks and then removing it restores the stock and the cart exactly; only one generated key is used up |
| ShoppingCartService.ShoppingCartService.constructor | src/shopping-cart/shopping-cart.service.ts:17-23 | a service over a user directory and a catalog starts with no carts, in a valid state with every key below the next |
| ShoppingCartService.ShoppingCartService.FindOrCreateCart | src/shopping-cart/shopping-cart.service.ts:25-46 | the fields and the result are exactly those of `CartStore.FindOrCreate`, and the invariants are kept |
| ShoppingCartService.ShoppingCartService.GetCartByUserId | src/shopping-cart/shopping-cart.service.ts:48-64 | the fields and the result are exactly those of `CartStore.GetCart`, and the invariants are kept |
| ShoppingCartService.ShoppingCartService.AddProductToCart | src/shopping-cart/shopping-cart.service.ts:66-107 | updating the line in place or appending one, then the stock and the total, gives exactly the state and result of `CartStore.Add`, and the invariants are kept |
| ShoppingCartService.ShoppingCartService.UpdateShoppingCartProductQuantity | src/shopping-cart/shopping-cart.service.ts:120-153 | the checks in the source's order, delegation to remove for quantities ≤ 0, and the stock move by the difference give exactly the state and result of `CartStore.Update`, and the invariants are kept |
| ShoppingCartService.ShoppingCartService.RemoveProductCartShopping | src/shopping-cart/shopping-cart.service.ts:156-179 | gives exactly the state and result of `CartStore.Remove`, and the invariants are kept |
| ShoppingCartService.ShoppingCartService.ClearCart | src/shopping-cart/shopping-cart.service.ts:181-202 | restores stock, then empties the cart; it gives exactly the state and result of `CartStore.Clear`, and the invariants are kept |
| ShoppingCartService.ShoppingCartService.RestoreLines | src/shopping-cart/shopping-cart.service.ts:188-194 | the loop restores stock line by line, in order, its invariant being the fold `RestoreStock` over the lines done so far; nothing but the stock changes |

The class methods state their whole new state in terms of the
`CartStore` functions. They also keep the class invariant `Valid()`, which
holds the cart invariants and the key bound: each method gets this from the
`*Preserves` and `*Keys` lemmas about the same functions.

## Left out

- Persistence and concurrency:
  - TypeORM repositories, `save`, `async`/`await` and races between concurrent requests are not modelled;
  - the model is sequential, and each operation runs as one step on an in-memory state;
  - the model keeps a cart's lines in the order they were saved, but reloading them in `getCartByUserId` (lines 152, 178, 201) uses a relation with no `order`, so the source promises no order for the returned view; "the others kept in order" holds for the filter at line 173 and the stored sequence, not for the reloaded view.
- Prices:
  - a product's price is double precision (`src/product/entities/product.entity.ts:22`);
  - here every price is an integer number of cents, so there is no floating-point rounding.
- `CartProductsService` is not part of this model:
  - the line rows it creates (line 85), updates (line 83) and deletes (lines 169 and 193) are the cart's `lines` sequence;
  - for a grown line, add is modelled as persisting both the new quantity and the new price; whether `updateCartProductQuantity` writes the price cannot be seen.
- Update persists its line only through the cart:
  - `updateShoppingCartProductQuantity` makes no `CartProductsService` call;
  - the new quantity (line 135) is written only by `shoppingCartRepository.save(cart)` (line 151), and only if the cart entity cascades its lines, which cannot be seen;
  - `getCartByUserId` (line 152) then reads the lines back;
  - the model assumes that cascade and saves the new quantity with the cart;
  - without the cascade, stock moves by the difference (lines 144 and 146) while the row keeps its old quantity, so conservation would fail;
  - `CartStore.UpdateInCartSuccess`, `CartStore.UpdateInCartOk`, `CartStore.UpdateInCartPreserves` and `CartStore.UpdatePreserves` hold only under this assumption.
- `UserService` and `ProductService` are not part of this model:
  - they are a set of user ids and a map from product id to price and stock;
  - the other fields of a product are left out.
- Generated keys:
  - the database's generated keys are a counter, `nextId`;
  - each user's cart is stored under the user's id, so a user has at most one cart.
- Quantity validation:
  - add does not reject a non-positive quantity;
  - the DTO's validation is not part of this model, and the model follows the service as written;
  - `CartStore.AddPreserves` and `CartStore.AddToCartPreserves` keep quantities positive only when the added quantity is positive;
  - remove, clear and an update to zero or less are proved to keep stock ≥ 0 only while every quantity is positive;
  - `CartStore.NonPositiveAddThenRemove` shows the path where a non-positive add followed by a remove writes negative stock. This is a path read from the code; the service was not run to confirm it.
- Quantities:
  - in the source a quantity is a JavaScript `number`, and stock is an `int` column (`src/product/entities/product.entity.ts:35`);
  - the model's quantities are unbounded integers, so non-integer quantities are not modelled;
  - stock is a 32-bit column, so a restore or a negative add that takes stock past 2^31 − 1 fails in the database, while the model's unbounded stock accepts it.
- `getCartByUserId` and the user relation:
  - the source reads the owner as `cart.user.uid` from a cart loaded without its user relation;
  - the cart entity is not part of this model, so the model uses the id the cart is stored under;
  - unless the entity loads `user` eagerly, `cart.user.uid` at line 53 is undefined and throws. Update, remove and clear then throw after their writes (lines 152, 178 and 201), where the model returns Ok.
- Products leaving the catalog:
  - no modelled operation removes a product from the catalog;
  - the invariant `CartStore.Valid` still allows a line whose product is gone, so the lemmas cover that state: update's and remove's NotFound at lines 127 and 165, and clear's skipped restock at line 190.
- Update before its stock check:
  - `updateShoppingCartProductQuantity` changes the in-memory line (line 135) before the stock check (line 139);
  - when the check fails nothing is saved, and the model writes nothing.
- Remove with several lines of one product:
  - remove gives back the quantity of the first matching line but filters out every line of the product;
  - the model does the same, and the two agree because the lines stay one per product.
- Operations not modelled:
  - `findOneById` (lines 109-118) is not used by the modelled operations;
  - the controller, the seeders, the bootstrap and the module wiring are not modelled.
- `ShoppingCartService.ShoppingCartService` methods:
  - their invariant `Valid()` covers the cart invariants and the key bound;
  - conservation of stock and the untouched other carts are stated on the `CartStore` functions the methods are proved equal to, not in the methods' own contracts.
