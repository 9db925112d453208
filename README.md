# Shopping-cart hook of the RocketShoes storefront, in Dafny

This project models the cart state container of the storefront
(`CartProvider` in `src/hooks/useCart.tsx`). That container holds an ordered
list of cart entries. Each entry is a product record plus the quantity in the
cart (`amount`). The container also keeps a persisted snapshot of the list in
the storage slot under the key `'@RocketShoes:cart'`. It has three
transitions: `addProduct`, `removeProduct` and `updateProductAmount`.

The model has two modules:

- `CartList` (`cart_list.dfy`) holds the entry datatype and the pure list
  expressions the transitions build their new carts from. These are `find`,
  the spread-append of a new entry, the two `map`s that rewrite an amount, and
  `filter`. Lemmas show how they keep ids distinct, keep order and undo one
  another.
- `UseCart` (`use_cart.dfy`) holds one pure step function per transition.
  Each takes the current cart and the answers of the remote lookups and gives
  an `Outcome`: a new cart to set and persist, a silent return, or an error
  message (`Toast`) with nothing changed. The class `CartProvider` has the
  fields `cart` and `storage`. Its methods commit a step's outcome in place.
  Its invariant `Valid()` says the snapshot equals the cart. The only
  exception is before the first write, when the slot is empty and the cart
  is `[]`.

The remote lookups (`api.get('stock/…')`, `api.get('products/…')`) are
parameters of type `Option`. `None` stands for a request that threw, which
the source catches and turns into a toast. The `try`/`catch` around
`addProduct` and `updateProductAmount` is modelled the same way. The stock
guard of `addProduct` is modelled as written: it rejects a stock amount of
`<= 1` and never compares the stock with the amount already in the cart. So a
product whose stock is exactly 1 can never be added, while a product with a
stock of 2 or more can be added without limit, past its stock;
`UseCart.AddCanExceedStock` shows this. "Amount bounded by stock" is
therefore not an invariant of the cart. `updateProductAmount` has the same
`<= 1` guard. It never checks the sign of the requested amount, and
`UseCart.UpdateAdmitsNonPositiveAmount` shows that an amount of zero or below
goes through. So "amount is positive" is not an invariant of the cart, and
the model does not claim it.

Distinct ids are likewise not enforced by the source. They are preserved
whenever they hold before a transition. For `addProduct` this needs the
product endpoint to return the record with the id that was asked for. The
lemmas state that condition as a hypothesis.

The product record has the fields id, title, price, image and amount.
`src/types` is not part of this model. Of these fields the source only reads
`id` and `amount`, and it copies the others unchanged.

## Model

| member | source | states |
|---|---|---|
| `CartList.Find` | src/hooks/useCart.tsx:46 | no result exactly when no entry has the id; otherwise the result is the entry at the first index with the id |
| `CartList.FindFirst` | src/hooks/useCart.tsx:67 | the entry at the first index carrying the id is what `find` returns |
| `CartList.Appended` | src/hooks/useCart.tsx:50 | one more entry at the end, the fetched record with amount 1; the earlier entries unchanged and in order |
| `CartList.Incremented` | src/hooks/useCart.tsx:54 | same length; entries with the id have amount + 1 and everything else of them kept; other entries untouched |
| `CartList.WithAmount` | src/hooks/useCart.tsx:98 | same length; entries with the id take the requested amount and keep everything else; other entries untouched |
| `CartList.WithoutId` | src/hooks/useCart.tsx:74 | the survivors are exactly the entries without the id; no entry with the id remains; the cart is unchanged when the id is absent and strictly shorter when present |
| `CartList.WithoutIdAppend` | src/hooks/useCart.tsx:74 | filtering distributes over concatenation, so the relative order of the survivors is kept |
| `CartList.WithoutIdKeepsAbsent` | src/hooks/useCart.tsx:74 | filtering brings in no id the cart did not already carry |
| `CartList.WithoutIdKeepsUniqueIds` | src/hooks/useCart.tsx:74 | filtering keeps distinct ids distinct |
| `CartList.IncrementedKeepsUniqueIds` | src/hooks/useCart.tsx:54 | incrementing keeps distinct ids distinct |
| `CartList.WithAmountKeepsUniqueIds` | src/hooks/useCart.tsx:98 | overwriting an amount keeps distinct ids distinct |
| `CartList.WithAmountIdempotent` | src/hooks/useCart.tsx:98 | overwriting twice equals overwriting once; overwriting after an increment equals overwriting alone |
| `CartList.AppendedThenWithoutId` | src/hooks/useCart.tsx:50-74 | filtering out an id that was just appended as new restores the original cart |
| `CartList.AppendedKeepsUniqueIds` | src/hooks/useCart.tsx:46-52 | appending an entry whose id is not yet present keeps ids distinct |
| `CartList.AppendedThenFind` | src/hooks/useCart.tsx:46-50 | after an id not in the cart is appended, `find` returns the new entry at amount 1 |
| `CartList.IncrementedThenFind` | src/hooks/useCart.tsx:46-54 | after an increment, `find` returns the entry it returned before, at amount + 1 |
| `UseCart.AddStep` | src/hooks/useCart.tsx:35-63 | a failed stock lookup or product lookup is an add error; stock `<= 1` is an out-of-stock error; otherwise success, with a new id appended at amount 1 after the unchanged entries, or the existing id's amount incremented with length, order and the other entries unchanged; never a silent return |
| `UseCart.RemoveStep` | src/hooks/useCart.tsx:65-82 | a remove error exactly when the id is absent; otherwise a strictly shorter cart with no entry of the id, whose entries are exactly the old ones without the id |
| `UseCart.UpdateStep` | src/hooks/useCart.tsx:84-106 | a failed lookup is an update error; stock `<= 0` is a silent return; stock `< amount` or `<= 1` is an out-of-stock error; success exactly when stock `> 1` and `amount <= stock`, with every entry of the id set to the amount, the rest unchanged, same length and order, and the cart unchanged when the id is absent |
| `UseCart.AddKeepsUniqueIds` | src/hooks/useCart.tsx:46-54 | when the fetched record carries the requested id, a successful add keeps the ids distinct |
| `UseCart.AddNewThenFind` | src/hooks/useCart.tsx:46-52 | with enough stock and the record fetched, adding an id not in the cart appends it, and `find` then returns it at amount 1 |
| `UseCart.AddExistingThenFind` | src/hooks/useCart.tsx:53-54 | with enough stock and the record fetched, adding an id already in the cart increments it, and `find` then returns the first entry with the id at its old amount + 1 |
| `UseCart.RemoveKeepsUniqueIds` | src/hooks/useCart.tsx:74 | a successful remove keeps the ids distinct |
| `UseCart.UpdateKeepsUniqueIds` | src/hooks/useCart.tsx:98 | a successful update keeps the ids distinct |
| `UseCart.RemoveKeepsOrder` | src/hooks/useCart.tsx:74 | removing from a cart split anywhere gives the two parts filtered and concatenated in order |
| `UseCart.AddThenRemove` | src/hooks/useCart.tsx:50-74 | adding a product that is not in the cart and then removing it gives back the original cart |
| `UseCart.UpdateIdempotent` | src/hooks/useCart.tsx:91-98 | an accepted update repeated with the same stock answer changes nothing more; an update after adding an existing product cancels the increment, whatever record the product lookup returned |
| `UseCart.UpdateAdmitsNonPositiveAmount` | src/hooks/useCart.tsx:93-98 | a requested amount of zero or below passes the guards and is written into the cart |
| `UseCart.AddCanExceedStock` | src/hooks/useCart.tsx:41-54 | with a stock above 1, an entry already in the cart is incremented whatever its amount, so an entry at or above the stock ends up above it |
| `UseCart.CartProvider.constructor` | src/hooks/useCart.tsx:25-33 | the initial cart is the stored snapshot when there is one and `[]` otherwise; the snapshot invariant holds |
| `UseCart.CartProvider.Commit` | src/hooks/useCart.tsx:52-59 | a new cart replaces both the cart and the snapshot; any other outcome changes neither; the toast returned is the outcome's |
| `UseCart.CartProvider.AddProduct` | src/hooks/useCart.tsx:35-63 | commits `AddStep` of the old cart: on success the cart and the snapshot both equal the new cart, on error both are unchanged; the snapshot invariant is kept |
| `UseCart.CartProvider.RemoveProduct` | src/hooks/useCart.tsx:65-82 | commits `RemoveStep` of the old cart in the same way |
| `UseCart.CartProvider.UpdateProductAmount` | src/hooks/useCart.tsx:84-106 | commits `UpdateStep` of the old cart in the same way; a silent return changes nothing |

## Left out

- `src/components/Header/index.tsx`: presentation only. It renders the cart length with a singular or plural label and logs the cart.
- The remote stock and product requests: they are inputs of the transitions, with `None` for a request that threw. Network I/O and latency are not modelled.
- `localStorage` and JSON encoding: the storage slot is a field holding a copy of the cart. `JSON.parse` of a corrupt snapshot and the falsy-string test at line 28 are not modelled.
- `localStorage.setItem` throwing after `setCart` has run (for example, storage quota): the cart would then change while the snapshot does not. The model treats persisting as infallible.
- `removeProduct`'s `catch` branch: nothing in the modelled part of its body can throw.
- The text of the toast messages: each is one constructor of `Toast`. The `toast` library itself is not modelled.
- React context, `useState` batching, the `async` interleaving of calls in flight, and stale closures over `cart`: each transition is modelled as atomic on the current cart.
- Numbers: ids, amounts and prices are unbounded integers. JavaScript numbers are floating point, and fractional or non-finite values are not modelled.
