/** The cart provider: its three transitions as pure step functions from the
    current cart and the answers of the remote lookups to an outcome, and the
    stateful provider that holds the cart and its persisted snapshot and
    commits each outcome. */
module UseCart {
  import opened CartList

  /** A stock record as the stock endpoint returns it. */
  datatype Stock = Stock(id: int, amount: int)

  /** The error messages the provider shows. */
  datatype Toast =
    | OutOfStock    // "Quantidade solicitada fora de estoque"
    | AddFailed     // "Erro na adição do produto"
    | RemoveFailed  // "Erro na remoção do produto"
    | UpdateFailed  // "Erro na alteração de quantidade do produto"

  /** What one transition decides: a new cart to set and persist, a silent
      return, or an error message with nothing changed. */
  datatype Outcome = Updated(newCart: seq<Product>) | Ignored | Failed(toast: Toast)

  /** The message an outcome shows, if any. */
  function ToastOf(o: Outcome): Option<Toast>
  {
    if o.Failed? then Some(o.toast) else None
  }

  /** `addProduct`. `stock` and `fetched` are the answers of the stock and
      product lookups for `productId`; `None` stands for a request that threw,
      which lands in the catch branch. */
  function AddStep(cart: seq<Product>, productId: int, stock: Option<Stock>, fetched: Option<Product>): (o: Outcome)
    ensures !o.Ignored?
    ensures stock.None? ==> o == Failed(AddFailed)
    ensures stock.Some? && stock.value.amount <= 1 ==> o == Failed(OutOfStock)
    ensures stock.Some? && stock.value.amount > 1 && fetched.None? ==> o == Failed(AddFailed)
    ensures o.Updated? <==> stock.Some? && stock.value.amount > 1 && fetched.Some?
    ensures o.Updated? && !Contains(cart, productId) ==>
              |o.newCart| == |cart| + 1 && o.newCart[..|cart|] == cart &&
              o.newCart[|cart|] == fetched.value.(amount := 1)
    ensures o.Updated? && Contains(cart, productId) ==>
              |o.newCart| == |cart| &&
              (forall i :: 0 <= i < |cart| && cart[i].id != productId ==> o.newCart[i] == cart[i]) &&
              (forall i :: 0 <= i < |cart| && cart[i].id == productId ==>
                 o.newCart[i] == cart[i].(amount := cart[i].amount + 1))
  {
    if stock.None? then Failed(AddFailed)
    else if stock.value.amount <= 1 then Failed(OutOfStock)
    else
      var onCart := Find(cart, productId);
      if fetched.None? then Failed(AddFailed)
      else if onCart.None? then Updated(Appended(cart, fetched.value))
      else Updated(Incremented(cart, productId))
  }

  /** `removeProduct`: no remote lookup. */
  function RemoveStep(cart: seq<Product>, productId: int): (o: Outcome)
    ensures !o.Ignored?
    ensures !Contains(cart, productId) <==> o == Failed(RemoveFailed)
    ensures o.Updated? ==>
              |o.newCart| < |cart| && !Contains(o.newCart, productId) &&
              forall p :: p in o.newCart <==> p in cart && p.id != productId
  {
    if Find(cart, productId).None? then Failed(RemoveFailed)
    else Updated(WithoutId(cart, productId))
  }

  /** `updateProductAmount`. `stock` is the answer of the stock lookup;
      `None` stands for a request that threw. */
  function UpdateStep(cart: seq<Product>, productId: int, stock: Option<Stock>, amount: int): (o: Outcome)
    ensures stock.None? ==> o == Failed(UpdateFailed)
    ensures stock.Some? && stock.value.amount <= 0 ==> o == Ignored
    ensures stock.Some? && stock.value.amount > 0 && (stock.value.amount < amount || stock.value.amount <= 1) ==>
              o == Failed(OutOfStock)
    ensures o.Updated? <==> stock.Some? && stock.value.amount > 1 && amount <= stock.value.amount
    ensures o.Updated? ==>
              |o.newCart| == |cart| &&
              (forall i :: 0 <= i < |cart| && cart[i].id != productId ==> o.newCart[i] == cart[i]) &&
              (forall i :: 0 <= i < |cart| && cart[i].id == productId ==> o.newCart[i] == cart[i].(amount := amount))
    ensures o.Updated? && !Contains(cart, productId) ==> o.newCart == cart
  {
    if stock.None? then Failed(UpdateFailed)
    else if stock.value.amount <= 0 then Ignored
    else if stock.value.amount < amount || stock.value.amount <= 1 then Failed(OutOfStock)
    else
      var r := WithAmount(cart, productId, amount);
      assert !Contains(cart, productId) ==> r == cart;
      Updated(r)
  }

  /** When the fetched record carries the requested id, a successful add keeps
      the ids of the cart distinct; a corollary of AddStep's contract. */
  lemma AddKeepsUniqueIds(cart: seq<Product>, productId: int, stock: Option<Stock>, fetched: Option<Product>)
    requires UniqueIds(cart)
    requires fetched.Some? ==> fetched.value.id == productId
    ensures AddStep(cart, productId, stock, fetched).Updated? ==>
              UniqueIds(AddStep(cart, productId, stock, fetched).newCart)
  {
  }

  /** After a successful add of a product not yet in the cart, `find` sees it
      at amount one; a corollary of the contracts of AddStep, Appended and
      Find. */
  lemma AddNewThenFind(cart: seq<Product>, productId: int, stock: Stock, fetched: Product)
    requires fetched.id == productId && stock.amount > 1 && !Contains(cart, productId)
    ensures AddStep(cart, productId, Some(stock), Some(fetched)) == Updated(Appended(cart, fetched))
    ensures Find(Appended(cart, fetched), productId) == Some(fetched.(amount := 1))
  {
  }

  /** After a successful add of a product already in the cart, `find` sees it
      at one more than its old amount. */
  lemma AddExistingThenFind(cart: seq<Product>, productId: int, stock: Stock, fetched: Product, p: Product)
    requires stock.amount > 1 && Find(cart, productId) == Some(p)
    ensures AddStep(cart, productId, Some(stock), Some(fetched)) == Updated(Incremented(cart, productId))
    ensures Find(Incremented(cart, productId), productId) == Some(p.(amount := p.amount + 1))
  {
    IncrementedThenFind(cart, productId, p);
  }

  /** A successful remove keeps the ids of the cart distinct. */
  lemma RemoveKeepsUniqueIds(cart: seq<Product>, productId: int)
    requires UniqueIds(cart)
    ensures RemoveStep(cart, productId).Updated? ==> UniqueIds(RemoveStep(cart, productId).newCart)
  {
    WithoutIdKeepsUniqueIds(cart, productId);
  }

  /** A successful amount update keeps the ids of the cart distinct; a
      corollary of UpdateStep's contract. */
  lemma UpdateKeepsUniqueIds(cart: seq<Product>, productId: int, stock: Option<Stock>, amount: int)
    requires UniqueIds(cart)
    ensures UpdateStep(cart, productId, stock, amount).Updated? ==>
              UniqueIds(UpdateStep(cart, productId, stock, amount).newCart)
  {
  }

  /** Removing keeps the surviving entries in their original relative order:
      the cart split anywhere is filtered piecewise. */
  lemma RemoveKeepsOrder(before: seq<Product>, after: seq<Product>, productId: int)
    requires Contains(before + after, productId)
    ensures RemoveStep(before + after, productId) == Updated(WithoutId(before, productId) + WithoutId(after, productId))
  {
    WithoutIdAppend(before, after, productId);
  }

  /** Adding a product that is not yet in the cart and then removing it gives
      back the cart as it was. */
  lemma AddThenRemove(cart: seq<Product>, productId: int, stock: Stock, product: Product)
    requires product.id == productId && !Contains(cart, productId)
    requires stock.amount > 1
    ensures AddStep(cart, productId, Some(stock), Some(product)).Updated?
    ensures RemoveStep(AddStep(cart, productId, Some(stock), Some(product)).newCart, productId) == Updated(cart)
  {
    var added := AddStep(cart, productId, Some(stock), Some(product)).newCart;
    assert added == Appended(cart, product);
    AppendedThenWithoutId(cart, product);
    assert added[|cart|].id == productId;
  }

  /** Repeating a successful amount update with the same stock answer changes
      nothing more, and an update overrides an earlier increment of the same
      id, whatever record the product endpoint returned for that add. */
  lemma UpdateIdempotent(cart: seq<Product>, productId: int, stock: Stock, amount: int)
    requires stock.amount > 1 && amount <= stock.amount
    ensures UpdateStep(cart, productId, Some(stock), amount).Updated?
    ensures UpdateStep(UpdateStep(cart, productId, Some(stock), amount).newCart, productId, Some(stock), amount) ==
            UpdateStep(cart, productId, Some(stock), amount)
    ensures forall fetched: Product ::
              AddStep(cart, productId, Some(stock), Some(fetched)).Updated? &&
              (Contains(cart, productId) ==>
                 UpdateStep(AddStep(cart, productId, Some(stock), Some(fetched)).newCart, productId, Some(stock), amount) ==
                 UpdateStep(cart, productId, Some(stock), amount))
  {
    WithAmountIdempotent(cart, productId, amount);
  }

  /** The amount guard does not look at the sign of the requested amount: an
      update to zero (or below) goes through, so a positive amount is not an
      invariant of the cart. This follows from UpdateStep's contract. */
  lemma UpdateAdmitsNonPositiveAmount(p: Product, stock: Stock, amount: int)
    requires stock.amount > 1 && amount <= 0
    ensures UpdateStep([p], p.id, Some(stock), amount) == Updated([p.(amount := amount)])
  {
  }

  /** The add guard looks at the stock alone, never at the amount already in
      the cart: with a stock above one, an entry is incremented whatever its
      amount, so the amount can go past the stock and "amount bounded by
      stock" is not an invariant of the cart either. This follows from
      AddStep's contract. */
  lemma AddCanExceedStock(p: Product, stock: Stock)
    requires stock.amount > 1 && p.amount >= stock.amount
    ensures AddStep([p], p.id, Some(stock), Some(p)) == Updated([p.(amount := p.amount + 1)])
    ensures AddStep([p], p.id, Some(stock), Some(p)).newCart[0].amount > stock.amount
  {
  }

  /** The state behind `CartProvider`: the cart and the storage slot under
      the key '@RocketShoes:cart'. The slot holds `None` until something is
      written to it. */
  class CartProvider {
    var cart: seq<Product>
    var storage: Option<seq<Product>>

    /** The snapshot mirrors the cart, except before the first write, when
        both stand empty. */
    ghost predicate Valid()
      reads this
    {
      storage == Some(cart) || (storage.None? && cart == [])
    }

    /** The state after committing `o` to a provider whose cart and snapshot
        were `before` and `beforeStorage`. */
    ghost predicate Reflects(o: Outcome, before: seq<Product>, beforeStorage: Option<seq<Product>>)
      reads this
    {
      match o
      case Updated(c) => cart == c && storage == Some(c)
      case _ => cart == before && storage == beforeStorage
    }

    /** The initial state: the stored snapshot when there is one, otherwise an
        empty cart. */
    constructor (stored: Option<seq<Product>>)
      ensures Valid()
      ensures storage == stored
      ensures cart == if stored.Some? then stored.value else []
    {
      storage := stored;
      cart := if stored.Some? then stored.value else [];
    }

    /** `setCart` and `localStorage.setItem` for an outcome that has a new
        cart; nothing otherwise. */
    method Commit(o: Outcome) returns (shown: Option<Toast>)
      modifies this
      ensures Reflects(o, old(cart), old(storage))
      ensures shown == ToastOf(o)
    {
      if o.Updated? {
        cart := o.newCart;
        storage := Some(o.newCart);
      }
      shown := ToastOf(o);
    }

    method AddProduct(productId: int, stock: Option<Stock>, fetched: Option<Product>) returns (shown: Option<Toast>)
      requires Valid()
      modifies this
      ensures Valid()
      ensures Reflects(AddStep(old(cart), productId, stock, fetched), old(cart), old(storage))
      ensures shown == ToastOf(AddStep(old(cart), productId, stock, fetched))
    {
      shown := Commit(AddStep(cart, productId, stock, fetched));
    }

    method RemoveProduct(productId: int) returns (shown: Option<Toast>)
      requires Valid()
      modifies this
      ensures Valid()
      ensures Reflects(RemoveStep(old(cart), productId), old(cart), old(storage))
      ensures shown == ToastOf(RemoveStep(old(cart), productId))
    {
      shown := Commit(RemoveStep(cart, productId));
    }

    method UpdateProductAmount(productId: int, stock: Option<Stock>, amount: int) returns (shown: Option<Toast>)
      requires Valid()
      modifies this
      ensures Valid()
      ensures Reflects(UpdateStep(old(cart), productId, stock, amount), old(cart), old(storage))
      ensures shown == ToastOf(UpdateStep(old(cart), productId, stock, amount))
    {
      shown := Commit(UpdateStep(cart, productId, stock, amount));
    }
  }
}
