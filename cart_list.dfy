/** The ordered list of cart entries and the pure list expressions the cart
    hook builds its new states from: `find`, append of a fresh entry, the
    two `map`s that rewrite an entry's amount, and `filter`. */
module CartList {

  datatype Option<+T> = None | Some(value: T)

  /** One cart entry: the product record the catalogue returns, plus the
      quantity in the cart. */
  datatype Product = Product(id: int, title: string, price: int, image: string, amount: int)

  /** Some entry of the cart carries this id. */
  predicate Contains(cart: seq<Product>, id: int)
  {
    exists i :: 0 <= i < |cart| && cart[i].id == id
  }

  /** No two entries of the cart carry the same id. */
  predicate UniqueIds(cart: seq<Product>)
  {
    forall i, j :: 0 <= i < j < |cart| ==> cart[i].id != cart[j].id
  }

  /** `cart.find(product => product.id === id)`: the first entry with the id,
      or nothing when there is none. */
  function Find(cart: seq<Product>, id: int): (r: Option<Product>)
    ensures r.None? <==> !Contains(cart, id)
    ensures r.Some? ==> exists k :: 0 <= k < |cart| && cart[k] == r.value && r.value.id == id &&
                                    forall j :: 0 <= j < k ==> cart[j].id != id
  {
    if cart == [] then None
    else if cart[0].id == id then Some(cart[0])
    else
      var r := Find(cart[1..], id);
      assert forall i :: 0 <= i < |cart| - 1 ==> cart[1..][i] == cart[i + 1];
      if r.Some? then
        var k :| 0 <= k < |cart| - 1 && cart[1..][k] == r.value && r.value.id == id &&
                 forall j :: 0 <= j < k ==> cart[1..][j].id != id;
        assert cart[k + 1] == r.value;
        r
      else r
  }

  /** `find` answers with the entry at the first index carrying the id: the
      converse of Find's own contract, and a corollary of it. */
  lemma FindFirst(cart: seq<Product>, id: int, k: int)
    requires 0 <= k < |cart| && cart[k].id == id
    requires forall j :: 0 <= j < k ==> cart[j].id != id
    ensures Find(cart, id) == Some(cart[k])
  {
  }

  /** `[...cart, { ...product, amount: 1 }]`: the fetched record appended as a
      new entry of quantity one. */
  function Appended(cart: seq<Product>, product: Product): (r: seq<Product>)
    ensures |r| == |cart| + 1 && r[..|cart|] == cart
    ensures r[|cart|] == product.(amount := 1)
  {
    cart + [product.(amount := 1)]
  }

  /** `cart.map(p => p.id !== id ? p : { ...p, amount: p.amount + 1 })`. */
  function Incremented(cart: seq<Product>, id: int): (r: seq<Product>)
    ensures |r| == |cart|
    ensures forall i :: 0 <= i < |cart| && cart[i].id != id ==> r[i] == cart[i]
    ensures forall i :: 0 <= i < |cart| && cart[i].id == id ==> r[i] == cart[i].(amount := cart[i].amount + 1)
  {
    if cart == [] then []
    else
      var head := if cart[0].id != id then cart[0] else cart[0].(amount := cart[0].amount + 1);
      [head] + Incremented(cart[1..], id)
  }

  /** `cart.map(p => p.id !== id ? p : { ...p, amount })`. */
  function WithAmount(cart: seq<Product>, id: int, amount: int): (r: seq<Product>)
    ensures |r| == |cart|
    ensures forall i :: 0 <= i < |cart| && cart[i].id != id ==> r[i] == cart[i]
    ensures forall i :: 0 <= i < |cart| && cart[i].id == id ==> r[i] == cart[i].(amount := amount)
  {
    if cart == [] then []
    else
      var head := if cart[0].id != id then cart[0] else cart[0].(amount := amount);
      [head] + WithAmount(cart[1..], id, amount)
  }

  /** `cart.filter(p => p.id !== id)`. */
  function WithoutId(cart: seq<Product>, id: int): (r: seq<Product>)
    ensures |r| <= |cart|
    ensures forall p :: p in r <==> p in cart && p.id != id
    ensures !Contains(r, id)
    ensures !Contains(cart, id) ==> r == cart
    ensures Contains(cart, id) ==> |r| < |cart|
  {
    if cart == [] then []
    else if cart[0].id == id then WithoutId(cart[1..], id)
    else [cart[0]] + WithoutId(cart[1..], id)
  }

  /** Filtering keeps relative order: it distributes over concatenation. */
  lemma {:induction false} WithoutIdAppend(a: seq<Product>, b: seq<Product>, id: int)
    ensures WithoutId(a + b, id) == WithoutId(a, id) + WithoutId(b, id)
  {
    if a == [] {
      assert a + b == b;
    } else {
      assert (a + b)[0] == a[0];
      assert (a + b)[1..] == a[1..] + b;
      WithoutIdAppend(a[1..], b, id);
    }
  }

  /** Filtering introduces no id the cart did not already carry; a corollary
      of WithoutId's membership contract. */
  lemma WithoutIdKeepsAbsent(cart: seq<Product>, id: int, other: int)
    requires !Contains(cart, other)
    ensures !Contains(WithoutId(cart, id), other)
  {
  }

  /** Filtering out an id keeps the remaining ids distinct. */
  lemma {:induction false} WithoutIdKeepsUniqueIds(cart: seq<Product>, id: int)
    requires UniqueIds(cart)
    ensures UniqueIds(WithoutId(cart, id))
  {
    if cart != [] {
      var tail := cart[1..];
      assert UniqueIds(tail) by {
        forall i, j | 0 <= i < j < |tail| ensures tail[i].id != tail[j].id {
          assert tail[i] == cart[i + 1] && tail[j] == cart[j + 1];
        }
      }
      WithoutIdKeepsUniqueIds(tail, id);
      if cart[0].id != id {
        var rest := WithoutId(tail, id);
        assert forall j :: 0 <= j < |tail| ==> tail[j] == cart[j + 1];
        assert !Contains(tail, cart[0].id);
        WithoutIdKeepsAbsent(tail, id, cart[0].id);
        assert forall j :: 0 <= j < |rest| ==> rest[j].id != cart[0].id;
      }
    }
  }

  /** After an append of a new id, `find` sees the appended entry; a corollary
      of the contracts of Appended and Find. */
  lemma AppendedThenFind(cart: seq<Product>, product: Product)
    requires !Contains(cart, product.id)
    ensures Find(Appended(cart, product), product.id) == Some(product.(amount := 1))
  {
  }

  /** After an increment, `find` sees the first entry with the id, one
      higher. */
  lemma {:induction false} IncrementedThenFind(cart: seq<Product>, id: int, p: Product)
    requires Find(cart, id) == Some(p)
    ensures Find(Incremented(cart, id), id) == Some(p.(amount := p.amount + 1))
  {
    var r := Incremented(cart, id);
    if cart[0].id != id {
      var tail := cart[1..];
      assert Find(tail, id) == Some(p);
      IncrementedThenFind(tail, id, p);
      assert r[1..] == Incremented(tail, id);
    }
  }

  /** Rewriting amounts, whether by increment or overwrite, keeps every id in
      place, so distinct ids stay distinct. Both follow from the pointwise
      contracts of Incremented and WithAmount. */
  lemma IncrementedKeepsUniqueIds(cart: seq<Product>, id: int)
    requires UniqueIds(cart)
    ensures UniqueIds(Incremented(cart, id))
  {
  }

  lemma WithAmountKeepsUniqueIds(cart: seq<Product>, id: int, amount: int)
    requires UniqueIds(cart)
    ensures UniqueIds(WithAmount(cart, id, amount))
  {
  }

  /** Overwriting an amount twice with the same value is the same as once,
      and an earlier increment of that id is overwritten too; a corollary of
      the pointwise contracts. */
  lemma WithAmountIdempotent(cart: seq<Product>, id: int, amount: int)
    ensures WithAmount(WithAmount(cart, id, amount), id, amount) == WithAmount(cart, id, amount)
    ensures WithAmount(Incremented(cart, id), id, amount) == WithAmount(cart, id, amount)
  {
  }

  /** Filtering out a freshly appended entry gives back the cart it was
      appended to. */
  lemma AppendedThenWithoutId(cart: seq<Product>, product: Product)
    requires !Contains(cart, product.id)
    ensures WithoutId(Appended(cart, product), product.id) == cart
  {
    WithoutIdAppend(cart, [product.(amount := 1)], product.id);
    assert WithoutId([product.(amount := 1)], product.id) == [];
  }

  /** Appending an entry whose id is new keeps ids distinct; a corollary of
      Appended's contract. */
  lemma AppendedKeepsUniqueIds(cart: seq<Product>, product: Product)
    requires UniqueIds(cart) && !Contains(cart, product.id)
    ensures UniqueIds(Appended(cart, product))
  {
  }
}
