/** What the cart operations promise across calls: the cart stays well formed
    (ids unique, every amount at least one), removal and amount updates keep
    the order of the other line items, and adding an id already in the cart
    raises its amount by exactly one. */
module CartProperties {
  import opened CartLogic

  /** With unique ids, filtering an id out drops exactly the one item that
      holds it and keeps every other item in its place. */
  lemma {:induction false} WithoutSplice(cart: seq<Item>, id: int, k: int)
    requires UniqueIds(cart)
    requires 0 <= k < |cart| && cart[k].id == id
    ensures Without(cart, id) == cart[..k] + cart[k + 1..]
  {
    var tail := cart[1..];
    assert UniqueIds(tail) by {
      forall i, j | 0 <= i < j < |tail| ensures tail[i].id != tail[j].id {
        assert tail[i] == cart[i + 1] && tail[j] == cart[j + 1];
      }
    }
    if k == 0 {
      assert !HasId(tail, id) by {
        forall i | 0 <= i < |tail| ensures tail[i].id != id {
          assert tail[i] == cart[i + 1];
        }
      }
      assert cart[k + 1..] == tail;
    } else {
      assert cart[0].id != id;
      WithoutSplice(tail, id, k - 1);
      assert cart[..k] == [cart[0]] + tail[..k - 1];
      assert cart[k + 1..] == tail[k..];
    }
  }

  /** Removing an id held by a cart with unique ids commits the cart with
      that one item dropped and every other item in its original order. */
  lemma {:induction false} RemoveDropsOne(cart: seq<Item>, id: int, k: int)
    requires UniqueIds(cart)
    requires 0 <= k < |cart| && cart[k].id == id
    ensures Remove(cart, id) == Commit(cart[..k] + cart[k + 1..])
  {
    assert HasId(cart, id);
    WithoutSplice(cart, id, k);
  }

  /** Filtering keeps exactly the items whose id differs. */
  lemma {:induction false} WithoutMembers(cart: seq<Item>, id: int)
    ensures forall x :: x in Without(cart, id) <==> x in cart && x.id != id
  {
    if cart != [] {
      WithoutMembers(cart[1..], id);
      assert cart == [cart[0]] + cart[1..];
    }
  }

  /** Dropping one item of a cart with unique ids leaves unique ids. */
  lemma {:induction false} SpliceKeepsUniqueIds(cart: seq<Item>, k: int)
    requires UniqueIds(cart)
    requires 0 <= k < |cart|
    ensures UniqueIds(cart[..k] + cart[k + 1..])
  {
    var rest := cart[..k] + cart[k + 1..];
    forall i, j | 0 <= i < j < |rest|
      ensures rest[i].id != rest[j].id
    {
      if j < k {
        assert rest[i] == cart[i] && rest[j] == cart[j];
      } else if i < k {
        assert rest[i] == cart[i] && rest[j] == cart[j + 1];
      } else {
        assert rest[i] == cart[i + 1] && rest[j] == cart[j + 1];
      }
    }
  }

  /** Filtering never creates a duplicate id. */
  lemma {:induction false} WithoutKeepsUniqueIds(cart: seq<Item>, id: int)
    requires UniqueIds(cart)
    ensures UniqueIds(Without(cart, id))
  {
    var k := FindIndex(cart, id);
    if k != -1 {
      WithoutSplice(cart, id, k);
      SpliceKeepsUniqueIds(cart, k);
    }
  }

  /** With unique ids, the amount update changes exactly one line item: the
      one holding the id, and only its amount. */
  lemma {:induction false} WithAmountAt(cart: seq<Item>, id: int, amount: int, k: int)
    requires UniqueIds(cart)
    requires 0 <= k < |cart| && cart[k].id == id
    ensures WithAmount(cart, id, amount) == cart[k := cart[k].(amount := amount)]
  {
    var updated := WithAmount(cart, id, amount);
    forall i | 0 <= i < |cart|
      ensures updated[i] == cart[k := cart[k].(amount := amount)][i]
    {
      if i != k {
        assert cart[i].id != id;
      }
    }
  }

  /** updateProductAmount keeps the cart well formed: it only writes amounts
      that passed the `amount < 1` guard and never touches an id. */
  lemma {:induction false} UpdatePreservesWellFormed(cart: seq<Item>, id: int, amount: int, stock: Option<int>)
    requires WellFormed(cart)
    ensures WellFormed(CartAfter(cart, Update(cart, id, amount, stock)))
  {
    var e := Update(cart, id, amount, stock);
    if e.Commit? {
      var updated := e.newCart;
      assert WellFormed(updated);
    }
  }

  /** removeProduct keeps the cart well formed: it only deletes. */
  lemma {:induction false} RemovePreservesWellFormed(cart: seq<Item>, id: int)
    requires WellFormed(cart)
    ensures WellFormed(CartAfter(cart, Remove(cart, id)))
  {
    var k := FindIndex(cart, id);
    if k != -1 {
      WithoutKeepsUniqueIds(cart, id);
      WithoutSplice(cart, id, k);
      var rest := Without(cart, id);
      forall i | 0 <= i < |rest|
        ensures rest[i].amount >= 1
      {
        assert rest[i] == cart[if i < k then i else i + 1];
      }
    }
  }

  /** The catalog answers `products/{id}` with the product of that id. */
  predicate CatalogAgrees(id: int, product: Option<Listing>)
  {
    product.Some? ==> product.value.id == id
  }

  /** addProduct keeps the cart well formed: it appends only an id it did
      not find, with amount one, and otherwise goes through the update. The
      appended item keeps the catalog's id, so uniqueness needs the catalog
      to answer with the product that was asked for. */
  lemma {:induction false} AddPreservesWellFormed(cart: seq<Item>, id: int, product: Option<Listing>, stock: Option<int>)
    requires WellFormed(cart)
    requires CatalogAgrees(id, product)
    ensures WellFormed(CartAfter(cart, Add(cart, id, product, stock)))
  {
    match Find(cart, id)
    case Some(existing) =>
      AddExistingIsUpdate(cart, id, product, stock, existing);
      UpdatePreservesWellFormed(cart, id, existing.amount + 1, stock);
    case None =>
      if product.Some? {
        AppendKeepsWellFormed(cart, Item(id, product.value.details, 1));
      }
  }

  /** Appending an item whose id is new and whose amount is positive keeps
      the cart well formed. */
  lemma {:induction false} AppendKeepsWellFormed(cart: seq<Item>, x: Item)
    requires WellFormed(cart)
    requires !HasId(cart, x.id) && x.amount >= 1
    ensures WellFormed(cart + [x])
  {
    var grown := cart + [x];
    forall i, j | 0 <= i < j < |grown|
      ensures grown[i].id != grown[j].id
    {
      assert grown[i] == cart[i];
      if j < |cart| {
        assert grown[j] == cart[j];
      }
    }
  }

  /** With unique ids, an accepted amount update of an id in the cart sets
      that one item's amount and changes nothing else. */
  lemma {:induction false} UpdateExistingSetsOne(cart: seq<Item>, id: int, amount: int, stock: int, k: int)
    requires UniqueIds(cart)
    requires 0 <= k < |cart| && cart[k].id == id
    requires 1 <= amount <= stock
    ensures Update(cart, id, amount, Some(stock)) == Commit(cart[k := cart[k].(amount := amount)])
  {
    WithAmountAt(cart, id, amount, k);
  }

  /** Adding an id already in a well-formed cart raises that one item's
      amount by exactly one when the stock allows it. */
  lemma {:induction false} AddExistingIncrements(cart: seq<Item>, id: int, product: Option<Listing>, stock: int, k: int)
    requires WellFormed(cart)
    requires 0 <= k < |cart| && cart[k].id == id
    requires cart[k].amount + 1 <= stock
    ensures Add(cart, id, product, Some(stock)) == Commit(cart[k := cart[k].(amount := cart[k].amount + 1)])
  {
    FindIndexOfUnique(cart, id, k);
    AddExistingIsUpdate(cart, id, product, Some(stock), cart[k]);
    UpdateExistingSetsOne(cart, id, cart[k].amount + 1, stock, k);
  }

  /** Adding an id already in a well-formed cart beyond its stock reports
      the stock message, never the add message, and commits nothing. */
  lemma {:induction false} AddExistingOverStock(cart: seq<Item>, id: int, product: Option<Listing>, stock: int, k: int)
    requires WellFormed(cart)
    requires 0 <= k < |cart| && cart[k].id == id
    requires cart[k].amount + 1 > stock
    ensures Add(cart, id, product, Some(stock)) == Report(InsufficientStock)
  {
    FindIndexOfUnique(cart, id, k);
    AddExistingIsUpdate(cart, id, product, Some(stock), cart[k]);
  }

  /** Adding an id already in the cart is the amount update of the first
      item holding it, plus one. */
  lemma {:induction false} AddExistingIsUpdate(cart: seq<Item>, id: int, product: Option<Listing>, stock: Option<int>, existing: Item)
    requires Find(cart, id) == Some(existing)
    ensures Add(cart, id, product, stock) == Update(cart, id, existing.amount + 1, stock)
  {
    var wanted := existing.amount + 1;
    assert Find(cart, id).value.amount + 1 == wanted;
  }

  /** Adding an id the cart does not hold appends the catalog's product
      with amount one behind the unchanged earlier items. */
  lemma {:induction false} AddNewAppends(cart: seq<Item>, id: int, p: Listing, stock: Option<int>)
    requires !HasId(cart, id)
    ensures Add(cart, id, Some(p), stock).Commit?
    ensures var grown := Add(cart, id, Some(p), stock).newCart;
      |grown| == |cart| + 1 && grown[..|cart|] == cart && grown[|cart|] == Item(p.id, p.details, 1)
  {
    var grown := cart + [Item(p.id, p.details, 1)];
    assert grown[..|cart|] == cart;
  }

  /** With unique ids, the first item holding an id is the only one. */
  lemma {:induction false} FindIndexOfUnique(cart: seq<Item>, id: int, k: int)
    requires UniqueIds(cart)
    requires 0 <= k < |cart| && cart[k].id == id
    ensures FindIndex(cart, id) == k && Find(cart, id) == Some(cart[k])
  {
    var f := FindIndex(cart, id);
    assert 0 <= f <= k && cart[f].id == cart[k].id;
  }

  /** One item in the cart, two units: adding it again with five in stock
      makes three. */
  lemma ExampleAddExisting(d: Details)
    ensures Add([Item(1, d, 2)], 1, None, Some(5)) == Commit([Item(1, d, 3)])
  {
    assert [Item(1, d, 2)][0].id == 1;
  }

  /** Removing from an empty cart reports the removal failure. */
  lemma ExampleRemoveFromEmpty()
    ensures Remove([], 1) == Report(RemoveProductFailed)
    ensures Text(RemoveProductFailed) == "Erro na remoção do produto"
  {
  }

  /** Asking for ten units of a product with three in stock reports the
      stock message and leaves the cart as it was. */
  lemma ExampleUpdateOverStock(d: Details)
    ensures Update([Item(2, d, 1)], 2, 10, Some(3)) == Report(InsufficientStock)
    ensures CartAfter([Item(2, d, 1)], Update([Item(2, d, 1)], 2, 10, Some(3))) == [Item(2, d, 1)]
  {
  }
}
