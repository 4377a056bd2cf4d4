/** The cart provider's state: the cart held in memory and the snapshot kept
    in browser storage under "@RocketShoes:cart". Each operation either
    returns early, leaving both untouched, or ends in the one commit that
    writes the same new cart to both. */
module CartStore {
  import opened CartLogic
  import opened CartProperties

  /** The initial cart: the stored snapshot when there is one, otherwise the
      empty cart. */
  function Load(stored: Option<seq<Item>>): seq<Item>
  {
    if stored.Some? then stored.value else []
  }

  class Store {
    var cart: seq<Item>
    var persisted: Option<seq<Item>>

    /** Reloading the page would show the cart held in memory. */
    ghost predicate Synced()
      reads this
    {
      Load(persisted) == cart
    }

    /** The provider's lazy initial state. */
    constructor (stored: Option<seq<Item>>)
      ensures persisted == stored
      ensures cart == Load(stored)
      ensures Synced()
    {
      persisted := stored;
      cart := Load(stored);
    }

    /** `updateCartAndLocalStorage`: the new cart goes to memory, then the
        same cart to storage. */
    method Commit(newCart: seq<Item>)
      modifies this
      ensures cart == newCart
      ensures persisted == Some(newCart)
      ensures Synced()
    {
      cart := newCart;
      persisted := Some(newCart);
    }

    /** `updateProductAmount`, given the outcome of the `stock/{id}` lookup. */
    method UpdateProductAmount(id: int, amount: int, stock: Option<int>) returns (toast: Option<Message>)
      modifies this
      ensures var e := Update(old(cart), id, amount, stock);
        cart == CartAfter(old(cart), e) && toast == Toast(e) &&
        persisted == (if e.Commit? then Some(cart) else old(persisted))
      ensures old(Synced()) ==> Synced()
      ensures WellFormed(old(cart)) ==> WellFormed(cart)
    {
      ghost var before := cart;
      if WellFormed(before) {
        UpdatePreservesWellFormed(before, id, amount, stock);
      }
      if amount < 1 {
        return None;
      }
      if stock.None? {
        return Some(UpdateAmountFailed);
      }
      if amount > stock.value {
        return Some(InsufficientStock);
      }
      var newCart := WithAmount(cart, id, amount);
      Commit(newCart);
      toast := None;
    }

    /** `addProduct`, given the outcomes of the `products/{id}` lookup and of
        the `stock/{id}` lookup that the nested amount update makes. */
    method AddProduct(id: int, product: Option<Listing>, stock: Option<int>) returns (toast: Option<Message>)
      modifies this
      ensures var e := Add(old(cart), id, product, stock);
        cart == CartAfter(old(cart), e) && toast == Toast(e) &&
        persisted == (if e.Commit? then Some(cart) else old(persisted))
      ensures old(Synced()) ==> Synced()
      ensures WellFormed(old(cart)) && CatalogAgrees(id, product) ==> WellFormed(cart)
    {
      ghost var before := cart;
      var existing := Find(cart, id);
      if existing.Some? {
        AddExistingIsUpdate(before, id, product, stock, existing.value);
        toast := UpdateProductAmount(id, existing.value.amount + 1, stock);
        return;
      }
      if product.None? {
        return Some(AddProductFailed);
      }
      var newCart := cart + [Item(product.value.id, product.value.details, 1)];
      Commit(newCart);
      toast := None;
      if WellFormed(before) && CatalogAgrees(id, product) {
        AppendKeepsWellFormed(before, newCart[|before|]);
      }
    }

    /** `removeProduct`: an absent id raises the removal toast. */
    method RemoveProduct(id: int) returns (toast: Option<Message>)
      modifies this
      ensures var e := Remove(old(cart), id);
        cart == CartAfter(old(cart), e) && toast == Toast(e) &&
        persisted == (if e.Commit? then Some(cart) else old(persisted))
      ensures old(Synced()) ==> Synced()
      ensures WellFormed(old(cart)) ==> WellFormed(cart)
    {
      ghost var before := cart;
      if WellFormed(before) {
        RemovePreservesWellFormed(before, id);
      }
      var index := FindIndex(cart, id);
      if index == -1 {
        return Some(RemoveProductFailed);
      }
      var newCart := Without(cart, id);
      Commit(newCart);
      toast := None;
    }
  }
}
