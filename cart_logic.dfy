/** The cart reconciliation rules of the RocketShoes cart hook, as pure values:
    a cart is an ordered sequence of line items, and each of the three
    operations (add, remove, update amount) is a function from the old cart
    and the outcome of its remote lookup to an Effect: one commit of a new
    cart, one toast message, or nothing at all. */
module CartLogic {

  datatype Option<T> = None | Some(value: T)

  /** The product fields other than `id` and `amount`; the cart carries them
      through untouched. */
  datatype Details = Details(title: string, price: real, image: string)

  /** One line item of the cart: a product with the amount requested. */
  datatype Item = Item(id: int, details: Details, amount: int)

  /** The product record the catalog answers for `products/{id}`. It carries
      its own id, which the new line item keeps. */
  datatype Listing = Listing(id: int, details: Details)

  /** The four toast messages the hook can raise. */
  datatype Message =
    | AddProductFailed
    | RemoveProductFailed
    | UpdateAmountFailed
    | InsufficientStock

  function Text(m: Message): string
  {
    match m
    case AddProductFailed => "Erro na adição do produto"
    case RemoveProductFailed => "Erro na remoção do produto"
    case UpdateAmountFailed => "Erro na alteração de quantidade do produto"
    case InsufficientStock => "Quantidade solicitada fora de estoque"
  }

  /** What one call of an operation does: it commits exactly one new cart,
      or reports exactly one message, or returns silently. */
  datatype Effect = Commit(newCart: seq<Item>) | Report(message: Message) | Silent

  /** The cart once the effect has happened: only a commit changes it. */
  function CartAfter(cart: seq<Item>, e: Effect): seq<Item>
  {
    if e.Commit? then e.newCart else cart
  }

  /** The toast an effect raises, if any. */
  function Toast(e: Effect): Option<Message>
  {
    if e.Report? then Some(e.message) else None
  }

  /** Some line item holds the id. */
  predicate HasId(cart: seq<Item>, id: int)
  {
    exists i :: 0 <= i < |cart| && cart[i].id == id
  }

  /** No two line items share an id. */
  predicate UniqueIds(cart: seq<Item>)
  {
    forall i, j :: 0 <= i < j < |cart| ==> cart[i].id != cart[j].id
  }

  /** Every line item asks for at least one unit. */
  predicate PositiveAmounts(cart: seq<Item>)
  {
    forall i :: 0 <= i < |cart| ==> cart[i].amount >= 1
  }

  /** The invariant every operation keeps. */
  predicate WellFormed(cart: seq<Item>)
  {
    UniqueIds(cart) && PositiveAmounts(cart)
  }

  /** `cart.findIndex(p => p.id === id)`: the position of the first item
      with that id, or -1 when there is none. */
  function FindIndex(cart: seq<Item>, id: int): (k: int)
    ensures -1 <= k < |cart|
    ensures k == -1 <==> !HasId(cart, id)
    ensures 0 <= k ==> cart[k].id == id && forall i :: 0 <= i < k ==> cart[i].id != id
  {
    if cart == [] then -1
    else if cart[0].id == id then 0
    else
      var k := FindIndex(cart[1..], id);
      assert HasId(cart, id) ==> HasId(cart[1..], id) by {
        if HasId(cart, id) {
          var i :| 0 <= i < |cart| && cart[i].id == id;
          assert cart[1..][i - 1] == cart[i];
        }
      }
      if k == -1 then -1 else k + 1
  }

  /** `cart.find(p => p.id === id)`: the first item with that id. */
  function Find(cart: seq<Item>, id: int): (found: Option<Item>)
    ensures found.None? <==> !HasId(cart, id)
    ensures found.Some? ==> found.value.id == id
    ensures found.Some? ==>
              exists k :: 0 <= k < |cart| && found.value == cart[k] &&
                (forall i :: 0 <= i < k ==> cart[i].id != id)
  {
    var k := FindIndex(cart, id);
    if k == -1 then None else Some(cart[k])
  }

  /** `cart.filter(p => p.id !== id)`. */
  function Without(cart: seq<Item>, id: int): (rest: seq<Item>)
    ensures |rest| <= |cart|
    ensures forall i :: 0 <= i < |rest| ==> rest[i].id != id
    ensures !HasId(cart, id) ==> rest == cart
  {
    if cart == [] then []
    else
      assert !HasId(cart, id) ==> !HasId(cart[1..], id) by {
        if HasId(cart[1..], id) {
          var i :| 0 <= i < |cart| - 1 && cart[1..][i].id == id;
          assert cart[i + 1] == cart[1..][i];
        }
      }
      assert cart == [cart[0]] + cart[1..];
      if cart[0].id == id then Without(cart[1..], id)
      else [cart[0]] + Without(cart[1..], id)
  }

  /** `cart.map(p => p.id === id ? { ...p, amount } : p)`. */
  function WithAmount(cart: seq<Item>, id: int, amount: int): (updated: seq<Item>)
    ensures |updated| == |cart|
    ensures forall i :: 0 <= i < |cart| && cart[i].id != id ==> updated[i] == cart[i]
    ensures forall i :: 0 <= i < |cart| && cart[i].id == id ==>
              updated[i] == Item(id, cart[i].details, amount)
  {
    if cart == [] then []
    else
      var head := if cart[0].id == id then cart[0].(amount := amount) else cart[0];
      [head] + WithAmount(cart[1..], id, amount)
  }

  /** `updateProductAmount`: amounts below one are ignored
      silently, a failed stock lookup or an amount above the stock is
      reported, and otherwise the matching items take the new amount. */
  function Update(cart: seq<Item>, id: int, amount: int, stock: Option<int>): (e: Effect)
    ensures e.Silent? <==> amount < 1
    ensures e == Report(UpdateAmountFailed) <==> 1 <= amount && stock.None?
    ensures e == Report(InsufficientStock) <==> 1 <= amount && stock.Some? && amount > stock.value
    ensures e.Report? ==> e.message in {UpdateAmountFailed, InsufficientStock}
    ensures e.Commit? ==> stock.Some? && 1 <= amount <= stock.value
    ensures e.Commit? ==> |e.newCart| == |cart|
    ensures e.Commit? ==> forall i :: 0 <= i < |cart| ==>
              e.newCart[i].id == cart[i].id &&
              e.newCart[i].details == cart[i].details &&
              e.newCart[i].amount == (if cart[i].id == id then amount else cart[i].amount)
    ensures e.Commit? && !HasId(cart, id) ==> e.newCart == cart
  {
    if amount < 1 then Silent
    else if stock.None? then Report(UpdateAmountFailed)
    else if amount > stock.value then Report(InsufficientStock)
    else
      var updated := WithAmount(cart, id, amount);
      assert !HasId(cart, id) ==> updated == cart;
      Commit(updated)
  }

  /** `addProduct`: an id already in the cart is handed to
      Update with its amount plus one; a new id is appended with amount one
      once the catalog lookup succeeds. */
  function Add(cart: seq<Item>, id: int, product: Option<Listing>, stock: Option<int>): (e: Effect)
    ensures e == Report(AddProductFailed) <==> !HasId(cart, id) && product.None?
    ensures e.Silent? ==> HasId(cart, id)
  {
    match Find(cart, id)
    case Some(existing) => Update(cart, id, existing.amount + 1, stock)
    case None =>
      if product.None? then Report(AddProductFailed)
      else Commit(cart + [Item(product.value.id, product.value.details, 1)])
  }

  /** `removeProduct`: an absent id is reported, a present one
      is filtered out. */
  function Remove(cart: seq<Item>, id: int): (e: Effect)
    ensures e == Report(RemoveProductFailed) <==> !HasId(cart, id)
    ensures e.Commit? ==> |e.newCart| < |cart| && !HasId(e.newCart, id)
    ensures e.Commit? ==> e.newCart == Without(cart, id)
    ensures HasId(cart, id) ==> e == Commit(Without(cart, id))
  {
    if FindIndex(cart, id) == -1 then Report(RemoveProductFailed)
    else
      var rest := Without(cart, id);
      assert |rest| != |cart| by {
        if |rest| == |cart| { WithoutSameLengthIsSame(cart, id); }
      }
      Commit(rest)
  }

  /** Filtering keeps the length only when it dropped nothing. */
  lemma {:induction false} WithoutSameLengthIsSame(cart: seq<Item>, id: int)
    requires |Without(cart, id)| == |cart|
    ensures !HasId(cart, id)
  {
    if cart != [] && cart[0].id != id {
      assert Without(cart, id) == [cart[0]] + Without(cart[1..], id);
      WithoutSameLengthIsSame(cart[1..], id);
      forall i | 0 <= i < |cart| ensures cart[i].id != id {
        if i > 0 { assert cart[i] == cart[1..][i - 1]; }
      }
    }
  }
}
