# RocketShoes cart, modelled in Dafny

The RocketShoes storefront keeps the shopper's cart in one React hook,
`useCart`. The cart is an ordered list of line items. Each item is a product
(an `id` and its display fields) plus the `amount` requested. Three
operations change the list:

- `addProduct` raises the amount of an id already in the cart by one, through
  the amount update. Otherwise it fetches the product from the catalog and
  appends it with amount one.
- `removeProduct` filters an id out of the cart. It reports an error when the
  id is absent.
- `updateProductAmount` ignores amounts below one. It checks the amount
  against the stock service, and otherwise sets the amount of the matching
  item.

Every successful operation ends in one commit. The commit writes the new cart
to the in-memory state and then to browser storage under
`"@RocketShoes:cart"`. On start the cart is loaded from that stored snapshot,
or is empty when there is none.

The model has three modules:

- `CartLogic` (`cart_logic.dfy`) holds the new-cart computations as pure
  functions over `seq<Item>`: `find`, `findIndex`, `filter`, `map` and the
  spread-append. Each operation is a function `Add`, `Remove` or `Update`
  from the old cart and the outcome of its remote lookup to an `Effect`:
  `Commit(newCart)`, `Report(message)` (a toast) or `Silent`.
- `CartProperties` (`cart_properties.dfy`) proves what the operations promise
  across calls:
  - the cart stays well formed (unique ids, every amount at least one);
  - removal keeps exactly the items with another id, and, when ids are
    unique, keeps them in order; amount updates keep every item in place;
  - adding an id already in the cart is exactly the amount update with the
    old amount plus one;
  - adding a new id appends exactly one item with amount one.
- `CartStore` (`cart_store.dfy`) is the provider's state. It is a class
  `Store` with the fields `cart` and `persisted`. Its methods follow the
  hook's control flow, early returns included. Each method is proved to
  leave exactly the state and toast that the matching `CartLogic` function
  describes and to keep the two copies in step. Removal and amount updates
  keep the cart well formed. Adding keeps it well formed when the catalog
  answers with the product that was asked for.

## Model

| member | source | states |
|---|---|---|
| CartLogic.FindIndex | src/hooks/useCart.tsx:61-63 | the result is -1 exactly when no item holds the id; otherwise it is the position of the first item holding it |
| CartLogic.Find | src/hooks/useCart.tsx:42 | finds nothing exactly when no item holds the id; otherwise it finds an item of the cart that has the id, and no earlier item has it |
| CartLogic.Without | src/hooks/useCart.tsx:69 | the filtered cart is no longer than the old one, holds no item with the id, and is the old cart itself when the id was absent |
| CartLogic.WithAmount | src/hooks/useCart.tsx:93-99 | same length; items with another id are untouched; items with the id keep their id and fields and take the new amount |
| CartLogic.Update | src/hooks/useCart.tsx:77-105 | silent exactly when amount < 1; the update toast exactly when the stock lookup fails; the stock toast exactly when amount > stock; a commit only for 1 <= amount <= stock, with the same length, ids, order and fields, and only the matching amounts changed; an absent id commits the old cart unchanged |
| CartLogic.Add | src/hooks/useCart.tsx:40-57 | the add toast exactly when the id is absent and the product lookup fails; silence only on the existing-id path |
| CartLogic.Remove | src/hooks/useCart.tsx:59-75 | the removal toast exactly when the id is absent; when it is present, a commit of the filter, which is strictly shorter and no longer holds the id |
| CartProperties.WithoutSplice | src/hooks/useCart.tsx:69 | with unique ids, the filter drops exactly the one item holding the id and keeps the rest in order |
| CartProperties.WithoutMembers | src/hooks/useCart.tsx:69 | the filter keeps exactly the items whose id differs |
| CartProperties.RemoveDropsOne | src/hooks/useCart.tsx:61-73 | with unique ids, removing a present id commits the old cart minus that one item, the rest in order |
| CartProperties.WithAmountAt | src/hooks/useCart.tsx:93-99 | with unique ids, the map changes exactly one item, and only its amount |
| CartProperties.UpdateExistingSetsOne | src/hooks/useCart.tsx:93-101 | an accepted update of a present id commits the old cart with only that item's amount replaced |
| CartProperties.UpdatePreservesWellFormed | src/hooks/useCart.tsx:82-101 | the amount update keeps ids unique and every amount at least one |
| CartProperties.RemovePreservesWellFormed | src/hooks/useCart.tsx:61-73 | removal keeps ids unique and every amount at least one |
| CartProperties.AddPreservesWellFormed | src/hooks/useCart.tsx:42-53 | adding keeps ids unique and every amount at least one, given that the catalog answers with the product asked for |
| CartProperties.AppendKeepsWellFormed | src/hooks/useCart.tsx:51 | appending an item with a new id and amount one keeps the cart well formed |
| CartProperties.AddExistingIsUpdate | src/hooks/useCart.tsx:42-46 | adding an id already in the cart is the amount update with the first such item's amount plus one |
| CartProperties.AddExistingIncrements | src/hooks/useCart.tsx:42-46 | within stock, adding a present id commits the cart with only that item's amount raised by one |
| CartProperties.AddExistingOverStock | src/hooks/useCart.tsx:44-91 | beyond stock, adding a present id raises the stock toast, not the add toast |
| CartProperties.AddNewAppends | src/hooks/useCart.tsx:49-53 | adding an absent id whose lookup succeeds commits the old cart, unchanged and in order, followed by the product with amount one |
| CartProperties.FindIndexOfUnique | src/hooks/useCart.tsx:42 | with unique ids, the first item holding an id is the one at its position |
| CartProperties.ExampleAddExisting | src/hooks/useCart.tsx:42-46 | one item with amount two and a stock of five becomes amount three |
| CartProperties.ExampleRemoveFromEmpty | src/hooks/useCart.tsx:59-75 | removing from the empty cart raises "Erro na remoção do produto" |
| CartProperties.ExampleUpdateOverStock | src/hooks/useCart.tsx:88-91 | ten units against a stock of three raise the stock toast and leave the cart as it was |
| CartStore.Store.constructor | src/hooks/useCart.tsx:25-33 | the initial cart is the stored snapshot when there is one, otherwise empty, and the two copies agree |
| CartStore.Store.Commit | src/hooks/useCart.tsx:35-38 | memory and storage both hold the new cart afterwards |
| CartStore.Store.UpdateProductAmount | src/hooks/useCart.tsx:77-105 | the new cart, the stored copy and the toast are those `Update` gives; the copies stay in step; well-formedness is kept |
| CartStore.Store.AddProduct | src/hooks/useCart.tsx:40-57 | the new cart, the stored copy and the toast are those `Add` gives; the copies stay in step; well-formedness is kept when the catalog agrees |
| CartStore.Store.RemoveProduct | src/hooks/useCart.tsx:59-75 | the new cart, the stored copy and the toast are those `Remove` gives; the copies stay in step; well-formedness is kept |

## Left out

- React plumbing is not modelled: the context, `useState`, `useContext` and the provider's JSX.
- The HTTP calls `products/{id}` and `stock/{id}` are not made. Their outcomes are parameters: `Option<Listing>` and `Option<int>`, where `None` stands for a failed request.
- `toast.error` is not delivered. The method returns the message instead, and `Text` gives its wording.
- `localStorage` and JSON (de)serialisation are left out. The stored snapshot is a field holding the sequence itself, so a malformed or empty stored string, and a failing `JSON.parse`, are not modelled.
- A failing write to storage is not modelled. In the hook, a throwing `localStorage.setItem` runs after `setCart`, so the operation's error toast is raised while memory and storage disagree. `CartStore.Store.Commit` always writes both copies.
- Async interleaving is left out, including the lost update when two operations overlap on the same cart. So is the fact that `addProduct` does not await the nested `updateProductAmount`. Every operation runs to completion on the cart it started from.
- `CartStore.Store.AddProduct` takes the stock outcome even on the path that appends a new product, and the product outcome even on the path that raises an amount. It ignores whichever one the hook would not have requested.
- The product fields other than `id` and `amount` (title, price, image) form the opaque `Details` value. It is carried through unchanged. No arithmetic is done on the price.
- Amounts are mathematical integers. The hook's `number` also admits fractions and non-finite values, which are not modelled.
- CartProperties.AddPreservesWellFormed: holds only when the catalog answers with the product asked for, because the appended item keeps the catalog's own id.
- CartStore.Store.AddProduct: keeps well-formedness only under the same assumption about the catalog.
- Adding a new product does not check its stock, just as the hook does not. A cart can therefore hold one unit of a product that is out of stock.
- The `Product` and `Stock` type declarations imported from `src/types` are not part of this model.
