/** The shopping-cart container: a list of (product, quantity) entries keyed
    by the product's id, with pure actions that each return the next cart,
    and the two folds the cart screen reads.
 */
module CartStore {
  import opened Catalog
  import opened Seqs

  datatype CartItem = CartItem(product: Product, quantity: int)

  datatype Cart = Cart(items: seq<CartItem>)

  /** The quantity `addItem` uses when the caller passes none. */
  const DefaultQuantity: int := 1

  /** The state the container starts in: no entries. */
  const Initial: Cart := Cart([])

  predicate HasId(items: seq<CartItem>, id: int) {
    exists i :: 0 <= i < |items| && items[i].product.id == id
  }

  /** The cart's key invariant: no product id appears in two entries. */
  predicate DistinctIds(items: seq<CartItem>) {
    forall i, j :: 0 <= i < j < |items| ==> items[i].product.id != items[j].product.id
  }

  /** The invariant when every quantity handed to `addItem` is positive. */
  predicate AllPositive(items: seq<CartItem>) {
    forall i :: 0 <= i < |items| ==> items[i].quantity >= 1
  }

  /** `addItem(product, quantity)`. An id already in the cart adds no entry:
      the matching entry keeps the product it was first added with and its
      quantity grows by `quantity`, every other entry is untouched. A new id
      is appended as one entry at the end. */
  function AddItem(c: Cart, product: Product, quantity: int): (r: Cart)
    ensures HasId(c.items, product.id) ==>
      && |r.items| == |c.items|
      && (forall i :: 0 <= i < |c.items| && c.items[i].product.id == product.id ==>
            r.items[i].product == c.items[i].product && r.items[i].quantity == c.items[i].quantity + quantity)
      && (forall i :: 0 <= i < |c.items| && c.items[i].product.id != product.id ==> r.items[i] == c.items[i])
    ensures !HasId(c.items, product.id) ==> r.items == c.items + [CartItem(product, quantity)]
    ensures HasId(r.items, product.id)
    ensures DistinctIds(c.items) ==> DistinctIds(r.items)
    ensures AllPositive(c.items) && quantity >= 1 ==> AllPositive(r.items)
  {
    if HasId(c.items, product.id) then
      var items := seq(|c.items|, i requires 0 <= i < |c.items| =>
        var item := c.items[i];
        if item.product.id == product.id then item.(quantity := item.quantity + quantity) else item);
      assert forall i :: 0 <= i < |items| ==> items[i].product == c.items[i].product;
      Cart(items)
    else
      var items := c.items + [CartItem(product, quantity)];
      assert items[|c.items|].product.id == product.id;
      Cart(items)
  }

  /** `addItem(product)` with the quantity left out. */
  function AddItemDefault(c: Cart, product: Product): (r: Cart)
    ensures !HasId(c.items, product.id) ==> r.items == c.items + [CartItem(product, 1)]
    ensures HasId(c.items, product.id) ==> |r.items| == |c.items|
    ensures HasId(c.items, product.id) ==> forall i :: 0 <= i < |c.items| ==>
      r.items[i] == if c.items[i].product.id == product.id
                    then c.items[i].(quantity := c.items[i].quantity + 1)
                    else c.items[i]
  {
    AddItem(c, product, DefaultQuantity)
  }

  /** The filter predicate of `removeItem`: entries of other products. */
  function OtherThan(id: int): CartItem -> bool {
    (item: CartItem) => item.product.id != id
  }

  /** `removeItem(productId)`. No entry with that id is left; the others keep
      their order and multiplicity; an id that is not in the cart leaves it
      as it was. */
  function RemoveItem(c: Cart, id: int): (r: Cart)
    ensures !HasId(r.items, id)
    ensures IsSubsequence(r.items, c.items)
    ensures forall item: CartItem :: item.product.id != id ==> multiset(r.items)[item] == multiset(c.items)[item]
    ensures !HasId(c.items, id) ==> r == c
    ensures DistinctIds(c.items) ==> DistinctIds(r.items)
    ensures AllPositive(c.items) ==> AllPositive(r.items)
  {
    FilterOtherThan(c.items, id);
    Cart(Filter(c.items, OtherThan(id)))
  }

  lemma FilterOtherThan(items: seq<CartItem>, id: int)
    ensures !HasId(Filter(items, OtherThan(id)), id)
    ensures !HasId(items, id) ==> Filter(items, OtherThan(id)) == items
    ensures DistinctIds(items) ==> DistinctIds(Filter(items, OtherThan(id)))
    ensures AllPositive(items) ==> AllPositive(Filter(items, OtherThan(id)))
  {
    FilterKeepsMembers(items, id);
    if !HasId(items, id) {
      FilterKeepsAll(items, OtherThan(id));
    }
    if DistinctIds(items) {
      FilterKeepsDistinct(items, id);
    }
  }

  /** Every entry left by the filter comes from the list and has another id. */
  lemma FilterKeepsMembers(items: seq<CartItem>, id: int)
    ensures forall i :: 0 <= i < |Filter(items, OtherThan(id))| ==>
      Filter(items, OtherThan(id))[i] in items && Filter(items, OtherThan(id))[i].product.id != id
  {
    var kept := Filter(items, OtherThan(id));
    forall i | 0 <= i < |kept|
      ensures kept[i] in items && kept[i].product.id != id
    {
      assert multiset(kept)[kept[i]] > 0;
    }
  }

  lemma {:induction false} FilterKeepsDistinct(items: seq<CartItem>, id: int)
    requires DistinctIds(items)
    ensures DistinctIds(Filter(items, OtherThan(id)))
    decreases |items|
  {
    if |items| > 0 {
      var rest := Filter(items[1..], OtherThan(id));
      FilterKeepsDistinct(items[1..], id);
      if OtherThan(id)(items[0]) {
        FilterKeepsMembers(items[1..], id);
        HeadIdFresh(items);
        PrependKeepsDistinct(items[0], rest);
      }
    }
  }

  /** The first entry's id appears nowhere else in a list with distinct ids. */
  lemma HeadIdFresh(items: seq<CartItem>)
    requires DistinctIds(items) && |items| > 0
    ensures forall item :: item in items[1..] ==> item.product.id != items[0].product.id
  {
    forall item | item in items[1..]
      ensures item.product.id != items[0].product.id
    {
      var m :| 0 <= m < |items[1..]| && items[1..][m] == item;
      assert items[m + 1] == item;
    }
  }

  lemma PrependKeepsDistinct(item: CartItem, rest: seq<CartItem>)
    requires DistinctIds(rest)
    requires forall j :: 0 <= j < |rest| ==> rest[j].product.id != item.product.id
    ensures DistinctIds([item] + rest)
  {
    var all := [item] + rest;
    forall i, j | 0 <= i < j < |all|
      ensures all[i].product.id != all[j].product.id
    {
      assert all[j] == rest[j - 1];
      if i > 0 {
        assert all[i] == rest[i - 1];
      }
    }
  }

  /** `updateQuantity(productId, quantity)`. A quantity of zero or less is
      exactly `removeItem`. Otherwise the cart keeps its length and order,
      only entries with that id take the new quantity, and an id that is not
      in the cart leaves it as it was. */
  function UpdateQuantity(c: Cart, id: int, quantity: int): (r: Cart)
    ensures quantity <= 0 ==> r == RemoveItem(c, id)
    ensures quantity > 0 ==>
      && |r.items| == |c.items|
      && (forall i :: 0 <= i < |c.items| && c.items[i].product.id == id ==>
            r.items[i].product == c.items[i].product && r.items[i].quantity == quantity)
      && (forall i :: 0 <= i < |c.items| && c.items[i].product.id != id ==> r.items[i] == c.items[i])
    ensures quantity > 0 && !HasId(c.items, id) ==> r == c
    ensures DistinctIds(c.items) ==> DistinctIds(r.items)
    ensures AllPositive(c.items) ==> AllPositive(r.items)
  {
    if quantity <= 0 then RemoveItem(c, id)
    else
      var items := seq(|c.items|, i requires 0 <= i < |c.items| =>
        var item := c.items[i];
        if item.product.id == id then item.(quantity := quantity) else item);
      assert forall i :: 0 <= i < |items| ==> items[i].product == c.items[i].product;
      assert !HasId(c.items, id) ==> items == c.items;
      Cart(items)
  }

  /** `clearCart`: empties the cart, so both folds read zero. */
  function ClearCart(c: Cart): (r: Cart)
    ensures |r.items| == 0
    ensures ItemCount(r) == 0 && TotalPrice(r) == 0
  {
    Initial
  }

  /** The sum of `weight` over the entries: the reference definition of the
      two folds the container computes. */
  function Total(items: seq<CartItem>, weight: CartItem -> int): int
    decreases |items|
  {
    if |items| == 0 then 0 else weight(items[0]) + Total(items[1..], weight)
  }

  function Quantity(item: CartItem): int {
    item.quantity
  }

  function LineTotal(item: CartItem): int {
    item.product.price * item.quantity
  }

  function ItemCount(c: Cart): int {
    Total(c.items, Quantity)
  }

  function TotalPrice(c: Cart): int {
    Total(c.items, LineTotal)
  }

  /** Extending the list at the end adds the new entry's weight; this is what
      lets a left-to-right `reduce` compute `Total`. */
  lemma {:induction false} TotalAppend(items: seq<CartItem>, item: CartItem, weight: CartItem -> int)
    ensures Total(items + [item], weight) == Total(items, weight) + weight(item)
    decreases |items|
  {
    if |items| == 0 {
      assert items + [item] == [item];
    } else {
      assert (items + [item])[1..] == items[1..] + [item];
      TotalAppend(items[1..], item, weight);
    }
  }

  /** `getItemCount`: the `reduce` over the entries, summing quantities. */
  method GetItemCount(c: Cart) returns (count: int)
    ensures count == ItemCount(c)
  {
    count := 0;
    var i := 0;
    while i < |c.items|
      invariant 0 <= i <= |c.items|
      invariant count == Total(c.items[..i], Quantity)
    {
      assert c.items[..i + 1] == c.items[..i] + [c.items[i]];
      TotalAppend(c.items[..i], c.items[i], Quantity);
      count := count + c.items[i].quantity;
      i := i + 1;
    }
    assert c.items[..i] == c.items;
  }

  /** `getTotalPrice`: the `reduce` over the entries, summing price times
      quantity. */
  method GetTotalPrice(c: Cart) returns (total: int)
    ensures total == TotalPrice(c)
  {
    total := 0;
    var i := 0;
    while i < |c.items|
      invariant 0 <= i <= |c.items|
      invariant total == Total(c.items[..i], LineTotal)
    {
      assert c.items[..i + 1] == c.items[..i] + [c.items[i]];
      TotalAppend(c.items[..i], c.items[i], LineTotal);
      total := total + c.items[i].product.price * c.items[i].quantity;
      i := i + 1;
    }
    assert c.items[..i] == c.items;
  }

  /** Changing one entry of a list changes its total by the difference of
      that entry's weights. */
  lemma {:induction false} TotalPointUpdate(a: seq<CartItem>, b: seq<CartItem>, k: int, weight: CartItem -> int)
    requires |a| == |b| && 0 <= k < |a|
    requires forall i :: 0 <= i < |a| && i != k ==> a[i] == b[i]
    ensures Total(b, weight) == Total(a, weight) - weight(a[k]) + weight(b[k])
    decreases |a|
  {
    if k == 0 {
      assert a[1..] == b[1..];
    } else {
      TotalPointUpdate(a[1..], b[1..], k - 1, weight);
    }
  }

  /** In a cart with distinct ids, an entry with the given id is the only one. */
  lemma OnlyMatch(items: seq<CartItem>, k: int)
    requires DistinctIds(items) && 0 <= k < |items|
    ensures forall i :: 0 <= i < |items| && items[i].product.id == items[k].product.id ==> i == k
  {
  }

  /** Adding a product already in the cart raises the item count by the
      quantity added and the total price by that product's price times it,
      using the price recorded in the cart. */
  lemma AddExistingTotals(c: Cart, product: Product, quantity: int, k: int)
    requires DistinctIds(c.items) && 0 <= k < |c.items| && c.items[k].product.id == product.id
    ensures ItemCount(AddItem(c, product, quantity)) == ItemCount(c) + quantity
    ensures TotalPrice(AddItem(c, product, quantity)) == TotalPrice(c) + c.items[k].product.price * quantity
  {
    var r := AddItem(c, product, quantity);
    var entry := c.items[k];
    OnlyMatch(c.items, k);
    assert r.items[k] == CartItem(entry.product, entry.quantity + quantity);
    TotalPointUpdate(c.items, r.items, k, Quantity);
    TotalPointUpdate(c.items, r.items, k, LineTotal);
    LineTotalGrows(entry, quantity);
  }

  lemma LineTotalGrows(item: CartItem, quantity: int)
    ensures LineTotal(CartItem(item.product, item.quantity + quantity))
         == LineTotal(item) + item.product.price * quantity
  {
    var p := item.product.price;
    assert p * (item.quantity + quantity) == p * item.quantity + p * quantity;
  }

  /** Adding a new product raises the count by its quantity and the total by
      its price times that quantity. */
  lemma AddNewTotals(c: Cart, product: Product, quantity: int)
    requires !HasId(c.items, product.id)
    ensures ItemCount(AddItem(c, product, quantity)) == ItemCount(c) + quantity
    ensures TotalPrice(AddItem(c, product, quantity)) == TotalPrice(c) + product.price * quantity
  {
    TotalAppend(c.items, CartItem(product, quantity), Quantity);
    TotalAppend(c.items, CartItem(product, quantity), LineTotal);
  }

  lemma {:induction false} TotalWithout(items: seq<CartItem>, k: int, weight: CartItem -> int)
    requires DistinctIds(items) && 0 <= k < |items|
    ensures Total(Filter(items, OtherThan(items[k].product.id)), weight) == Total(items, weight) - weight(items[k])
    decreases |items|
  {
    var id := items[k].product.id;
    if k == 0 {
      assert !HasId(items[1..], id) by {
        OnlyMatch(items, 0);
      }
      FilterKeepsAll(items[1..], OtherThan(id));
    } else {
      assert items[1..][k - 1] == items[k];
      TotalWithout(items[1..], k - 1, weight);
    }
  }

  /** Removing a product takes its entry's quantity off the count and its
      line total off the price. */
  lemma RemoveTotals(c: Cart, k: int)
    requires DistinctIds(c.items) && 0 <= k < |c.items|
    ensures ItemCount(RemoveItem(c, c.items[k].product.id)) == ItemCount(c) - c.items[k].quantity
    ensures TotalPrice(RemoveItem(c, c.items[k].product.id)) == TotalPrice(c) - LineTotal(c.items[k])
  {
    TotalWithout(c.items, k, Quantity);
    TotalWithout(c.items, k, LineTotal);
  }

  /** Setting a positive quantity replaces that entry's contribution to the
      count. */
  lemma UpdateTotals(c: Cart, k: int, quantity: int)
    requires DistinctIds(c.items) && 0 <= k < |c.items| && quantity > 0
    ensures ItemCount(UpdateQuantity(c, c.items[k].product.id, quantity)) == ItemCount(c) - c.items[k].quantity + quantity
  {
    OnlyMatch(c.items, k);
    TotalPointUpdate(c.items, UpdateQuantity(c, c.items[k].product.id, quantity).items, k, Quantity);
  }

  /** Adding the same new product twice leaves one entry, at the end, whose
      quantity is the sum of the two. */
  lemma AddTwiceMerges(c: Cart, product: Product, q1: int, q2: int)
    requires !HasId(c.items, product.id)
    ensures AddItem(AddItem(c, product, q1), product, q2).items == c.items + [CartItem(product, q1 + q2)]
  {
  }

  /** Removing a product that was just added as a new entry restores the
      cart: `removeItem` undoes `addItem`. */
  lemma RemoveUndoesAdd(c: Cart, product: Product, quantity: int)
    requires !HasId(c.items, product.id)
    ensures RemoveItem(AddItem(c, product, quantity), product.id) == c
  {
    var entry := CartItem(product, quantity);
    FilterAppend(c.items, [entry], OtherThan(product.id));
    FilterKeepsAll(c.items, OtherThan(product.id));
    assert Filter([entry], OtherThan(product.id)) == [];
  }

  /** One call into the container. */
  datatype CartAction =
    | Add(product: Product, quantity: int)
    | Remove(productId: int)
    | Update(productId: int, newQuantity: int)
    | Clear

  function Apply(c: Cart, a: CartAction): Cart {
    match a
    case Add(p, q) => AddItem(c, p, q)
    case Remove(id) => RemoveItem(c, id)
    case Update(id, q) => UpdateQuantity(c, id, q)
    case Clear => ClearCart(c)
  }

  /** The cart after the actions, in order. */
  function Run(c: Cart, actions: seq<CartAction>): Cart
    decreases |actions|
  {
    if |actions| == 0 then c else Run(Apply(c, actions[0]), actions[1..])
  }

  /** No `addItem` call in the sequence passes a quantity below one. */
  predicate AddsPositive(actions: seq<CartAction>) {
    forall i :: 0 <= i < |actions| && actions[i].Add? ==> actions[i].quantity >= 1
  }

  /** Every action keeps product ids distinct, and keeps every quantity
      positive as long as the quantities added are. */
  lemma {:induction false} RunPreservesInvariants(c: Cart, actions: seq<CartAction>)
    requires DistinctIds(c.items)
    ensures DistinctIds(Run(c, actions).items)
    ensures AllPositive(c.items) && AddsPositive(actions) ==> AllPositive(Run(c, actions).items)
    decreases |actions|
  {
    if |actions| > 0 {
      RunPreservesInvariants(Apply(c, actions[0]), actions[1..]);
      if AddsPositive(actions) {
        assert AddsPositive(actions[1..]) by {
          forall i | 0 <= i < |actions[1..]| && actions[1..][i].Add?
            ensures actions[1..][i].quantity >= 1
          {
            assert actions[1..][i] == actions[i + 1];
          }
        }
      }
    }
  }

  /** Every cart reachable from the empty one has distinct ids, and positive
      quantities when every `addItem` was given a positive quantity. */
  lemma ReachableCarts(actions: seq<CartAction>)
    ensures DistinctIds(Run(Initial, actions).items)
    ensures AddsPositive(actions) ==> AllPositive(Run(Initial, actions).items)
  {
    RunPreservesInvariants(Initial, actions);
  }
}
