/** The cart as an ordered list of (product, quantity) lines, and the pure state
    updaters that `addToCart`, `updateCartItemQuantity` and `removeFromCart`
    hand to the `cartItems` state setter. The useCart hook and the Index page
    carry identical copies of this logic; both classes use these functions. */
module CartLines {
  import opened Catalog
  import Seqs

  datatype CartItem = CartItem(product: Product, quantity: int)

  function LineId(item: CartItem): string
  {
    item.product.id
  }

  function Quantity(item: CartItem): int
  {
    item.quantity
  }

  /** Price of one line in cents. */
  function LineTotal(item: CartItem): int
  {
    item.product.price * item.quantity
  }

  /** `items.find(item => item.product.id === id)` finds something. */
  predicate HasLine(items: seq<CartItem>, id: string)
  {
    exists i :: 0 <= i < |items| && items[i].product.id == id
  }

  /** At most one line per product id. */
  predicate UniqueIds(items: seq<CartItem>)
  {
    Seqs.DistinctBy(items, LineId)
  }

  predicate AllPositive(items: seq<CartItem>)
  {
    forall i :: 0 <= i < |items| ==> items[i].quantity >= 1
  }

  /** The cart invariant: one line per product id, every quantity at least 1. */
  predicate WellFormed(items: seq<CartItem>)
  {
    UniqueIds(items) && AllPositive(items)
  }

  /** The callback `addToCart` maps over the lines of a product already present. */
  function BumpIf(id: string): CartItem -> CartItem
  {
    (item: CartItem) => if item.product.id == id then item.(quantity := item.quantity + 1) else item
  }

  /** The callback `updateCartItemQuantity` maps over the lines for a positive quantity. */
  function SetIf(id: string, quantity: int): CartItem -> CartItem
  {
    (item: CartItem) => if item.product.id == id then item.(quantity := quantity) else item
  }

  /** The callback the removal filters with. */
  function OtherProduct(id: string): CartItem -> bool
  {
    (item: CartItem) => item.product.id != id
  }

  /** The updater of `addToCart`: bump every line of the product by one if it
      has a line, otherwise append `{product, quantity: 1}`. */
  function AddProduct(items: seq<CartItem>, product: Product): (r: seq<CartItem>)
    ensures HasLine(r, product.id)
    ensures HasLine(items, product.id) ==> |r| == |items|
    ensures !HasLine(items, product.id) ==> r == items + [CartItem(product, 1)]
    ensures forall i :: 0 <= i < |items| ==> r[i].product == items[i].product
    ensures forall i :: 0 <= i < |items| && items[i].product.id == product.id ==>
              r[i].quantity == items[i].quantity + 1
    ensures forall i :: 0 <= i < |items| && items[i].product.id != product.id ==> r[i] == items[i]
  {
    if HasLine(items, product.id) then Seqs.Map(items, BumpIf(product.id))
    else
      var r := items + [CartItem(product, 1)];
      assert r[|items|].product.id == product.id;
      r
  }

  /** The updater of `updateCartItemQuantity` for a positive quantity:
      overwrite the quantity of the product's lines. */
  function SetQuantity(items: seq<CartItem>, id: string, quantity: int): (r: seq<CartItem>)
    ensures |r| == |items|
    ensures forall i :: 0 <= i < |items| ==> r[i].product == items[i].product
    ensures forall i :: 0 <= i < |items| && items[i].product.id == id ==> r[i].quantity == quantity
    ensures forall i :: 0 <= i < |items| && items[i].product.id != id ==> r[i] == items[i]
    ensures !HasLine(items, id) ==> r == items
  {
    Seqs.Map(items, SetIf(id, quantity))
  }

  /** The updater of `removeFromCart` (and of `updateCartItemQuantity` for a
      quantity of at most 0): keep the lines of every other product. */
  function RemoveProduct(items: seq<CartItem>, id: string): (r: seq<CartItem>)
    ensures !HasLine(r, id)
    ensures Seqs.IsSubsequence(r, items)
    ensures forall i :: 0 <= i < |r| ==> r[i] in items
    ensures forall i :: 0 <= i < |items| && items[i].product.id != id ==> items[i] in r
    ensures forall i :: 0 <= i < |items| ==>
              Seqs.Count(r, items[i]) == if items[i].product.id != id then Seqs.Count(items, items[i]) else 0
    ensures !HasLine(items, id) ==> r == items
  {
    Seqs.Filter(items, OtherProduct(id))
  }

  /** `getTotalItems`: the reduce fold over the lines, equal to the sum of quantities. */
  function TotalItems(items: seq<CartItem>): (n: int)
    ensures n == Seqs.Sum(items, Quantity)
  {
    Seqs.FoldSumIsSum(items, 0, Quantity);
    Seqs.FoldSum(items, 0, Quantity)
  }

  /** `getTotalPrice`: the reduce fold over the lines, equal to the sum of
      price times quantity, in cents. */
  function TotalPrice(items: seq<CartItem>): (t: int)
    ensures t == Seqs.Sum(items, LineTotal)
  {
    Seqs.FoldSumIsSum(items, 0, LineTotal);
    Seqs.FoldSum(items, 0, LineTotal)
  }

  // ---------------------------------------------------------------------------
  // The cart invariant is preserved.

  lemma AddPreservesWellFormed(items: seq<CartItem>, product: Product)
    requires WellFormed(items)
    ensures WellFormed(AddProduct(items, product))
  {
    var r := AddProduct(items, product);
    if !HasLine(items, product.id) {
      forall i, j | 0 <= i < j < |r| ensures LineId(r[i]) != LineId(r[j]) {
        if j == |items| {
          assert r[j] == CartItem(product, 1);
        }
      }
    }
  }

  lemma SetQuantityPreservesWellFormed(items: seq<CartItem>, id: string, quantity: int)
    requires WellFormed(items)
    requires quantity > 0
    ensures WellFormed(SetQuantity(items, id, quantity))
  {
  }

  lemma RemovePreservesWellFormed(items: seq<CartItem>, id: string)
    requires WellFormed(items)
    ensures WellFormed(RemoveProduct(items, id))
  {
    Seqs.FilterDistinctBy(items, OtherProduct(id), LineId);
  }

  // ---------------------------------------------------------------------------
  // Where the line of a product sits, in a cart with one line per product.

  /** In a cart with unique ids, the line at `k` is the only one of its product. */
  lemma OnlyLine(items: seq<CartItem>, k: int)
    requires UniqueIds(items)
    requires 0 <= k < |items|
    ensures forall i :: 0 <= i < |items| && i != k ==> items[i].product.id != items[k].product.id
  {
    forall i | 0 <= i < |items| && i != k
      ensures items[i].product.id != items[k].product.id
    {
      if i < k {
        assert LineId(items[i]) != LineId(items[k]);
      } else {
        assert LineId(items[k]) != LineId(items[i]);
      }
    }
  }

  /** Adding a product that has a line bumps exactly that line. */
  lemma AddExisting(items: seq<CartItem>, product: Product, k: int)
    requires UniqueIds(items)
    requires 0 <= k < |items| && items[k].product.id == product.id
    ensures AddProduct(items, product) == items[k := items[k].(quantity := items[k].quantity + 1)]
  {
    OnlyLine(items, k);
  }

  /** Removing a product that has a line drops exactly that line. */
  lemma RemoveExisting(items: seq<CartItem>, k: int)
    requires UniqueIds(items)
    requires 0 <= k < |items|
    ensures RemoveProduct(items, items[k].product.id) == items[..k] + items[k + 1..]
  {
    OnlyLine(items, k);
    var keep := OtherProduct(items[k].product.id);
    var before, after := items[..k], items[k + 1..];
    assert items == before + ([items[k]] + after);
    assert Seqs.Filter(before, keep) == before by {
      forall i | 0 <= i < |before| ensures keep(before[i]) {
        assert before[i] == items[i];
      }
    }
    assert Seqs.Filter(after, keep) == after by {
      forall i | 0 <= i < |after| ensures keep(after[i]) {
        assert after[i] == items[k + 1 + i];
      }
    }
    assert Seqs.Filter([items[k]], keep) == [];
    Seqs.FilterAppend([items[k]], after, keep);
    Seqs.FilterAppend(before, [items[k]] + after, keep);
  }

  // ---------------------------------------------------------------------------
  // How the totals move.

  /** Adding a product that has a line at `k` raises the item count by one and
      the price total by the price recorded in that line. */
  lemma AddExistingTotals(items: seq<CartItem>, product: Product, k: int)
    requires UniqueIds(items)
    requires 0 <= k < |items| && items[k].product.id == product.id
    ensures TotalItems(AddProduct(items, product)) == TotalItems(items) + 1
    ensures TotalPrice(AddProduct(items, product)) == TotalPrice(items) + items[k].product.price
  {
    OnlyLine(items, k);
    var f := BumpIf(product.id);
    assert HasLine(items, product.id);
    assert AddProduct(items, product) == Seqs.Map(items, f);
    Seqs.SumMapOneChanged(items, f, Quantity, k);
    Seqs.SumMapOneChanged(items, f, LineTotal, k);
  }

  /** Adding a product without a line raises the item count by one and the
      price total by the product's price. */
  lemma AddNewTotals(items: seq<CartItem>, product: Product)
    requires !HasLine(items, product.id)
    ensures TotalItems(AddProduct(items, product)) == TotalItems(items) + 1
    ensures TotalPrice(AddProduct(items, product)) == TotalPrice(items) + product.price
  {
    var line := CartItem(product, 1);
    Seqs.SumAppend(items, [line], Quantity);
    Seqs.SumAppend(items, [line], LineTotal);
  }

  /** In a cart with one line per product, every `addToCart` raises
      `getTotalItems` by exactly one. */
  lemma AddIncrementsTotalItems(items: seq<CartItem>, product: Product)
    requires UniqueIds(items)
    ensures TotalItems(AddProduct(items, product)) == TotalItems(items) + 1
  {
    if HasLine(items, product.id) {
      var k :| 0 <= k < |items| && items[k].product.id == product.id;
      AddExistingTotals(items, product, k);
    } else {
      AddNewTotals(items, product);
    }
  }

  /** Overwriting the quantity of the line at `k` moves the totals by the
      difference of that one line. */
  lemma SetQuantityTotals(items: seq<CartItem>, k: int, quantity: int)
    requires UniqueIds(items)
    requires 0 <= k < |items|
    ensures var r := SetQuantity(items, items[k].product.id, quantity);
            TotalItems(r) == TotalItems(items) - items[k].quantity + quantity &&
            TotalPrice(r) == TotalPrice(items) - LineTotal(items[k]) + items[k].product.price * quantity
  {
    OnlyLine(items, k);
    var f := SetIf(items[k].product.id, quantity);
    Seqs.SumMapOneChanged(items, f, Quantity, k);
    Seqs.SumMapOneChanged(items, f, LineTotal, k);
  }

  /** Removing the product of the line at `k` takes that line out of both totals. */
  lemma RemoveTotals(items: seq<CartItem>, k: int)
    requires UniqueIds(items)
    requires 0 <= k < |items|
    ensures var r := RemoveProduct(items, items[k].product.id);
            TotalItems(r) == TotalItems(items) - items[k].quantity &&
            TotalPrice(r) == TotalPrice(items) - LineTotal(items[k])
  {
    OnlyLine(items, k);
    var keep := OtherProduct(items[k].product.id);
    Seqs.SumFilterOneDropped(items, keep, Quantity, k);
    Seqs.SumFilterOneDropped(items, keep, LineTotal, k);
  }

  // ---------------------------------------------------------------------------
  // Repeated adds.

  /** `n` successive `addToCart(product)` calls. */
  function AddRepeatedly(items: seq<CartItem>, product: Product, n: nat): seq<CartItem>
  {
    if n == 0 then items else AddProduct(AddRepeatedly(items, product, n - 1), product)
  }

  /** Adding a product absent from the cart `n >= 1` times leaves the
      earlier lines alone and ends with one line for it, of quantity `n`. */
  lemma {:induction false} RepeatedAdds(items: seq<CartItem>, product: Product, n: nat)
    requires !HasLine(items, product.id)
    requires n >= 1
    ensures AddRepeatedly(items, product, n) == items + [CartItem(product, n)]
  {
    if n > 1 {
      RepeatedAdds(items, product, n - 1);
      var prev := items + [CartItem(product, n - 1)];
      var k := |items|;
      assert prev[k].product.id == product.id;
      var r := AddProduct(prev, product);
      var want := items + [CartItem(product, n)];
      assert |r| == |want|;
      forall i | 0 <= i < |r| ensures r[i] == want[i] {
        if i < k {
          assert prev[i] == items[i];
        }
      }
    }
  }
}
