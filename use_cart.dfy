/** The useCart hook: the `cartItems` state and the operations that replace it. */
module UseCart {
  import opened Catalog
  import opened CartLines
  import Seqs

  class CartHook {
    /** The `cartItems` state; every operation assigns it a new list. */
    var cartItems: seq<CartItem>

    /** One line per product id and every quantity at least 1. */
    ghost predicate Valid()
      reads this
    {
      WellFormed(cartItems)
    }

    /** The hook starts from an empty cart. */
    constructor ()
      ensures cartItems == []
      ensures Valid()
    {
      cartItems := [];
    }

    /** `addToCart(product)`. */
    method AddToCart(product: Product)
      modifies this
      ensures cartItems == AddProduct(old(cartItems), product)
      ensures old(Valid()) ==> Valid()
      ensures old(Valid()) ==> TotalItems(cartItems) == TotalItems(old(cartItems)) + 1
    {
      if Valid() {
        AddPreservesWellFormed(cartItems, product);
        AddIncrementsTotalItems(cartItems, product);
      }
      cartItems := AddProduct(cartItems, product);
    }

    /** `updateCartItemQuantity(productId, quantity)`: a quantity of at most 0
        removes the product's line, any other overwrites its quantity. */
    method UpdateCartItemQuantity(productId: string, quantity: int)
      modifies this
      ensures quantity <= 0 ==> cartItems == RemoveProduct(old(cartItems), productId)
      ensures quantity > 0 ==> cartItems == SetQuantity(old(cartItems), productId, quantity)
      ensures old(Valid()) ==> Valid()
    {
      if quantity <= 0 {
        if Valid() {
          RemovePreservesWellFormed(cartItems, productId);
        }
        cartItems := RemoveProduct(cartItems, productId);
      } else {
        if Valid() {
          SetQuantityPreservesWellFormed(cartItems, productId, quantity);
        }
        cartItems := SetQuantity(cartItems, productId, quantity);
      }
    }

    /** `removeFromCart(productId)`. */
    method RemoveFromCart(productId: string)
      modifies this
      ensures cartItems == RemoveProduct(old(cartItems), productId)
      ensures old(Valid()) ==> Valid()
    {
      if Valid() {
        RemovePreservesWellFormed(cartItems, productId);
      }
      cartItems := RemoveProduct(cartItems, productId);
    }

    /** `getTotalItems()`: the sum of the quantities. */
    method GetTotalItems() returns (n: int)
      ensures n == Seqs.Sum(cartItems, Quantity)
    {
      n := TotalItems(cartItems);
    }

    /** `getTotalPrice()`: the sum of price times quantity, in cents. */
    method GetTotalPrice() returns (t: int)
      ensures t == Seqs.Sum(cartItems, LineTotal)
    {
      t := TotalPrice(cartItems);
    }
  }
}
