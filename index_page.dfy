/** The Index page: the catalog, the filter effect that derives the shown
    products from the search query and the selected category, the category
    list, and its own copy of the cart state and operations. */
module IndexPage {
  import opened Catalog
  import opened CartLines
  import CatalogFilter
  import Seqs

  class Index {
    /** The `products` state; its setter is never called. */
    const products: seq<Product>
    var filteredProducts: seq<Product>
    var cartItems: seq<CartItem>
    var searchQuery: string
    var selectedCategory: string

    /** The filter effect has run for the current inputs. */
    ghost predicate FilterCurrent()
      reads this
    {
      filteredProducts == CatalogFilter.FilterCatalog(products, selectedCategory, searchQuery)
    }

    ghost predicate Valid()
      reads this
    {
      FilterCurrent() && WellFormed(cartItems)
    }

    /** Initial state: the catalog (the page's sample products), shown
        unfiltered, an empty cart, an empty query and category "All". */
    constructor (catalog: seq<Product>)
      ensures products == catalog && filteredProducts == catalog
      ensures cartItems == [] && searchQuery == "" && selectedCategory == CatalogFilter.AllCategory
      ensures Valid()
    {
      CatalogFilter.ShowAll(catalog);
      products := catalog;
      filteredProducts := catalog;
      cartItems := [];
      searchQuery := "";
      selectedCategory := CatalogFilter.AllCategory;
    }

    /** The filter effect: narrow by category unless "All" is selected, then by
        the search text unless it is empty, and store the result. */
    method RunFilterEffect()
      modifies this`filteredProducts
      ensures FilterCurrent()
    {
      var category, query := selectedCategory, searchQuery;
      var filtered := products;
      if category != CatalogFilter.AllCategory {
        filtered := Seqs.Filter(filtered, CatalogFilter.InCategory(category));
      }
      if query != "" {
        filtered := Seqs.Filter(filtered, CatalogFilter.MatchesSearch(query));
      }
      if category != CatalogFilter.AllCategory && query != "" {
        CatalogFilter.CategoryThenSearch(products, category, query);
      } else if category != CatalogFilter.AllCategory {
        CatalogFilter.CategoryStep(products, category);
      } else if query != "" {
        CatalogFilter.SearchStep(products, query);
      }
      filteredProducts := filtered;
    }

    /** `setSearchQuery(query)` followed by the filter effect it triggers. */
    method SetSearchQuery(query: string)
      modifies this
      ensures searchQuery == query && selectedCategory == old(selectedCategory)
      ensures cartItems == old(cartItems)
      ensures filteredProducts == CatalogFilter.FilterCatalog(products, selectedCategory, query)
      ensures old(Valid()) ==> Valid()
    {
      searchQuery := query;
      RunFilterEffect();
    }

    /** `setSelectedCategory(category)` followed by the filter effect it triggers. */
    method SetSelectedCategory(category: string)
      modifies this
      ensures selectedCategory == category && searchQuery == old(searchQuery)
      ensures cartItems == old(cartItems)
      ensures filteredProducts == CatalogFilter.FilterCatalog(products, category, searchQuery)
      ensures old(Valid()) ==> Valid()
    {
      selectedCategory := category;
      RunFilterEffect();
    }

    /** `addToCart(product)`, the same updater as the useCart hook's. */
    method AddToCart(product: Product)
      modifies this`cartItems
      ensures cartItems == AddProduct(old(cartItems), product)
      ensures old(Valid()) ==> Valid()
      ensures old(Valid()) ==> TotalItems(cartItems) == TotalItems(old(cartItems)) + 1
    {
      if WellFormed(cartItems) {
        AddPreservesWellFormed(cartItems, product);
        AddIncrementsTotalItems(cartItems, product);
      }
      cartItems := AddProduct(cartItems, product);
    }

    /** `updateCartItemQuantity(productId, quantity)`, as in the useCart hook. */
    method UpdateCartItemQuantity(productId: string, quantity: int)
      modifies this`cartItems
      ensures quantity <= 0 ==> cartItems == RemoveProduct(old(cartItems), productId)
      ensures quantity > 0 ==> cartItems == SetQuantity(old(cartItems), productId, quantity)
      ensures old(Valid()) ==> Valid()
    {
      if quantity <= 0 {
        if WellFormed(cartItems) {
          RemovePreservesWellFormed(cartItems, productId);
        }
        cartItems := RemoveProduct(cartItems, productId);
      } else {
        if WellFormed(cartItems) {
          SetQuantityPreservesWellFormed(cartItems, productId, quantity);
        }
        cartItems := SetQuantity(cartItems, productId, quantity);
      }
    }

    /** `removeFromCart(productId)`, as in the useCart hook. */
    method RemoveFromCart(productId: string)
      modifies this`cartItems
      ensures cartItems == RemoveProduct(old(cartItems), productId)
      ensures old(Valid()) ==> Valid()
    {
      if WellFormed(cartItems) {
        RemovePreservesWellFormed(cartItems, productId);
      }
      cartItems := RemoveProduct(cartItems, productId);
    }

    /** `getTotalItems()`, the count passed to the header. */
    method GetTotalItems() returns (n: int)
      ensures n == Seqs.Sum(cartItems, Quantity)
    {
      n := TotalItems(cartItems);
    }

    /** `getTotalPrice()`, the total passed to the cart panel. */
    method GetTotalPrice() returns (t: int)
      ensures t == Seqs.Sum(cartItems, LineTotal)
    {
      t := TotalPrice(cartItems);
    }
  }
}
