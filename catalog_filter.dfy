/** The Index page's product filter (narrow by category unless "All" is
    selected, then by a case-insensitive search in name or description unless
    the query is empty) and its category list ("All" followed by the distinct
    product categories in first-occurrence order). */
module CatalogFilter {
  import opened Catalog
  import opened Text
  import Seqs

  /** The category selector value that applies no category filter. */
  const AllCategory: string := "All"

  /** The search text occurs, case-insensitively, in the name or the description. */
  predicate MatchesQuery(p: Product, query: string)
  {
    Includes(ToLowerCase(p.name), ToLowerCase(query)) ||
    Includes(ToLowerCase(p.description), ToLowerCase(query))
  }

  /** The callback of the category step. */
  function InCategory(category: string): Product -> bool
  {
    (p: Product) => p.category == category
  }

  /** The callback of the search step. */
  function MatchesSearch(query: string): Product -> bool
  {
    (p: Product) => MatchesQuery(p, query)
  }

  /** Reference predicate: the product passes both steps that apply. An empty
      query string is falsy, so it applies no text filter. */
  predicate Shown(p: Product, category: string, query: string)
  {
    (category == AllCategory || p.category == category) &&
    (query == "" || MatchesQuery(p, query))
  }

  function IsShown(category: string, query: string): Product -> bool
  {
    (p: Product) => Shown(p, category, query)
  }

  /** The products the Index page shows for a category and a search query:
      a one-pass reference filter over the catalog. */
  function FilterCatalog(products: seq<Product>, category: string, query: string): (r: seq<Product>)
    ensures Seqs.IsSubsequence(r, products)
    ensures multiset(r) <= multiset(products)
    ensures forall i :: 0 <= i < |products| ==>
              Seqs.Count(r, products[i]) ==
                if Shown(products[i], category, query) then Seqs.Count(products, products[i]) else 0
    ensures category != AllCategory ==> forall i :: 0 <= i < |r| ==> r[i].category == category
    ensures query != "" ==> forall i :: 0 <= i < |r| ==> MatchesQuery(r[i], query)
    ensures forall i :: 0 <= i < |r| ==> r[i] in products
    ensures forall i :: 0 <= i < |products| && Shown(products[i], category, query) ==> products[i] in r
    ensures category == AllCategory && query == "" ==> r == products
  {
    Seqs.Filter(products, IsShown(category, query))
  }

  /** Category "All" with an empty query shows the whole catalog. */
  lemma ShowAll(products: seq<Product>)
    ensures FilterCatalog(products, AllCategory, "") == products
  {
  }

  /** A category that no product has yields the empty list. */
  lemma UnknownCategoryIsEmpty(products: seq<Product>, category: string, query: string)
    requires category != AllCategory
    requires forall i :: 0 <= i < |products| ==> products[i].category != category
    ensures FilterCatalog(products, category, query) == []
  {
  }

  /** The category step alone is the reference filter with an empty query. */
  lemma CategoryStep(products: seq<Product>, category: string)
    requires category != AllCategory
    ensures Seqs.Filter(products, InCategory(category)) == FilterCatalog(products, category, "")
  {
    Seqs.FilterExtensional(products, InCategory(category), IsShown(category, ""));
  }

  /** The search step alone is the reference filter with category "All". */
  lemma SearchStep(products: seq<Product>, query: string)
    requires query != ""
    ensures Seqs.Filter(products, MatchesSearch(query)) == FilterCatalog(products, AllCategory, query)
  {
    Seqs.FilterExtensional(products, MatchesSearch(query), IsShown(AllCategory, query));
  }

  /** The category step followed by the search step is the reference filter. */
  lemma CategoryThenSearch(products: seq<Product>, category: string, query: string)
    requires category != AllCategory && query != ""
    ensures Seqs.Filter(Seqs.Filter(products, InCategory(category)), MatchesSearch(query))
            == FilterCatalog(products, category, query)
  {
    Seqs.FilterFusion(products, InCategory(category), MatchesSearch(query), IsShown(category, query));
  }

  /** A query longer than both the name and the description matches nothing. */
  lemma LongQueryMatchesNothing(p: Product, query: string)
    requires |query| > |p.name| && |query| > |p.description|
    ensures !MatchesQuery(p, query)
  {
    if Includes(ToLowerCase(p.name), ToLowerCase(query)) {
      IncludesShorter(ToLowerCase(p.name), ToLowerCase(query));
    }
    if Includes(ToLowerCase(p.description), ToLowerCase(query)) {
      IncludesShorter(ToLowerCase(p.description), ToLowerCase(query));
    }
  }

  /** Search is insensitive to the case of the query. */
  lemma QueryCaseInsensitive(p: Product, query: string)
    ensures MatchesQuery(p, ToLowerCase(query)) == MatchesQuery(p, query)
  {
    ToLowerCaseIdempotent(query);
  }

  // ---------------------------------------------------------------------------
  // The category list.

  function CategoryOf(p: Product): string
  {
    p.category
  }

  predicate NoDuplicates(s: seq<string>)
  {
    forall i, j :: 0 <= i < j < |s| ==> s[i] != s[j]
  }

  /** Position of the first occurrence of `x` in `s`, or `|s|` if there is none. */
  function FirstIndex(s: seq<string>, x: string): (k: nat)
    ensures k <= |s|
    ensures k < |s| <==> x in s
    ensures k < |s| ==> s[k] == x
    ensures forall i :: 0 <= i < k ==> s[i] != x
  {
    if s == [] then 0 else if s[0] == x then 0 else 1 + FirstIndex(s[1..], x)
  }

  /** The values of `values` not in `seen`, each once, in first-occurrence
      order: what iterating a JavaScript `Set` built from `values` yields, given
      that `seen` was inserted first. */
  function Distinct(values: seq<string>, seen: set<string>): seq<string>
  {
    if values == [] then []
    else if values[0] in seen then Distinct(values[1..], seen)
    else [values[0]] + Distinct(values[1..], seen + {values[0]})
  }

  /** `Distinct` lists every unseen value exactly once, nothing else, and in
      the order of first occurrence. */
  lemma {:induction false} DistinctSpec(values: seq<string>, seen: set<string>)
    ensures var r := Distinct(values, seen);
            NoDuplicates(r) &&
            (forall i :: 0 <= i < |r| ==> r[i] in values && r[i] !in seen) &&
            (forall i :: 0 <= i < |values| && values[i] !in seen ==> values[i] in r) &&
            (forall i, j :: 0 <= i < j < |r| ==> FirstIndex(values, r[i]) < FirstIndex(values, r[j]))
  {
    if values != [] {
      var v, tail := values[0], values[1..];
      if v in seen {
        DistinctSpec(tail, seen);
        var r := Distinct(tail, seen);
        forall i | 0 <= i < |r| ensures FirstIndex(values, r[i]) == 1 + FirstIndex(tail, r[i]) {
          assert r[i] != v;
        }
        forall i | 0 <= i < |values| && values[i] !in seen ensures values[i] in r {
          assert i != 0;
          assert values[i] == tail[i - 1];
        }
      } else {
        DistinctSpec(tail, seen + {v});
        var rest := Distinct(tail, seen + {v});
        var r := [v] + rest;
        forall i | 0 <= i < |rest| ensures FirstIndex(values, rest[i]) == 1 + FirstIndex(tail, rest[i]) {
          assert rest[i] != v;
        }
        forall i, j | 0 <= i < j < |r| ensures r[i] != r[j] && FirstIndex(values, r[i]) < FirstIndex(values, r[j]) {
          assert r[j] == rest[j - 1];
          if i > 0 {
            assert r[i] == rest[i - 1];
          }
        }
        forall i | 0 <= i < |values| && values[i] !in seen ensures values[i] in r {
          if i > 0 {
            assert values[i] == tail[i - 1];
          }
        }
        forall i | 0 <= i < |r| ensures r[i] in values && r[i] !in seen {
          if i > 0 {
            assert r[i] == rest[i - 1];
          }
        }
      }
    }
  }

  /** `["All", ...Array.from(new Set(products.map(p => p.category)))]`. */
  function Categories(products: seq<Product>): (r: seq<string>)
    ensures |r| >= 1 && r[0] == AllCategory
    ensures NoDuplicates(r[1..])
    ensures forall i :: 1 <= i < |r| ==> exists j :: 0 <= j < |products| && products[j].category == r[i]
    ensures forall j :: 0 <= j < |products| ==> products[j].category in r[1..]
    ensures forall i, j :: 1 <= i < j < |r| ==>
              FirstIndex(Seqs.Map(products, CategoryOf), r[i]) < FirstIndex(Seqs.Map(products, CategoryOf), r[j])
  {
    var column := Seqs.Map(products, CategoryOf);
    var distinct := Distinct(column, {});
    var r := [AllCategory] + distinct;
    DistinctSpec(column, {});
    assert r[1..] == distinct;
    assert forall i :: 1 <= i < |r| ==> r[i] == distinct[i - 1];
    assert forall j :: 0 <= j < |products| ==> column[j] == products[j].category;
    r
  }
}
