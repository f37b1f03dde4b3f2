/**
  `pages/ProductCatalog.tsx`: the client-side search over the product list
  and which view the catalog shows.
 */
module ProductCatalog {
  import opened Text
  import opened Backend

  /** A product matches when its name or its description contains the query,
      all three lower-cased. The query is not trimmed. */
  predicate Matches(p: Product, query: string) {
    Includes(Lower(p.name), Lower(query)) || Includes(Lower(p.description), Lower(query))
  }

  /** `products.filter(...)`: the matching products, in their original order. */
  function FilterProducts(products: seq<Product>, query: string): (r: seq<Product>)
    ensures |r| <= |products|
    ensures forall p :: p in r <==> p in products && Matches(p, query)
    ensures IsSubsequence(r, products)
    decreases |products|
  {
    if products == [] then []
    else
      var rest := FilterProducts(products[1..], query);
      if Matches(products[0], query) then [products[0]] + rest else rest
  }

  /** `xs` is `ys` with some elements left out and the rest kept in order. */
  predicate IsSubsequence<T(==)>(xs: seq<T>, ys: seq<T>)
    decreases |ys|
  {
    if xs == [] then true
    else if ys == [] then false
    else if xs[0] == ys[0] then IsSubsequence(xs[1..], ys[1..])
    else IsSubsequence(xs, ys[1..])
  }

  /** Like `Array.prototype.filter`, the search keeps every copy of a
      matching product and no copy of any other. */
  lemma {:induction false} FilterKeepsEveryCopy(products: seq<Product>, query: string)
    ensures forall p :: multiset(FilterProducts(products, query))[p] == if Matches(p, query) then multiset(products)[p] else 0
    decreases |products|
  {
    if products != [] {
      FilterKeepsEveryCopy(products[1..], query);
      assert products == [products[0]] + products[1..];
    }
  }

  /** Searching the search results again with the same query changes nothing. */
  lemma {:induction false} FilterIdempotent(products: seq<Product>, query: string)
    ensures FilterProducts(FilterProducts(products, query), query) == FilterProducts(products, query)
    decreases |products|
  {
    if products != [] {
      FilterIdempotent(products[1..], query);
      var rest := FilterProducts(products[1..], query);
      if Matches(products[0], query) {
        assert ([products[0]] + rest)[1..] == rest;
      }
    }
  }

  /** The empty query (the page's initial state) shows every product. */
  lemma {:induction false} EmptyQueryKeepsAll(products: seq<Product>)
    ensures FilterProducts(products, "") == products
    decreases |products|
  {
    if products != [] {
      IncludesEmpty(Lower(products[0].name));
      EmptyQueryKeepsAll(products[1..]);
      assert [products[0]] + products[1..] == products;
    }
  }

  /** The search ignores the case of ASCII letters in the query. */
  lemma {:induction false} SearchIgnoresQueryCase(products: seq<Product>, query: string)
    ensures FilterProducts(products, Lower(query)) == FilterProducts(products, query)
    decreases |products|
  {
    LowerIdempotent(query);
    if products != [] {
      SearchIgnoresQueryCase(products[1..], query);
    }
  }

  datatype View =
    | CatalogSkeleton
    | Grid(products: seq<Product>)
    | EmptyState(message: string)

  const NoMatchMessage: string := "No products found matching your search."
  const NoProductsMessage: string := "No products available yet."

  /** Loading shows skeletons; a non-empty search result shows the grid;
      otherwise a message that depends only on whether a query was typed
      (an empty catalog with a query reads "no match", not "no products"). */
  function SelectView(isLoading: bool, products: Data<seq<Product>>, query: string): (v: View)
    ensures isLoading <==> v == CatalogSkeleton
    ensures v.Grid? ==> products.Present? && v.products == FilterProducts(products.value, query) && v.products != []
    ensures v.EmptyState? <==> !isLoading && (products.Absent? || FilterProducts(products.value, query) == [])
    ensures v.EmptyState? ==> v.message == (if query != "" then NoMatchMessage else NoProductsMessage)
  {
    if isLoading then CatalogSkeleton
    else if products.Present? && FilterProducts(products.value, query) != [] then Grid(FilterProducts(products.value, query))
    else EmptyState(if query != "" then NoMatchMessage else NoProductsMessage)
  }

  /** With no query typed, "no products available" is shown exactly when the
      loaded catalog is absent or empty. */
  lemma NoProductsMessageMeansEmpty(products: Data<seq<Product>>)
    ensures SelectView(false, products, "") == EmptyState(NoProductsMessage) <==> products.Absent? || products.value == []
  {
    if products.Present? {
      EmptyQueryKeepsAll(products.value);
    }
  }
}
