/** The retail catalogue page: the product list narrowed by the selected
    category and the search box. */
module Catalogue {
  import opened Json
  import opened Text
  import Sequences

  /** The part of a product record the filter reads; `categorySlug` is
      `product.category?.slug`. */
  datatype Product = Product(id: string, name: string, shortDescription: Option<string>, categorySlug: Option<string>)

  /** The page's filter state: `selectedCategory` and `searchQuery`. */
  datatype Filters = Filters(selectedCategory: Option<string>, searchQuery: string)

  const Initial := Filters(None, "")

  /** `!selectedCategory || product.category?.slug === selectedCategory`. */
  predicate MatchesCategory(p: Product, selected: Option<string>)
  {
    selected.None? || selected.value == "" || p.categorySlug == selected
  }

  /** The case-insensitive search; `lower` is `toLowerCase`. */
  predicate MatchesSearch(p: Product, query: string, lower: string -> string)
  {
    query == "" ||
    Includes(lower(p.name), lower(query)) ||
    (p.shortDescription.Some? && Includes(lower(p.shortDescription.value), lower(query)))
  }

  predicate Matches(p: Product, f: Filters, lower: string -> string)
  {
    MatchesCategory(p, f.selectedCategory) && MatchesSearch(p, f.searchQuery, lower)
  }

  function FilteredProducts(products: seq<Product>, f: Filters, lower: string -> string): seq<Product>
  {
    Sequences.Filter(products, p => Matches(p, f, lower))
  }

  /** The "Todos" button. */
  function ShowAll(f: Filters): (r: Filters)
    ensures r.selectedCategory.None? && r.searchQuery == f.searchQuery
  {
    f.(selectedCategory := None)
  }

  /** A category button. */
  function SelectCategory(f: Filters, slug: string): (r: Filters)
    ensures r.selectedCategory == Some(slug) && r.searchQuery == f.searchQuery
  {
    f.(selectedCategory := Some(slug))
  }

  /** Typing in the search box. */
  function SetSearch(f: Filters, query: string): (r: Filters)
    ensures r.searchQuery == query && r.selectedCategory == f.selectedCategory
  {
    f.(searchQuery := query)
  }

  // ---------------------------------------------------------------- properties

  /** The filtered list keeps exactly the matching products, in catalogue order. */
  lemma FilteredInOrder(products: seq<Product>, f: Filters, lower: string -> string)
    ensures Sequences.Subsequence(FilteredProducts(products, f, lower), products)
    ensures forall p :: p in FilteredProducts(products, f, lower) <==> p in products && Matches(p, f, lower)
  {
    Sequences.FilterSubsequence(products, p => Matches(p, f, lower));
    forall p ensures p in FilteredProducts(products, f, lower) <==> p in products && Matches(p, f, lower) {
      Sequences.FilterMembership(products, p => Matches(p, f, lower), p);
    }
  }

  /** With no category chosen every product passes the category test; with one,
      only the products of that category do. */
  lemma CategoryRule(p: Product, selected: Option<string>)
    ensures selected.None? ==> MatchesCategory(p, selected)
    ensures selected.Some? && selected.value != "" ==>
      (MatchesCategory(p, selected) <==> p.categorySlug == selected)
  {
  }

  /** An empty query passes everything; otherwise the lowered query must occur in
      the lowered name or the lowered short description. */
  lemma SearchRule(p: Product, query: string, lower: string -> string)
    ensures query == "" ==> MatchesSearch(p, query, lower)
    ensures query != "" ==>
      (MatchesSearch(p, query, lower) <==>
        (exists i :: OccursAt(lower(p.name), lower(query), i)) ||
        (p.shortDescription.Some? && exists i :: OccursAt(lower(p.shortDescription.value), lower(query), i)))
  {
    IncludesIff(lower(p.name), lower(query));
    if p.shortDescription.Some? {
      IncludesIff(lower(p.shortDescription.value), lower(query));
    }
  }

  /** On the page as first shown, and after "Todos" with an empty search, the
      whole catalogue is listed. */
  lemma NoFiltersShowsAll(products: seq<Product>, f: Filters, lower: string -> string)
    ensures FilteredProducts(products, Initial, lower) == products
    ensures FilteredProducts(products, SetSearch(ShowAll(f), ""), lower) == products
  {
    Sequences.FilterAll(products, p => Matches(p, Initial, lower));
    Sequences.FilterAll(products, p => Matches(p, SetSearch(ShowAll(f), ""), lower));
  }

  /** After a category button, only that category's products are listed. */
  lemma SelectedCategoryOnly(products: seq<Product>, f: Filters, slug: string, lower: string -> string)
    requires slug != ""
    ensures forall p :: p in FilteredProducts(products, SelectCategory(f, slug), lower) ==>
      p.categorySlug == Some(slug)
  {
    FilteredInOrder(products, SelectCategory(f, slug), lower);
  }
}
