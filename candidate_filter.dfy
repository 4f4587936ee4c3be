/**
 * The candidate set of a search (main.py `semantic_search`, the filter
 * steps): a category filter, then a minimum-price filter, then a
 * maximum-price filter, each applied only when the request sets it, and the
 * list of candidate prices that price normalisation is computed over.
 *
 * An item whose price is absent or zero never passes a price filter, and a
 * request category that is empty filters nothing.
 */
module CandidateFilter {
  import opened Domain
  import opened Sequences
  import opened TextMatcher

  /** The item has a category that contains the requested one, ignoring case. */
  predicate MatchesCategory(product: Product, category: string) {
    IsTruthyText(product.category) && IsSubstring(Lower(category), Lower(product.category.value))
  }

  predicate PriceAtLeast(product: Product, minPrice: real) {
    IsTruthyNumber(product.price) && product.price.value >= minPrice
  }

  predicate PriceAtMost(product: Product, maxPrice: real) {
    IsTruthyNumber(product.price) && product.price.value <= maxPrice
  }

  function FilterByCategory(products: seq<Product>, category: Option<string>): seq<Product> {
    if IsTruthyText(category) then Filter(products, p => MatchesCategory(p, category.value)) else products
  }

  function FilterByMinPrice(products: seq<Product>, minPrice: Option<real>): seq<Product> {
    if minPrice.Some? then Filter(products, p => PriceAtLeast(p, minPrice.value)) else products
  }

  function FilterByMaxPrice(products: seq<Product>, maxPrice: Option<real>): seq<Product> {
    if maxPrice.Some? then Filter(products, p => PriceAtMost(p, maxPrice.value)) else products
  }

  /** The candidates of a search: the three filters, in the order the source applies them. */
  function Candidates(request: SearchRequest): seq<Product> {
    FilterByMaxPrice(
      FilterByMinPrice(FilterByCategory(request.products, request.category), request.minPrice),
      request.maxPrice)
  }

  predicate CategoryAdmits(product: Product, request: SearchRequest) {
    IsTruthyText(request.category) ==> MatchesCategory(product, request.category.value)
  }

  predicate MinPriceAdmits(product: Product, request: SearchRequest) {
    request.minPrice.Some? ==> PriceAtLeast(product, request.minPrice.value)
  }

  predicate MaxPriceAdmits(product: Product, request: SearchRequest) {
    request.maxPrice.Some? ==> PriceAtMost(product, request.maxPrice.value)
  }

  /** An item passes every filter the request activates. */
  predicate Admitted(product: Product, request: SearchRequest) {
    CategoryAdmits(product, request) && MinPriceAdmits(product, request) && MaxPriceAdmits(product, request)
  }

  /** The three filters in sequence select the same items, in the same order, as one filter by `Admitted`. */
  lemma CandidatesAreOneFilter(request: SearchRequest)
    ensures Candidates(request) == Filter(request.products, p => Admitted(p, request))
  {
    var xs := request.products;
    var byCategory := (p: Product) => CategoryAdmits(p, request);
    var byMin := (p: Product) => MinPriceAdmits(p, request);
    var byMax := (p: Product) => MaxPriceAdmits(p, request);

    if IsTruthyText(request.category) {
      FilterExtensional(xs, p => MatchesCategory(p, request.category.value), byCategory);
    } else {
      FilterKeepsAll(xs, byCategory);
    }
    var step1 := Filter(xs, byCategory);
    assert FilterByCategory(xs, request.category) == step1;

    if request.minPrice.Some? {
      FilterExtensional(step1, p => PriceAtLeast(p, request.minPrice.value), byMin);
    } else {
      FilterKeepsAll(step1, byMin);
    }
    var both := (p: Product) => CategoryAdmits(p, request) && MinPriceAdmits(p, request);
    FilterFuse(xs, byCategory, byMin, both);
    var step2 := Filter(xs, both);
    assert FilterByMinPrice(step1, request.minPrice) == step2;

    if request.maxPrice.Some? {
      FilterExtensional(step2, p => PriceAtMost(p, request.maxPrice.value), byMax);
    } else {
      FilterKeepsAll(step2, byMax);
    }
    FilterFuse(xs, both, byMax, p => Admitted(p, request));
  }

  /**
   * The candidates are an order-preserving selection of the request's items,
   * an item is a candidate exactly when it passes every active filter, and a
   * request with no active filter keeps every item.
   */
  lemma CandidatesSpec(request: SearchRequest)
    ensures IsSubsequence(Candidates(request), request.products)
    ensures forall p :: p in Candidates(request) <==> p in request.products && Admitted(p, request)
    ensures !IsTruthyText(request.category) && request.minPrice.None? && request.maxPrice.None? ==>
            Candidates(request) == request.products
  {
    CandidatesAreOneFilter(request);
    FilterIsSubsequence(request.products, p => Admitted(p, request));
  }

  /** A survivor of an active filter satisfies it: the category contains the requested one, the price is non-zero and within the bound. */
  lemma CandidatesSatisfyActiveFilters(request: SearchRequest, product: Product)
    requires product in Candidates(request)
    ensures IsTruthyText(request.category) ==>
      IsTruthyText(product.category) && IsSubstring(Lower(request.category.value), Lower(product.category.value))
    ensures request.minPrice.Some? ==>
      product.price.Some? && product.price.value != 0.0 && product.price.value >= request.minPrice.value
    ensures request.maxPrice.Some? ==>
      product.price.Some? && product.price.value != 0.0 && product.price.value <= request.maxPrice.value
  {
    CandidatesSpec(request);
  }

  /** `[p.price for p in candidates if p.price]`: the non-zero prices of the candidates, in order. */
  function CandidatePrices(candidates: seq<Product>): (prices: seq<real>)
    ensures forall x :: x in prices ==> x != 0.0 && exists p :: p in candidates && p.price == Some(x)
    ensures forall p :: p in candidates && IsTruthyNumber(p.price) ==> p.price.value in prices
  {
    if candidates == [] then []
    else
      var rest := CandidatePrices(candidates[1..]);
      assert forall p :: p in candidates[1..] ==> p in candidates;
      (if IsTruthyNumber(candidates[0].price) then [candidates[0].price.value] else []) + rest
  }
}
