/**
 * The similar-products endpoint (main.py `find_similar_products`): every
 * item except the excluded one that has an embedding is compared with the
 * viewed item's embedding, the items are sorted by similarity (highest
 * first, stable), the first `limit` are kept and numbered from 1, and each
 * gets a display-only breakdown whose final score is the similarity.
 */
module SimilarityFinder {
  import opened Domain
  import opened Sequences
  import opened VectorMath
  import opened ScoreCalculator
  import opened Ranker

  /** The item the request excludes: only a non-zero exclude id excludes anything. */
  predicate IsExcluded(product: Product, excludeId: Option<int>) {
    IsTruthyId(excludeId) && product.id == excludeId.value
  }

  /** An item is compared when it is not excluded and has a non-empty embedding. */
  predicate IsCompared(product: Product, excludeId: Option<int>) {
    !IsExcluded(product, excludeId) && HasEmbedding(product.embedding)
  }

  /** The compared items, in request order. */
  function SimilarCandidates(request: SimilarProductsRequest): seq<Product> {
    Filter(request.products, p => IsCompared(p, request.excludeId))
  }

  /** Cosine similarity of an item's embedding to the viewed item's embedding. */
  function Similarity(source: seq<real>, product: Product, norm: Norm): real {
    if product.embedding.Some? then CosineSimilarity(source, product.embedding.value, norm) else 0.0
  }

  /** The sort keys of the compared items, in request order. */
  function SimilarityKeys(request: SimilarProductsRequest, norm: Norm): (keys: seq<real>)
    ensures |keys| == |SimilarCandidates(request)|
  {
    var candidates := SimilarCandidates(request);
    seq(|candidates|, i requires 0 <= i < |candidates| => Similarity(request.productEmbedding, candidates[i], norm))
  }

  const SimilarExplanation := "Similar to viewed product"

  /**
   * The breakdown shown for a similar item: the similarity is both the
   * semantic and the final score; the price and recency scores are the
   * neutral 0.5, the stock score is 1.0 only for an item marked in stock,
   * and no terms are matched.
   */
  function DisplayBreakdown(product: Product, similarity: real): (b: ScoreBreakdown)
    ensures b.finalScore == b.semanticScore == similarity
    ensures b.ratingScore == RatingScore(product.rating)
    ensures b.priceScore == 0.5 && b.recencyScore == 0.5
    ensures b.stockScore == 1.0 <==> product.availability == Some("in_stock")
    ensures b.stockScore == 0.5 <==> product.availability != Some("in_stock")
    ensures b.matchedTerms == [] && b.explanation == SimilarExplanation
  {
    var stock := if product.availability == Some("in_stock") then 1.0 else 0.5;
    ScoreBreakdown(similarity, RatingScore(product.rating), 0.5, stock, 0.5, similarity, [], SimilarExplanation)
  }

  /**
   * The compared items are an order-preserving selection of the request's
   * items; an item is compared exactly when it is not excluded and has an
   * embedding; and an absent or zero exclude id excludes nothing.
   */
  lemma SimilarCandidatesSpec(request: SimilarProductsRequest)
    ensures IsSubsequence(SimilarCandidates(request), request.products)
    ensures forall p :: p in SimilarCandidates(request) <==>
      p in request.products && !IsExcluded(p, request.excludeId) && HasEmbedding(p.embedding)
    ensures !IsTruthyId(request.excludeId) ==>
      SimilarCandidates(request) == Filter(request.products, (p: Product) => HasEmbedding(p.embedding))
  {
    FilterIsSubsequence(request.products, p => IsCompared(p, request.excludeId));
    if !IsTruthyId(request.excludeId) {
      FilterExtensional(request.products, p => IsCompared(p, request.excludeId), (p: Product) => HasEmbedding(p.embedding));
    }
  }

  /** Computes the similarity of every compared item, skipping the excluded one and those without embeddings. */
  method CollectSimilarities(request: SimilarProductsRequest, norm: Norm) returns (similarities: seq<(Product, real)>)
    ensures |similarities| == |SimilarCandidates(request)|
    ensures forall k :: 0 <= k < |similarities| ==>
      similarities[k].0 == SimilarCandidates(request)[k] &&
      similarities[k].1 == Similarity(request.productEmbedding, similarities[k].0, norm)
  {
    var source := request.productEmbedding;
    var products := request.products;
    var compared := (p: Product) => IsCompared(p, request.excludeId);
    similarities := [];
    for i := 0 to |products|
      invariant |similarities| == |Filter(products[..i], compared)|
      invariant forall k :: 0 <= k < |similarities| ==>
        similarities[k].0 == Filter(products[..i], compared)[k] &&
        similarities[k].1 == Similarity(source, similarities[k].0, norm)
    {
      var product := products[i];
      assert products[..i + 1] == products[..i] + [product];
      FilterSnoc(products[..i], product, compared);
      if request.excludeId.Some? && request.excludeId.value != 0 && product.id == request.excludeId.value {
        continue;
      }
      if product.embedding.Some? && product.embedding.value != [] {
        var similarity := CosineSimilarity(source, product.embedding.value, norm);
        similarities := similarities + [(product, similarity)];
      }
    }
    assert products[..|products|] == products;
  }

  /** Keeps the first `limit` ranked items, numbered from 1, each with its display breakdown. */
  method NumberDisplayResults(ranked: seq<(Product, real)>, limit: int) returns (results: seq<SearchResult>)
    ensures |results| == SliceCount(|ranked|, limit)
    ensures forall k :: 0 <= k < |results| ==>
      results[k] == SearchResult(ranked[k].0, DisplayBreakdown(ranked[k].0, ranked[k].1), k + 1)
  {
    var count := SliceCount(|ranked|, limit);
    results := [];
    for rank := 0 to count
      invariant |results| == rank
      invariant forall k :: 0 <= k < rank ==>
        results[k] == SearchResult(ranked[k].0, DisplayBreakdown(ranked[k].0, ranked[k].1), k + 1)
    {
      var (product, similarity) := ranked[rank];
      results := results + [SearchResult(product, DisplayBreakdown(product, similarity), rank + 1)];
    }
  }

  /** Ranks the compared items by similarity; `order` is their sorted order, as positions. */
  method FindSimilarProducts(request: SimilarProductsRequest, norm: Norm)
    returns (results: seq<SearchResult>, ghost order: seq<nat>)
    ensures |order| == |SimilarCandidates(request)|
    ensures InRange(SimilarityKeys(request, norm), order)
    ensures multiset(order) == multiset(Indices(|SimilarCandidates(request)|))
    ensures StablyDescending(SimilarityKeys(request, norm), order)
    ensures |results| == SliceCount(|SimilarCandidates(request)|, request.limit)
    ensures forall i :: 0 <= i < |results| ==>
      results[i].rank == i + 1 &&
      results[i].product == SimilarCandidates(request)[order[i]] &&
      results[i].scoreBreakdown ==
        DisplayBreakdown(results[i].product, Similarity(request.productEmbedding, results[i].product, norm))
    ensures forall i :: 0 <= i < |results| ==>
      !IsExcluded(results[i].product, request.excludeId) && HasEmbedding(results[i].product.embedding) &&
      results[i].scoreBreakdown.finalScore == results[i].scoreBreakdown.semanticScore
    ensures forall i, j :: 0 <= i < j < |results| ==>
      results[i].scoreBreakdown.finalScore >= results[j].scoreBreakdown.finalScore
  {
    var similarities := CollectSimilarities(request, norm);

    var keys := seq(|similarities|, k requires 0 <= k < |similarities| => similarities[k].1);
    assert keys == SimilarityKeys(request, norm);
    var sortedOrder := StableSortDescending(keys);
    order := sortedOrder;
    assert |sortedOrder| == |multiset(sortedOrder)| == |keys|;
    var ranked := seq(|sortedOrder|, k requires 0 <= k < |sortedOrder| => similarities[sortedOrder[k]]);

    results := NumberDisplayResults(ranked, request.limit);

    forall i | 0 <= i < |results|
      ensures !IsExcluded(results[i].product, request.excludeId) && HasEmbedding(results[i].product.embedding)
    {
      assert results[i].product in SimilarCandidates(request);
    }
    forall i, j | 0 <= i < j < |results|
      ensures results[i].scoreBreakdown.finalScore >= results[j].scoreBreakdown.finalScore
    {
      assert Before(keys, order[i], order[j]);
    }
  }
}
