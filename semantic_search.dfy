/**
 * The ranking body of the search endpoint (main.py `semantic_search`):
 * filter the request's items, collect the candidate prices, score every
 * candidate, sort by final score (highest first, stable), keep the first
 * `limit` and number them from 1.
 *
 * The query embedding is an input: producing it is the sentence model's
 * job, outside this model.
 */
module SemanticSearch {
  import opened Domain
  import opened Sequences
  import opened VectorMath
  import opened TextMatcher
  import opened ScoreCalculator
  import opened CandidateFilter
  import opened Ranker

  /**
   * The final score of a candidate. The matched terms come out of a set in
   * an unspecified order, but the score depends only on how many there are,
   * so it is determined by the request.
   */
  function FinalScoreOf(request: SearchRequest, queryEmbedding: seq<real>, norm: Norm,
                        allPrices: seq<real>, product: Product): real
  {
    var semantic := SemanticScore(RawSimilarity(queryEmbedding, product, norm),
                                  |MatchedTermSet(request.query, product)|);
    WeightedSum(EffectiveWeights(request.weights), semantic, RatingScore(product.rating),
                PriceScore(product.price, allPrices), StockScore(product.availability), RecencyScore)
  }

  /** The sort keys of the candidates, in candidate order. */
  function SearchKeys(request: SearchRequest, queryEmbedding: seq<real>, norm: Norm): (keys: seq<real>)
    ensures |keys| == |Candidates(request)|
  {
    var candidates := Candidates(request);
    var prices := CandidatePrices(candidates);
    seq(|candidates|, i requires 0 <= i < |candidates| => FinalScoreOf(request, queryEmbedding, norm, prices, candidates[i]))
  }

  /** Whatever order its terms came in, a breakdown's final score is `FinalScoreOf`. */
  lemma BreakdownFinalScore(b: ScoreBreakdown, request: SearchRequest, queryEmbedding: seq<real>, norm: Norm,
                            allPrices: seq<real>, product: Product, formatRating: real -> string)
    requires IsBreakdownOf(b, queryEmbedding, product, EffectiveWeights(request.weights), allPrices,
                           request.query, norm, formatRating)
    ensures b.finalScore == FinalScoreOf(request, queryEmbedding, norm, allPrices, product)
  {
    var weights := EffectiveWeights(request.weights);
    var similarity := RawSimilarity(queryEmbedding, product, norm);
    assert b == Breakdown(similarity, product, weights, allPrices, b.matchedTerms, formatRating);
  }

  /** The final scores of scored items, in order. */
  function FinalScores(scored: seq<(Product, ScoreBreakdown)>): (keys: seq<real>)
    ensures |keys| == |scored|
    ensures forall k :: 0 <= k < |scored| ==> keys[k] == scored[k].1.finalScore
  {
    seq(|scored|, k requires 0 <= k < |scored| => scored[k].1.finalScore)
  }

  /** Scoring the candidates one by one yields exactly the search keys. */
  lemma ScoredKeysAreSearchKeys(request: SearchRequest, queryEmbedding: seq<real>, norm: Norm,
                                formatRating: real -> string, scored: seq<(Product, ScoreBreakdown)>)
    requires |scored| == |Candidates(request)|
    requires forall k :: 0 <= k < |scored| ==>
      IsBreakdownOf(scored[k].1, queryEmbedding, Candidates(request)[k], EffectiveWeights(request.weights),
                    CandidatePrices(Candidates(request)), request.query, norm, formatRating)
    ensures FinalScores(scored) == SearchKeys(request, queryEmbedding, norm)
  {
    var candidates := Candidates(request);
    var prices := CandidatePrices(candidates);
    forall k | 0 <= k < |scored|
      ensures FinalScores(scored)[k] == SearchKeys(request, queryEmbedding, norm)[k]
    {
      BreakdownFinalScore(scored[k].1, request, queryEmbedding, norm, prices, candidates[k], formatRating);
    }
  }

  /** Scores every candidate, in candidate order. */
  method ScoreCandidates(candidates: seq<Product>, queryEmbedding: seq<real>, weights: Weights, allPrices: seq<real>,
                         query: string, norm: Norm, formatRating: real -> string)
    returns (scored: seq<(Product, ScoreBreakdown)>)
    ensures |scored| == |candidates|
    ensures forall k :: 0 <= k < |scored| ==> scored[k].0 == candidates[k]
    ensures forall k :: 0 <= k < |scored| ==>
      IsBreakdownOf(scored[k].1, queryEmbedding, candidates[k], weights, allPrices, query, norm, formatRating)
  {
    scored := [];
    for i := 0 to |candidates|
      invariant |scored| == i
      invariant forall k :: 0 <= k < i ==>
        scored[k].0 == candidates[k] &&
        IsBreakdownOf(scored[k].1, queryEmbedding, candidates[k], weights, allPrices, query, norm, formatRating)
    {
      var breakdown := CalculateScores(queryEmbedding, candidates[i], weights, allPrices, query, norm, formatRating);
      ghost var before := scored;
      scored := scored + [(candidates[i], breakdown)];
      assert scored[..i] == before;
    }
  }

  /** `enumerate(ranked[:limit], 1)`: the first `limit` entries, numbered from 1. */
  method NumberResults(ranked: seq<(Product, ScoreBreakdown)>, limit: int) returns (results: seq<SearchResult>)
    ensures |results| == SliceCount(|ranked|, limit)
    ensures forall k :: 0 <= k < |results| ==> results[k] == SearchResult(ranked[k].0, ranked[k].1, k + 1)
  {
    var count := SliceCount(|ranked|, limit);
    results := [];
    for rank := 0 to count
      invariant |results| == rank
      invariant forall k :: 0 <= k < rank ==> results[k] == SearchResult(ranked[k].0, ranked[k].1, k + 1)
    {
      results := results + [SearchResult(ranked[rank].0, ranked[rank].1, rank + 1)];
    }
  }

  /** Applies the active filters, in the source's order: category, minimum price, maximum price. */
  method FilterCandidates(request: SearchRequest) returns (filtered: seq<Product>)
    ensures filtered == Candidates(request)
  {
    filtered := request.products;
    if IsTruthyText(request.category) {
      filtered := Filter(filtered, p => MatchesCategory(p, request.category.value));
    }
    if request.minPrice.Some? {
      filtered := Filter(filtered, p => PriceAtLeast(p, request.minPrice.value));
    }
    if request.maxPrice.Some? {
      filtered := Filter(filtered, p => PriceAtMost(p, request.maxPrice.value));
    }
  }

  /**
   * Sorts scored items by final score, highest first and stable, keeps the
   * first `limit` and numbers them from 1; `order` is the sorted order, as positions.
   */
  method RankByFinalScore(scored: seq<(Product, ScoreBreakdown)>, limit: int)
    returns (results: seq<SearchResult>, ghost order: seq<nat>)
    ensures |order| == |scored|
    ensures InRange(FinalScores(scored), order)
    ensures multiset(order) == multiset(Indices(|scored|))
    ensures StablyDescending(FinalScores(scored), order)
    ensures |results| == SliceCount(|scored|, limit)
    ensures forall i :: 0 <= i < |results| ==>
      results[i] == SearchResult(scored[order[i]].0, scored[order[i]].1, i + 1)
    ensures forall i, j :: 0 <= i < j < |results| ==>
      results[i].scoreBreakdown.finalScore >= results[j].scoreBreakdown.finalScore
  {
    var keys := FinalScores(scored);
    var sortedOrder := StableSortDescending(keys);
    order := sortedOrder;
    assert |sortedOrder| == |multiset(sortedOrder)| == |keys|;
    var ranked := seq(|sortedOrder|, k requires 0 <= k < |sortedOrder| => scored[sortedOrder[k]]);

    results := NumberResults(ranked, limit);

    forall i, j | 0 <= i < j < |results|
      ensures results[i].scoreBreakdown.finalScore >= results[j].scoreBreakdown.finalScore
    {
      assert Before(keys, order[i], order[j]);
    }
  }

  /** Ranks the candidates of a search; `order` is the sorted order of the candidates, as positions. */
  method SemanticSearch(request: SearchRequest, queryEmbedding: seq<real>, norm: Norm, formatRating: real -> string)
    returns (results: seq<SearchResult>, ghost order: seq<nat>)
    ensures |order| == |Candidates(request)|
    ensures InRange(SearchKeys(request, queryEmbedding, norm), order)
    ensures multiset(order) == multiset(Indices(|Candidates(request)|))
    ensures StablyDescending(SearchKeys(request, queryEmbedding, norm), order)
    ensures |results| == SliceCount(|Candidates(request)|, request.limit)
    ensures forall i :: 0 <= i < |results| ==>
      results[i].rank == i + 1 &&
      results[i].product == Candidates(request)[order[i]] &&
      IsBreakdownOf(results[i].scoreBreakdown, queryEmbedding, results[i].product,
                    EffectiveWeights(request.weights), CandidatePrices(Candidates(request)),
                    request.query, norm, formatRating)
    ensures forall i, j :: 0 <= i < j < |results| ==>
      results[i].scoreBreakdown.finalScore >= results[j].scoreBreakdown.finalScore
  {
    var weights := EffectiveWeights(request.weights);
    var filtered := FilterCandidates(request);
    var allPrices := CandidatePrices(filtered);
    var scored := ScoreCandidates(filtered, queryEmbedding, weights, allPrices, request.query, norm, formatRating);
    ScoredKeysAreSearchKeys(request, queryEmbedding, norm, formatRating, scored);
    results, order := RankByFinalScore(scored, request.limit);
  }

  /** Every candidate's price lies within the candidate price bounds, so its price score lies in [0, 1]. */
  lemma CandidatePriceScoreInUnitInterval(request: SearchRequest, product: Product)
    requires product in Candidates(request)
    ensures 0.0 <= PriceScore(product.price, CandidatePrices(Candidates(request))) <= 1.0
  {
    var prices := CandidatePrices(Candidates(request));
    if prices != [] && IsTruthyNumber(product.price) {
      assert product.price.value in prices;
    }
    PriceScoreInUnitInterval(product.price, prices);
  }

  /**
   * A candidate's final score lies between 0 and the sum of the weights when
   * the weights are non-negative, its raw similarity is non-negative and its
   * rating lies in [0, 5]: stock, recency and a candidate's price score
   * always lie in [0, 1], the other two components then do too.
   */
  lemma CandidateFinalScoreBounds(request: SearchRequest, queryEmbedding: seq<real>, norm: Norm, product: Product)
    requires product in Candidates(request)
    requires var w := EffectiveWeights(request.weights);
             w.alpha >= 0.0 && w.beta >= 0.0 && w.gamma >= 0.0 && w.delta >= 0.0 && w.epsilon >= 0.0
    requires RawSimilarity(queryEmbedding, product, norm) >= 0.0
    requires product.rating.Some? ==> 0.0 <= product.rating.value <= 5.0
    ensures var w := EffectiveWeights(request.weights);
            0.0 <= FinalScoreOf(request, queryEmbedding, norm, CandidatePrices(Candidates(request)), product) <=
            w.alpha + w.beta + w.gamma + w.delta + w.epsilon
  {
    var prices := CandidatePrices(Candidates(request));
    CandidatePriceScoreInUnitInterval(request, product);
    var semantic := SemanticScore(RawSimilarity(queryEmbedding, product, norm),
                                  |MatchedTermSet(request.query, product)|);
    var stock := StockScore(product.availability);
    assert stock == 0.0 || stock == 0.5 || stock == 1.0;
    FinalScoreBounds(EffectiveWeights(request.weights), semantic, RatingScore(product.rating),
                     PriceScore(product.price, prices), stock, RecencyScore);
  }

  /** A term whose first character does not occur in a text does not occur in it. */
  lemma FirstCharAbsent(t: string, s: string)
    requires t != [] && t[0] !in s
    ensures !IsSubstring(t, s)
  {
    forall i: nat | i + |t| <= |s|
      ensures !OccursAt(t, s, i)
    {
      assert s[i..i + |t|][0] == s[i];
    }
    IsSubstringIff(t, s);
  }

  // A worked example: the query "red shoes" against a red running shoe
  // (price 50, rating 4.8, in stock, raw similarity 0.9) and a blue jacket
  // (price 30, rating 4.0, low stock, raw similarity 0.3), default weights.

  const ExampleQuery := "red shoes"
  const ExampleShoe := Product(1, "Red Running Shoes", None, None, Some(50.0), Some(4.8), None,
                               Some("in_stock"), None, Some([1.0, 0.0]), None)
  const ExampleJacket := Product(2, "Blue Jacket", None, None, Some(30.0), Some(4.0), None,
                                 Some("low_stock"), None, Some([0.0, 1.0]), None)
  const ExampleRequest := SearchRequest(ExampleQuery, [ExampleShoe, ExampleJacket], None, 20, None, None, None)

  lemma ExampleQueryTerms()
    ensures QueryTerms(ExampleQuery) == {"red", "shoes"}
  {
    assert ExampleQuery == "red" + " " + "shoes";
    LowerConcat("red" + " ", "shoes");
    LowerConcat("red", " ");
    assert Lower("red") == "red" && Lower(" ") == " " && Lower("shoes") == "shoes";
    TokensOfJoin(["red", "shoes"]);
    assert Join(["red", "shoes"], " ") == ExampleQuery;
  }

  lemma ExampleShoeText()
    ensures ProductText(ExampleShoe) == "red running " + "shoes" + "  "
  {
    assert ExampleShoe.title + " " + OrEmpty(ExampleShoe.description) + " " + OrEmpty(ExampleShoe.category)
        == "Red Running " + "Shoes" + "  ";
    LowerConcat("Red Running " + "Shoes", "  ");
    LowerConcat("Red Running ", "Shoes");
    assert Lower("Shoes") == "shoes";
    assert Lower("  ") == "  ";
    LowerConcat("Red ", "Running ");
    assert Lower("Red ") == "red ";
    assert Lower("Running ") == "running ";
  }

  /** The shoe matches both query terms. */
  lemma ExampleShoeMatches()
    ensures MatchedTermSet(ExampleQuery, ExampleShoe) == {"red", "shoes"}
  {
    ExampleQueryTerms();
    ExampleShoeText();
    var text := ProductText(ExampleShoe);
    var prefix, suffix := "red running ", "  ";
    assert "red" <= text;
    assert text[|prefix|..|prefix| + 5] == "shoes";
    assert OccursAt("shoes", text, |prefix|);
    IsSubstringIff("shoes", text);
  }

  lemma ExampleJacketText()
    ensures ProductText(ExampleJacket) == "blue " + "jacket" + "  "
  {
    assert ExampleJacket.title + " " + OrEmpty(ExampleJacket.description) + " " + OrEmpty(ExampleJacket.category)
        == "Blue " + "Jacket" + "  ";
    LowerConcat("Blue " + "Jacket", "  ");
    LowerConcat("Blue ", "Jacket");
    assert Lower("Blue ") == "blue ";
    assert Lower("Jacket") == "jacket";
    assert Lower("  ") == "  ";
  }

  lemma ExampleJacketLacksTerms()
    ensures !IsSubstring("red", ProductText(ExampleJacket)) && !IsSubstring("shoes", ProductText(ExampleJacket))
  {
    ExampleJacketText();
    var blue, jacket, spaces := "blue ", "jacket", "  ";
    assert 'r' !in blue && 'r' !in jacket && 'r' !in spaces;
    assert 's' !in blue && 's' !in jacket && 's' !in spaces;
    FirstCharAbsent("red", blue + jacket + spaces);
    FirstCharAbsent("shoes", blue + jacket + spaces);
  }

  /** The jacket matches neither query term. */
  lemma ExampleJacketMatches()
    ensures MatchedTermSet(ExampleQuery, ExampleJacket) == {}
  {
    ExampleQueryTerms();
    ExampleJacketLacksTerms();
  }

  /** The candidate prices of the two items, in request order. */
  lemma ExamplePrices()
    ensures CandidatePrices([ExampleShoe, ExampleJacket]) == [50.0, 30.0]
  {
    assert [ExampleShoe, ExampleJacket][1..] == [ExampleJacket];
    assert [ExampleJacket][1..] == [];
    assert CandidatePrices([ExampleJacket]) == [30.0];
  }

  /**
   * With those matches, the shoe (the dearest item, in stock) scores 0.817
   * and the jacket (the cheapest, low stock) 0.535.
   */
  lemma ExampleScores(formatRating: real -> string)
    ensures var prices := CandidatePrices([ExampleShoe, ExampleJacket]);
            Breakdown(0.9, ExampleShoe, DefaultWeights, prices, ["red", "shoes"], formatRating).finalScore == 0.817 &&
            Breakdown(0.3, ExampleJacket, DefaultWeights, prices, [], formatRating).finalScore == 0.535
  {
    ExamplePrices();
    ExamplePriceScores();
  }

  /** No filter is set, so both items are candidates. */
  lemma ExampleCandidates()
    ensures Candidates(ExampleRequest) == [ExampleShoe, ExampleJacket]
  {
    CandidatesSpec(ExampleRequest);
  }

  /** The shoe is the dearest item and scores 0 on price; the jacket, the cheapest, scores 1. */
  lemma ExamplePriceScores()
    ensures PriceScore(ExampleShoe.price, [50.0, 30.0]) == 0.0
    ensures PriceScore(ExampleJacket.price, [50.0, 30.0]) == 1.0
  {
    assert Max([50.0, 30.0]) == 50.0 && Min([50.0, 30.0]) == 30.0;
  }

  /** Two matched terms lift the shoe's raw similarity 0.9 to the cap of 1.0. */
  lemma ExampleShoeSemantic()
    ensures SemanticScore(0.9, |MatchedTermSet(ExampleQuery, ExampleShoe)|) == 1.0
  {
    ExampleShoeMatches();
    assert |{"red", "shoes"}| == 2;
  }

  /** The shoe's key: semantic 1.0 (0.9 plus two matched terms), rating 0.96, price 0, in stock. */
  lemma ExampleShoeKey(queryEmbedding: seq<real>, norm: Norm)
    requires RawSimilarity(queryEmbedding, ExampleShoe, norm) == 0.9
    ensures FinalScoreOf(ExampleRequest, queryEmbedding, norm, [50.0, 30.0], ExampleShoe) == 0.817
  {
    ExampleShoeSemantic();
    ExamplePriceScores();
    assert RatingScore(ExampleShoe.rating) == 0.96;
    assert StockScore(ExampleShoe.availability) == 1.0;
    assert WeightedSum(DefaultWeights, 1.0, 0.96, 0.0, 1.0, RecencyScore) == 0.817;
  }

  /** The jacket's key: semantic 0.3, rating 0.8, price 1, low stock. */
  lemma ExampleJacketKey(queryEmbedding: seq<real>, norm: Norm)
    requires RawSimilarity(queryEmbedding, ExampleJacket, norm) == 0.3
    ensures FinalScoreOf(ExampleRequest, queryEmbedding, norm, [50.0, 30.0], ExampleJacket) == 0.535
  {
    ExampleJacketMatches();
    ExamplePriceScores();
    assert SemanticScore(0.3, 0) == 0.3;
    assert RatingScore(ExampleJacket.rating) == 0.8;
    assert StockScore(ExampleJacket.availability) == 0.5;
    assert WeightedSum(DefaultWeights, 0.3, 0.8, 1.0, 0.5, RecencyScore) == 0.535;
  }

  /**
   * Searching the two items with default weights and no filters, under any
   * query embedding and norm that give them raw similarities 0.9 and 0.3,
   * sorts on the keys 0.817 and 0.535.
   */
  lemma ExampleKeys(queryEmbedding: seq<real>, norm: Norm)
    requires RawSimilarity(queryEmbedding, ExampleShoe, norm) == 0.9
    requires RawSimilarity(queryEmbedding, ExampleJacket, norm) == 0.3
    ensures SearchKeys(ExampleRequest, queryEmbedding, norm) == [0.817, 0.535]
  {
    ExampleCandidates();
    ExamplePrices();
    ExampleShoeKey(queryEmbedding, norm);
    ExampleJacketKey(queryEmbedding, norm);
  }

  /** The only stable descending order of the keys [0.817, 0.535] is [0, 1]. */
  lemma ExampleOrder(order: seq<nat>)
    requires InRange([0.817, 0.535], order)
    requires multiset(order) == multiset([0, 1])
    requires StablyDescending([0.817, 0.535], order)
    ensures order == [0, 1]
  {
    assert StablyDescending([0.817, 0.535], [0, 1]);
    StableOrderUnique([0.817, 0.535], order, [0, 1]);
  }

  /**
   * The order the search returns for that request (any stable descending
   * order of the candidates) is the shoe, then the jacket.
   */
  lemma ExampleRanking(queryEmbedding: seq<real>, norm: Norm, order: seq<nat>)
    requires RawSimilarity(queryEmbedding, ExampleShoe, norm) == 0.9
    requires RawSimilarity(queryEmbedding, ExampleJacket, norm) == 0.3
    requires InRange(SearchKeys(ExampleRequest, queryEmbedding, norm), order)
    requires multiset(order) == multiset(Indices(|Candidates(ExampleRequest)|))
    requires StablyDescending(SearchKeys(ExampleRequest, queryEmbedding, norm), order)
    ensures order == [0, 1]
    ensures Candidates(ExampleRequest)[order[0]] == ExampleShoe
  {
    ExampleKeys(queryEmbedding, norm);
    ExampleCandidates();
    assert Indices(2) == [0, 1];
    ExampleOrder(order);
  }
}
