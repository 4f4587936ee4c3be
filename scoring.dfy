/**
 * The per-item scores of the ranking formula (main.py `calculate_scores`):
 *
 *   final = alpha*semantic + beta*rating + gamma*price + delta*stock + epsilon*recency
 *
 * Scores are exact reals; the host rounds each reported score to four
 * decimals, which this model does not.
 */
module ScoreCalculator {
  import opened Domain
  import opened Sequences
  import opened VectorMath
  import opened TextMatcher
  import opened ExplanationGenerator

  /** Cosine similarity of an item to the query; an item without an embedding, or with an empty one, has 0.0. */
  function RawSimilarity(queryEmbedding: seq<real>, product: Product, norm: Norm): real {
    if HasEmbedding(product.embedding) then CosineSimilarity(queryEmbedding, product.embedding.value, norm) else 0.0
  }

  /** 0.15 per matched query term, at most 0.5 in all. */
  function KeywordBoost(matchCount: nat): (boost: real)
    ensures 0.0 <= boost <= 0.5
    ensures matchCount >= 4 <==> boost == 0.5
    ensures matchCount < 4 ==> boost == 0.15 * matchCount as real
  {
    var linear := matchCount as real * 0.15;
    if linear <= 0.5 then linear else 0.5
  }

  /** The similarity plus the keyword boost, capped at 1.0. */
  function SemanticScore(similarity: real, matchCount: nat): (score: real)
    ensures score <= 1.0
    ensures score <= similarity + KeywordBoost(matchCount)
    ensures score == 1.0 || score == similarity + KeywordBoost(matchCount)
  {
    var boosted := similarity + KeywordBoost(matchCount);
    if boosted <= 1.0 then boosted else 1.0
  }

  /** The rating over five, not clamped; an absent rating scores 0.0. */
  function RatingScore(rating: Option<real>): (score: real)
    ensures rating.None? ==> score == 0.0
    ensures rating.Some? ==> score * 5.0 == rating.value
  {
    (if IsTruthyNumber(rating) then rating.value else 0.0) / 5.0
  }

  /** `q` is `a` divided by `d`, stated without division: `q * d == a`. */
  predicate IsQuotient(q: real, a: real, d: real) {
    q * d == a
  }

  /** `(d - a) / d * d == d - a`, kept apart so the solver sees it with nothing else in scope. */
  lemma ComplementQuotient(a: real, d: real)
    requires d > 0.0
    ensures IsQuotient(1.0 - a / d, d - a, d)
  {
    var q := a / d;
    assert q * d == a;
  }

  /**
   * Min-max price normalisation over the candidate prices: the cheapest
   * candidate scores 1.0, the dearest 0.0. Without candidate prices, or for an
   * item whose price is absent or zero, the score is the neutral 0.5; when all
   * candidate prices are equal it is 1.0.
   */
  function PriceScore(price: Option<real>, allPrices: seq<real>): (score: real)
    ensures allPrices == [] || !IsTruthyNumber(price) ==> score == 0.5
    ensures allPrices != [] && IsTruthyNumber(price) && Max(allPrices) == Min(allPrices) ==> score == 1.0
    ensures allPrices != [] && IsTruthyNumber(price) && Max(allPrices) != Min(allPrices) ==>
      IsQuotient(score, Max(allPrices) - price.value, Max(allPrices) - Min(allPrices))
  {
    if allPrices != [] && IsTruthyNumber(price) then
      var maxPrice := Max(allPrices);
      var minPrice := Min(allPrices);
      var priceRange := maxPrice - minPrice;
      if priceRange > 0.0 then
        ComplementQuotient(price.value - minPrice, priceRange);
        1.0 - (price.value - minPrice) / priceRange
      else 1.0
    else 0.5
  }

  const StockTable: map<string, real> := map["in_stock" := 1.0, "low_stock" := 0.5, "out_of_stock" := 0.0]

  /** The availability tag looked up in the stock table; absent or empty counts as in stock, an unknown tag scores 0.5. */
  function StockScore(availability: Option<string>): (score: real)
    ensures !IsTruthyText(availability) ==> score == 1.0
    ensures availability == Some("in_stock") ==> score == 1.0
    ensures availability == Some("low_stock") ==> score == 0.5
    ensures availability == Some("out_of_stock") ==> score == 0.0
    ensures (IsTruthyText(availability) && availability.value != "in_stock" &&
             availability.value != "low_stock" && availability.value != "out_of_stock") ==> score == 0.5
  {
    var tag := if IsTruthyText(availability) then availability.value else "in_stock";
    if tag in StockTable then StockTable[tag] else 0.5
  }

  /** A placeholder in the source: every item has the same recency. */
  const RecencyScore: real := 0.5

  function WeightedSum(weights: Weights, semantic: real, rating: real, price: real, stock: real, recency: real): real {
    weights.alpha * semantic + weights.beta * rating + weights.gamma * price +
    weights.delta * stock + weights.epsilon * recency
  }

  /**
   * The full breakdown of one item, given its raw similarity to the query and
   * its matched terms.
   */
  function Breakdown(similarity: real, product: Product, weights: Weights, allPrices: seq<real>,
                     matchedTerms: seq<string>, formatRating: real -> string): (b: ScoreBreakdown)
    ensures b.matchedTerms == matchedTerms
    ensures b.semanticScore <= 1.0 && b.recencyScore == 0.5
    ensures b.finalScore ==
      WeightedSum(weights, b.semanticScore, b.ratingScore, b.priceScore, b.stockScore, b.recencyScore)
    ensures b.explanation == ExplanationText(product, b.priceScore, b.semanticScore, matchedTerms, formatRating)
  {
    var semantic := SemanticScore(similarity, |matchedTerms|);
    var rating := RatingScore(product.rating);
    var price := PriceScore(product.price, allPrices);
    var stock := StockScore(product.availability);
    ScoreBreakdown(semantic, rating, price, stock, RecencyScore,
                   WeightedSum(weights, semantic, rating, price, stock, RecencyScore),
                   matchedTerms, ExplanationText(product, price, semantic, matchedTerms, formatRating))
  }

  /** `b` is the breakdown of `product`: its terms are the matched terms in some order, its scores follow from them. */
  ghost predicate IsBreakdownOf(b: ScoreBreakdown, queryEmbedding: seq<real>, product: Product, weights: Weights,
                                allPrices: seq<real>, query: string, norm: Norm, formatRating: real -> string)
  {
    NoDuplicates(b.matchedTerms) &&
    (forall t :: t in b.matchedTerms <==> t in MatchedTermSet(query, product)) &&
    |b.matchedTerms| == |MatchedTermSet(query, product)| &&
    b == Breakdown(RawSimilarity(queryEmbedding, product, norm), product, weights, allPrices, b.matchedTerms, formatRating)
  }

  /** Scores one item: matches the query terms, computes the five components, the final score and the explanation. */
  method CalculateScores(queryEmbedding: seq<real>, product: Product, weights: Weights, allPrices: seq<real>,
                         query: string, norm: Norm, formatRating: real -> string)
    returns (b: ScoreBreakdown)
    ensures IsBreakdownOf(b, queryEmbedding, product, weights, allPrices, query, norm, formatRating)
  {
    var similarity := RawSimilarity(queryEmbedding, product, norm);
    var matchedTerms := ExtractMatchedTerms(query, product);
    var semantic := SemanticScore(similarity, |matchedTerms|);
    var rating := RatingScore(product.rating);
    var price := PriceScore(product.price, allPrices);
    var stock := StockScore(product.availability);
    var recency := RecencyScore;
    var final := WeightedSum(weights, semantic, rating, price, stock, recency);
    var explanation := GenerateExplanation(product, price, semantic, matchedTerms, formatRating);
    b := ScoreBreakdown(semantic, rating, price, stock, recency, final, matchedTerms, explanation);
    assert b == Breakdown(similarity, product, weights, allPrices, matchedTerms, formatRating);
  }

  /** Without an embedding the semantic score is the keyword boost alone. */
  lemma SemanticWithoutEmbedding(queryEmbedding: seq<real>, product: Product, norm: Norm, matchCount: nat)
    requires !HasEmbedding(product.embedding)
    ensures SemanticScore(RawSimilarity(queryEmbedding, product, norm), matchCount) == KeywordBoost(matchCount)
  {
  }

  /** More matched terms never lower the semantic score. */
  lemma SemanticScoreMonotone(similarity: real, fewer: nat, more: nat)
    requires fewer <= more
    ensures SemanticScore(similarity, fewer) <= SemanticScore(similarity, more)
  {
  }

  /** The cheapest candidate scores 1.0. */
  lemma CheapestScoresOne(price: real, allPrices: seq<real>)
    requires allPrices != [] && price != 0.0 && price == Min(allPrices)
    ensures PriceScore(Some(price), allPrices) == 1.0
  {
    var range := Max(allPrices) - Min(allPrices);
    if range != 0.0 {
      MultiplierOfSelf(PriceScore(Some(price), allPrices), range);
    }
  }

  lemma MultiplierOfSelf(s: real, d: real)
    requires d != 0.0 && IsQuotient(s, d, d)
    ensures s == 1.0
  {
    assert (s - 1.0) * d == 0.0;
  }

  /** With any spread of prices, the dearest candidate scores 0.0. */
  lemma DearestScoresZero(price: real, allPrices: seq<real>)
    requires allPrices != [] && price != 0.0 && price == Max(allPrices) && Max(allPrices) != Min(allPrices)
    ensures PriceScore(Some(price), allPrices) == 0.0
  {
    ZeroQuotient(PriceScore(Some(price), allPrices), Max(allPrices) - Min(allPrices));
  }

  lemma ZeroQuotient(q: real, d: real)
    requires d != 0.0 && IsQuotient(q, 0.0, d)
    ensures q == 0.0
  {
  }

  /** A price within the candidate bounds scores within [0, 1]. */
  lemma PriceScoreInUnitInterval(price: Option<real>, allPrices: seq<real>)
    requires allPrices != [] && IsTruthyNumber(price) ==> Min(allPrices) <= price.value <= Max(allPrices)
    ensures 0.0 <= PriceScore(price, allPrices) <= 1.0
  {
    if allPrices != [] && IsTruthyNumber(price) {
      var top, bottom := Max(allPrices), Min(allPrices);
      if top != bottom {
        UnitQuotient(top - price.value, top - bottom, PriceScore(price, allPrices));
      }
    }
  }

  lemma UnitQuotient(a: real, d: real, q: real)
    requires 0.0 <= a <= d && d > 0.0 && IsQuotient(q, a, d)
    ensures 0.0 <= q <= 1.0
  {
  }

  /** A dearer item never gets a better price score. */
  lemma PriceScoreAntitone(cheaper: real, dearer: real, allPrices: seq<real>)
    requires allPrices != [] && cheaper != 0.0 && dearer != 0.0 && cheaper <= dearer
    ensures PriceScore(Some(dearer), allPrices) <= PriceScore(Some(cheaper), allPrices)
  {
    if Max(allPrices) != Min(allPrices) {
      var top, bottom := Max(allPrices), Min(allPrices);
      ScaledOrder(PriceScore(Some(dearer), allPrices), PriceScore(Some(cheaper), allPrices),
                  top - bottom, top - dearer, top - cheaper);
    }
  }

  /** Quotients by the same positive divisor are ordered as their dividends. */
  lemma ScaledOrder(a: real, b: real, d: real, x: real, y: real)
    requires d > 0.0 && IsQuotient(a, x, d) && IsQuotient(b, y, d) && x <= y
    ensures a <= b
  {
    ScaleCancel(a, b, d);
  }

  lemma ScaleCancel(a: real, b: real, d: real)
    requires d > 0.0 && a * d <= b * d
    ensures a <= b
  {
  }

  /** Adding a weighted component in [0, 1] to a partial sum in [0, bound]. */
  lemma AddWeightedComponent(partial: real, bound: real, w: real, s: real)
    requires 0.0 <= partial <= bound && w >= 0.0 && 0.0 <= s <= 1.0
    ensures 0.0 <= partial + w * s <= bound + w
  {
    var term := w * s;
    assert 0.0 <= term <= w;
  }

  /** With non-negative weights and components in [0, 1], the final score lies between 0 and the sum of the weights. */
  lemma FinalScoreBounds(weights: Weights, semantic: real, rating: real, price: real, stock: real, recency: real)
    requires weights.alpha >= 0.0 && weights.beta >= 0.0 && weights.gamma >= 0.0
    requires weights.delta >= 0.0 && weights.epsilon >= 0.0
    requires 0.0 <= semantic <= 1.0 && 0.0 <= rating <= 1.0 && 0.0 <= price <= 1.0
    requires 0.0 <= stock <= 1.0 && 0.0 <= recency <= 1.0
    ensures 0.0 <= WeightedSum(weights, semantic, rating, price, stock, recency)
    ensures WeightedSum(weights, semantic, rating, price, stock, recency) <=
            weights.alpha + weights.beta + weights.gamma + weights.delta + weights.epsilon
  {
    var w := weights;
    AddWeightedComponent(0.0, 0.0, w.alpha, semantic);
    var partial := w.alpha * semantic;
    AddWeightedComponent(partial, w.alpha, w.beta, rating);
    partial := partial + w.beta * rating;
    AddWeightedComponent(partial, w.alpha + w.beta, w.gamma, price);
    partial := partial + w.gamma * price;
    AddWeightedComponent(partial, w.alpha + w.beta + w.gamma, w.delta, stock);
    partial := partial + w.delta * stock;
    AddWeightedComponent(partial, w.alpha + w.beta + w.gamma + w.delta, w.epsilon, recency);
  }

  /** A higher semantic score never lowers the final score when alpha is non-negative. */
  lemma FinalScoreMonotoneInSemantic(weights: Weights, lower: real, higher: real,
                                     rating: real, price: real, stock: real, recency: real)
    requires weights.alpha >= 0.0 && lower <= higher
    ensures WeightedSum(weights, lower, rating, price, stock, recency) <=
            WeightedSum(weights, higher, rating, price, stock, recency)
  {
    assert weights.alpha * (higher - lower) >= 0.0;
  }
}
