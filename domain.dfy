/**
 * The data model of the SmartCart ranking engine: products, ranking weights,
 * score breakdowns, search results and the two request shapes.
 *
 * Optional fields of the source's records are `Option`s. The engine tests
 * several of them with the host language's truthiness, where `None`, the
 * number zero, the empty string and the empty list are all false; the
 * predicates at the end of this module name those tests.
 */
module Domain {

  datatype Option<+T> = None | Some(value: T)

  /** A product, as supplied fresh with each request; the engine never changes one. */
  datatype Product = Product(
    id: int,
    title: string,
    description: Option<string>,
    category: Option<string>,
    price: Option<real>,
    rating: Option<real>,
    reviewCount: Option<int>,
    availability: Option<string>,
    stockQuantity: Option<int>,
    embedding: Option<seq<real>>,
    createdAt: Option<string>)

  /** The five coefficients of the ranking formula. */
  datatype Weights = Weights(alpha: real, beta: real, gamma: real, delta: real, epsilon: real)

  /** The weights used when a search request carries none. */
  const DefaultWeights := Weights(0.5, 0.2, 0.15, 0.1, 0.05)

  /** The five component scores, the weighted final score, the matched query terms and the explanation. */
  datatype ScoreBreakdown = ScoreBreakdown(
    semanticScore: real,
    ratingScore: real,
    priceScore: real,
    stockScore: real,
    recencyScore: real,
    finalScore: real,
    matchedTerms: seq<string>,
    explanation: string)

  /** One entry of a ranked list; `rank` is 1-based and positional. */
  datatype SearchResult = SearchResult(product: Product, scoreBreakdown: ScoreBreakdown, rank: int)

  datatype SearchRequest = SearchRequest(
    query: string,
    products: seq<Product>,
    weights: Option<Weights>,
    limit: int,
    minPrice: Option<real>,
    maxPrice: Option<real>,
    category: Option<string>)

  datatype SimilarProductsRequest = SimilarProductsRequest(
    productEmbedding: seq<real>,
    products: seq<Product>,
    excludeId: Option<int>,
    limit: int)

  /** Truthiness of an optional number: absent and zero are false. */
  predicate IsTruthyNumber(x: Option<real>) {
    x.Some? && x.value != 0.0
  }

  /** Truthiness of an optional string: absent and empty are false. */
  predicate IsTruthyText(x: Option<string>) {
    x.Some? && x.value != ""
  }

  /** Truthiness of an optional embedding: absent and empty are false. */
  predicate HasEmbedding(x: Option<seq<real>>) {
    x.Some? && x.value != []
  }

  /** Truthiness of an optional id: absent and zero are false. */
  predicate IsTruthyId(x: Option<int>) {
    x.Some? && x.value != 0
  }

  /** `request.weights or RankingWeights()`. */
  function EffectiveWeights(weights: Option<Weights>): Weights {
    if weights.Some? then weights.value else DefaultWeights
  }
}
