# SmartCart explainable ranking engine, in Dafny

This project models the ranking core of the SmartCart AI service
(`ai-service/main.py`). It covers these steps:

- **Cosine similarity** between two embeddings, with its two guards: a shape mismatch gives 0.0, and so does a zero norm.
- **Keyword matching** of the lowercased query's whitespace tokens against an item's "title description category" text.
- **Per-item scoring**: a semantic score (similarity plus a keyword boost of 0.15 per matched term, capped at 0.5, the sum capped at 1.0), a rating score (rating / 5), a min-max normalised price score, a stock score from a lookup table, and a constant recency score. The final score is the weighted sum of the five.
- **Explanation**: built clause by clause, at most one clause per group (matches, rating, price, stock, semantic). The clauses are joined with " • ", or the text is "Relevant to your search" when no clause applies.
- **Search**: filter by category, then minimum price, then maximum price. Collect the candidate prices and score every candidate. Sort by final score (highest first, stable), keep the first `limit` and number them from 1.
- **Similar items**: skip the excluded id and items without an embedding. Sort by similarity (highest first, stable), keep the first `limit`, and attach a display-only breakdown whose final score is the similarity.

The host language's truthiness is modelled explicitly (`Domain.IsTruthyNumber`, `IsTruthyText`, `HasEmbedding`, `IsTruthyId`):

- a price of 0 counts as no price: it scores the neutral 0.5 and never passes a price filter;
- an empty embedding counts as none;
- an exclude id of 0 excludes nothing;
- in the stock score only, an absent or empty availability counts as "in_stock" (1.0); the "In stock" explanation clause and the similar-items stock score treat it as not in stock.

Files, one module each:

| file | module | models |
|---|---|---|
| `domain.dfy` | `Domain` | the records: product, weights, breakdown, result, the two requests |
| `sequences.dfy` | `Sequences` | list comprehension filters, `max`/`min`, `join`, slicing bounds |
| `vector_math.dfy` | `VectorMath` | `cosine_similarity` |
| `text_matcher.dfy` | `TextMatcher` | `extract_matched_terms` (`lower`, `split`, `in`) |
| `explanation.dfy` | `ExplanationGenerator` | `generate_explanation` |
| `scoring.dfy` | `ScoreCalculator` | `calculate_scores` |
| `candidate_filter.dfy` | `CandidateFilter` | the filter steps and price list of `semantic_search` |
| `ranker.dfy` | `Ranker` | the stable descending sort (`list.sort(key=..., reverse=True)`) |
| `semantic_search.dfy` | `SemanticSearch` | the ranking body of `semantic_search`, and the worked example |
| `similarity_finder.dfy` | `SimilarityFinder` | the ranking body of `find_similar_products` |

The sort works on positions. `StableSortDescending` is an insertion sort proved to return a permutation of `0 .. n-1` along which keys never increase and equal keys keep their input order. `StableOrderUnique` shows that only one such order exists. The two pipeline methods return that order as a ghost out-parameter and state their results through it.

## Model

| member | source | states |
|---|---|---|
| `VectorMath.CosineSimilarity` | ai-service/main.py:150-162 | 0.0 when the lengths differ; 0.0 when either norm is zero; otherwise the result times the product of the norms is the dot product |
| `VectorMath.SimilaritySymmetric` | ai-service/main.py:150-162 | the similarity of a and b equals that of b and a, for any norm |
| `VectorMath.ZeroVectorSimilarity` | ai-service/main.py:159-160 | for a genuine norm (zero exactly on the zero vector), an all-zero vector has similarity 0.0 to anything, in both argument orders |
| `TextMatcher.Lower` | ai-service/main.py:167-168 | lowercasing keeps the length and maps each character on its own (ASCII letters only) |
| `TextMatcher.Tokens` | ai-service/main.py:167 | `split()` yields only non-empty tokens free of whitespace |
| `TextMatcher.TokensSplitAtSpace` | ai-service/main.py:167 | a whitespace character splits the text: the tokens of the text are those before it followed by those after it |
| `TextMatcher.TokensOfWord` | ai-service/main.py:167 | a single non-empty run of non-whitespace characters is exactly one token; with the empty text giving no tokens, this and the split lemma fix `split()` on every text |
| `TextMatcher.TokensOfJoin` | ai-service/main.py:167 | splitting words joined by single spaces gives back exactly those words, in order |
| `TextMatcher.IsSubstringIff` | ai-service/main.py:172 | `term in text` holds exactly when the term occurs at some position of the text |
| `TextMatcher.ExtractMatchedTerms` | ai-service/main.py:165-175 | no term twice; a term is returned exactly when it is a query token longer than two characters that occurs in the item text; as many terms as the matched set has members |
| `ExplanationGenerator.ClauseText` | ai-service/main.py:186-212 | every clause text is non-empty and none begins like the fallback sentence |
| `ExplanationGenerator.AddMatchClause` | ai-service/main.py:186-188 | appends "Matches: ..." exactly when some term matched; the parts stay the texts of the clauses so far |
| `ExplanationGenerator.AddRatingClause` | ai-service/main.py:190-194 | appends "Highly rated" for a non-zero rating of 4.5 or more, else "Well rated" from 4.0, else nothing |
| `ExplanationGenerator.AddPriceClause` | ai-service/main.py:196-200 | appends "Great value" above 0.7, else "Good price" above 0.5, else nothing |
| `ExplanationGenerator.AddStockClause` | ai-service/main.py:202-206 | appends "In stock" or "Limited stock" for those two tags only |
| `ExplanationGenerator.AddSemanticClause` | ai-service/main.py:208-212 | appends "Strong semantic match" above 0.8, else "Good semantic match" above 0.6, else nothing |
| `ExplanationGenerator.GenerateExplanation` | ai-service/main.py:178-214 | the text is the rendering of the clause list: the clause texts joined by " • ", or the fallback sentence when no clause fires |
| `ExplanationGenerator.ClausesFire` | ai-service/main.py:184-212 | a clause is in the explanation exactly when its condition holds, with each lower threshold applying only below the higher one |
| `ExplanationGenerator.ClausesInGroupOrder` | ai-service/main.py:184-212 | clauses appear in group order, so no group contributes two clauses |
| `ExplanationGenerator.FallbackIffNoClause` | ai-service/main.py:214 | the explanation is the fallback sentence exactly when no clause fires |
| `ScoreCalculator.KeywordBoost` | ai-service/main.py:234-235 | the boost lies in [0, 0.5]; it is 0.15 per term below four terms and saturates at 0.5 exactly from four terms |
| `ScoreCalculator.SemanticScore` | ai-service/main.py:236 | never above 1.0 or above similarity plus boost, and equal to one of them |
| `ScoreCalculator.RatingScore` | ai-service/main.py:239 | an absent rating scores 0.0; otherwise five times the score is the rating |
| `ScoreCalculator.PriceScore` | ai-service/main.py:241-251 | 0.5 without candidate prices or without a truthy price; 1.0 when all candidate prices are equal; otherwise score × (max − min) = max − price |
| `ScoreCalculator.StockScore` | ai-service/main.py:253-255 | in_stock 1.0, low_stock 0.5, out_of_stock 0.0, an absent or empty tag 1.0, any other tag 0.5 |
| `ScoreCalculator.Breakdown` | ai-service/main.py:261-277 | the final score is the weighted sum of the five components; semantic ≤ 1; recency 0.5; the explanation is the one generated from the unrounded price and semantic scores |
| `ScoreCalculator.CalculateScores` | ai-service/main.py:217-288 | the result is the breakdown of the item: its terms are the matched set without duplicates, and its scores follow from them |
| `ScoreCalculator.SemanticWithoutEmbedding` | ai-service/main.py:227-236 | an item without an embedding has the keyword boost alone as its semantic score |
| `ScoreCalculator.SemanticScoreMonotone` | ai-service/main.py:234-236 | more matched terms never lower the semantic score |
| `ScoreCalculator.CheapestScoresOne` | ai-service/main.py:242-249 | the cheapest candidate scores 1.0 |
| `ScoreCalculator.DearestScoresZero` | ai-service/main.py:242-247 | with a spread of prices, the dearest candidate scores 0.0 |
| `ScoreCalculator.PriceScoreInUnitInterval` | ai-service/main.py:242-251 | a price within the candidate bounds scores within [0, 1] |
| `ScoreCalculator.PriceScoreAntitone` | ai-service/main.py:241-251 | a dearer item never gets a higher price score |
| `ScoreCalculator.FinalScoreBounds` | ai-service/main.py:261-267 | with non-negative weights and components in [0, 1], the final score lies between 0 and the sum of the weights; the stock and recency scores always lie in [0, 1], a candidate's price score does too (`CandidatePriceScoreInUnitInterval`), while a rating above 5 or a negative similarity can leave the interval |
| `ScoreCalculator.FinalScoreMonotoneInSemantic` | ai-service/main.py:261-267 | with a non-negative alpha, a higher semantic score never lowers the final score |
| `CandidateFilter.CandidatesAreOneFilter` | ai-service/main.py:370-388 | the three filters in sequence select the same items, in the same order, as one filter by "passes every active filter" |
| `CandidateFilter.CandidatesSpec` | ai-service/main.py:370-388 | the candidates are an order-preserving selection; an item is a candidate exactly when it passes every active filter; with no active filter nothing is removed |
| `CandidateFilter.CandidatesSatisfyActiveFilters` | ai-service/main.py:372-388 | each candidate's category contains the requested one (ignoring case), and its price is non-zero and within each bound that is set |
| `CandidateFilter.CandidatePrices` | ai-service/main.py:391 | every listed price is non-zero and belongs to a candidate, and every truthy candidate price is listed |
| `Sequences.SliceCount` | ai-service/main.py:406 | `xs[:limit]` keeps a prefix of at most n items: position i is kept exactly when it lies before the stop index, a negative limit counting back from the end |
| `Ranker.StableSortDescending` | ai-service/main.py:402 | the order is a permutation of the positions along which keys never increase and equal keys keep their input order |
| `Ranker.StablyDescendingDistinct` | ai-service/main.py:402 | a stably descending order never repeats a position |
| `Ranker.StableOrderUnique` | ai-service/main.py:402 | any two stably descending permutations of the same keys are equal, so the sorted result is fully determined |
| `SemanticSearch.FilterCandidates` | ai-service/main.py:370-388 | applying the active filters in source order yields exactly the candidates |
| `SemanticSearch.ScoreCandidates` | ai-service/main.py:393-399 | one entry per candidate, in candidate order, each holding that candidate's breakdown |
| `SemanticSearch.ScoredKeysAreSearchKeys` | ai-service/main.py:393-402 | the final scores of the scored list are the search keys, whatever order each item's terms came in |
| `SemanticSearch.NumberResults` | ai-service/main.py:404-411 | the first `limit` entries, in order, ranked 1, 2, ... |
| `SemanticSearch.RankByFinalScore` | ai-service/main.py:401-411 | the results follow a stable descending order of the final scores, cut to `limit`, ranked from 1, with final scores non-increasing |
| `SemanticSearch.SemanticSearch` | ai-service/main.py:369-411 | the results are the candidates in stable descending order of final score, cut to `limit`; result i is ranked i + 1 and carries its candidate's breakdown; final scores never increase down the list |
| `SemanticSearch.CandidatePriceScoreInUnitInterval` | ai-service/main.py:242-251 | every candidate's price score lies in [0, 1] |
| `SemanticSearch.CandidateFinalScoreBounds` | ai-service/main.py:226-267 | with non-negative weights, a non-negative raw similarity and a rating in [0, 5], a candidate's final score lies between 0 and the sum of the weights |
| `SemanticSearch.ExampleQueryTerms` | ai-service/main.py:167 | the query "red shoes" has the terms {"red", "shoes"} |
| `SemanticSearch.ExampleShoeMatches` | ai-service/main.py:165-175 | "Red Running Shoes" matches both terms |
| `SemanticSearch.ExampleJacketMatches` | ai-service/main.py:165-175 | "Blue Jacket" matches neither term |
| `SemanticSearch.ExamplePrices` | ai-service/main.py:391 | the two items' candidate prices are [50, 30] |
| `SemanticSearch.ExampleScores` | ai-service/main.py:226-267 | with default weights and raw similarities 0.9 and 0.3, the shoe's breakdown has final score 0.817 and the jacket's 0.535 |
| `SemanticSearch.ExampleCandidates` | ai-service/main.py:370-388 | with no filter set, both items are candidates, in request order |
| `SemanticSearch.ExamplePriceScores` | ai-service/main.py:242-249 | against the prices [50, 30], the shoe (the dearest) scores 0 on price and the jacket (the cheapest) 1 |
| `SemanticSearch.ExampleShoeSemantic` | ai-service/main.py:233-236 | two matched terms lift the shoe's raw similarity 0.9 to the cap of 1.0 |
| `SemanticSearch.ExampleShoeKey` | ai-service/main.py:226-267 | the shoe's sort key is 0.817 when its raw similarity is 0.9 |
| `SemanticSearch.ExampleJacketKey` | ai-service/main.py:226-267 | the jacket's sort key is 0.535 when its raw similarity is 0.3 |
| `SemanticSearch.ExampleKeys` | ai-service/main.py:370-399 | searching the two items with default weights sorts on the keys [0.817, 0.535] |
| `SemanticSearch.ExampleOrder` | ai-service/main.py:401-402 | the only stable descending order of the keys [0.817, 0.535] is [0, 1] |
| `SemanticSearch.ExampleRanking` | ai-service/main.py:401-402 | every stable descending order of those keys, and so the order the search returns, is the shoe then the jacket |
| `SimilarityFinder.DisplayBreakdown` | ai-service/main.py:451-460 | the final and semantic scores are the similarity; the rating score is rating / 5; price and recency are the neutral 0.5; stock is 1.0 exactly for "in_stock", else 0.5; no terms; fixed explanation |
| `SimilarityFinder.SimilarCandidatesSpec` | ai-service/main.py:436-443 | the compared items are an order-preserving selection: exactly those not excluded and with a non-empty embedding; an absent or zero exclude id excludes nothing |
| `SimilarityFinder.CollectSimilarities` | ai-service/main.py:435-443 | one entry per compared item, in request order, with its cosine similarity to the viewed item |
| `SimilarityFinder.NumberDisplayResults` | ai-service/main.py:448-465 | the first `limit` ranked items (Python slicing), result k ranked k + 1 with its display breakdown |
| `SimilarityFinder.FindSimilarProducts` | ai-service/main.py:435-465 | results are the compared items in stable descending order of similarity, cut to `limit`, ranked from 1; none is the excluded item or lacks an embedding; final score equals semantic score and never increases down the list |

## Left out

- The HTTP layer is left out: FastAPI routing, request validation, response wrapping, timing, logging and the exception handlers. A failed request is not modelled.
- The request defaults are left out: a limit of 20 for a search and 5 for similar items. The limit is an explicit field of both request records. Default weights are modelled (`Domain.DefaultWeights`, used when the request has none).
- The sentence model is left out: loading it and encoding the query. The query embedding is an input of `SemanticSearch.SemanticSearch`.
- The Euclidean norm is left out. It needs a square root, so it is a parameter `norm` of the similarity. Self-similarity of 1.0 and the bound [-1, 1] depend on the real norm and are not proved.
- Rounding to four decimals is left out. Every score is an exact real. As a consequence, the source sorts search results on the rounded final score, so items whose scores differ below 0.00005 tie there; the model sorts on the unrounded score. The similar-items sort uses the unrounded similarity in both.
- The one-decimal rating format (`:.1f`) is left out. It is a parameter `formatRating` of the explanation.
- `lower()` folds ASCII letters only. `split()` uses a fixed set of whitespace code points. Other Unicode case mappings are not modelled.
- The iteration order of the query term set is left unspecified. `ExtractMatchedTerms` picks terms in an arbitrary order. Its contract, and everything that depends on it, holds for every order. The final score depends only on how many terms matched.
- The sort returns the sorted order of positions rather than sorting the list of pairs in place. The results are built from that order.
- The other endpoints are not part of this model: the health checks and embedding generation.
- `Sequences.SliceCount`: a negative limit is modelled as Python slicing does it (n + limit items). A "keep at most limit items" reading holds only for a limit ≥ 0.
