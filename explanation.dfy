/**
 * The human-readable explanation attached to every ranked item
 * (main.py `generate_explanation`).
 *
 * Each of five groups (matched terms, rating, price, stock, semantic match)
 * contributes at most one clause, the higher threshold taking precedence;
 * the clauses are joined with " • ", and an item for which nothing fires is
 * "Relevant to your search". Formatting a rating to one decimal is the
 * parameter `formatRating`.
 */
module ExplanationGenerator {
  import opened Domain
  import opened Sequences

  datatype Clause =
    | Matches(terms: seq<string>)
    | HighlyRated(rating: real)
    | WellRated(rating: real)
    | GreatValue
    | GoodPrice
    | InStock
    | LimitedStock
    | StrongSemanticMatch
    | GoodSemanticMatch

  const Separator := " \U{2022} "
  const Fallback := "Relevant to your search"

  /** The position of a clause's group in the explanation: matches, rating, price, stock, semantic. */
  function Group(c: Clause): nat {
    match c
    case Matches(_) => 0
    case HighlyRated(_) | WellRated(_) => 1
    case GreatValue | GoodPrice => 2
    case InStock | LimitedStock => 3
    case StrongSemanticMatch | GoodSemanticMatch => 4
  }

  function ClauseText(c: Clause, formatRating: real -> string): (text: string)
    ensures text != [] && text[0] != Fallback[0]
  {
    match c
    case Matches(terms) => "Matches: " + Join(terms, ", ")
    case HighlyRated(r) => "Highly rated (" + formatRating(r) + "\U{2605})"
    case WellRated(r) => "Well rated (" + formatRating(r) + "\U{2605})"
    case GreatValue => "Great value"
    case GoodPrice => "Good price"
    case InStock => "In stock"
    case LimitedStock => "Limited stock"
    case StrongSemanticMatch => "Strong semantic match"
    case GoodSemanticMatch => "Good semantic match"
  }

  function MatchClause(matchedTerms: seq<string>): seq<Clause> {
    if matchedTerms != [] then [Matches(matchedTerms)] else []
  }

  function RatingClause(rating: Option<real>): seq<Clause> {
    if IsTruthyNumber(rating) && rating.value >= 4.5 then [HighlyRated(rating.value)]
    else if IsTruthyNumber(rating) && rating.value >= 4.0 then [WellRated(rating.value)]
    else []
  }

  function PriceClause(priceScore: real): seq<Clause> {
    if priceScore > 0.7 then [GreatValue] else if priceScore > 0.5 then [GoodPrice] else []
  }

  function StockClause(availability: Option<string>): seq<Clause> {
    if availability == Some("in_stock") then [InStock]
    else if availability == Some("low_stock") then [LimitedStock]
    else []
  }

  function SemanticClause(semanticScore: real): seq<Clause> {
    if semanticScore > 0.8 then [StrongSemanticMatch]
    else if semanticScore > 0.6 then [GoodSemanticMatch]
    else []
  }

  /** The clauses of an explanation, group by group. */
  function Clauses(product: Product, priceScore: real, semanticScore: real, matchedTerms: seq<string>): seq<Clause> {
    MatchClause(matchedTerms) + RatingClause(product.rating) + PriceClause(priceScore) +
    StockClause(product.availability) + SemanticClause(semanticScore)
  }

  /**
   * When a single clause applies, stated clause by clause: the lower
   * threshold of a group applies only below the higher one.
   */
  predicate Fires(c: Clause, product: Product, priceScore: real, semanticScore: real, matchedTerms: seq<string>) {
    match c
    case Matches(terms) => terms == matchedTerms && terms != []
    case HighlyRated(r) => product.rating == Some(r) && r >= 4.5
    case WellRated(r) => product.rating == Some(r) && 4.0 <= r < 4.5
    case GreatValue => priceScore > 0.7
    case GoodPrice => 0.5 < priceScore <= 0.7
    case InStock => product.availability == Some("in_stock")
    case LimitedStock => product.availability == Some("low_stock")
    case StrongSemanticMatch => semanticScore > 0.8
    case GoodSemanticMatch => 0.6 < semanticScore <= 0.8
  }

  function ClauseTexts(clauses: seq<Clause>, formatRating: real -> string): (texts: seq<string>)
    ensures |texts| == |clauses|
    ensures forall i :: 0 <= i < |clauses| ==> texts[i] == ClauseText(clauses[i], formatRating)
  {
    seq(|clauses|, i requires 0 <= i < |clauses| => ClauseText(clauses[i], formatRating))
  }

  /** The clause texts joined by the separator, or the fallback sentence when there are none. */
  function Render(clauses: seq<Clause>, formatRating: real -> string): string {
    if clauses == [] then Fallback else Join(ClauseTexts(clauses, formatRating), Separator)
  }

  function ExplanationText(product: Product, priceScore: real, semanticScore: real,
                           matchedTerms: seq<string>, formatRating: real -> string): string
  {
    Render(Clauses(product, priceScore, semanticScore, matchedTerms), formatRating)
  }

  /** Appends one clause's text to the parts built so far. */
  method AppendClause(parts: seq<string>, ghost clauses: seq<Clause>, c: Clause, formatRating: real -> string)
    returns (parts': seq<string>, ghost clauses': seq<Clause>)
    requires parts == ClauseTexts(clauses, formatRating)
    ensures clauses' == clauses + [c]
    ensures parts' == ClauseTexts(clauses', formatRating)
  {
    parts' := parts + [ClauseText(c, formatRating)];
    clauses' := clauses + [c];
  }

  /** Adds the matched-terms clause, when any term matched. */
  method AddMatchClause(parts: seq<string>, ghost clauses: seq<Clause>, matchedTerms: seq<string>,
                        formatRating: real -> string)
    returns (parts': seq<string>, ghost clauses': seq<Clause>)
    requires parts == ClauseTexts(clauses, formatRating)
    ensures clauses' == clauses + MatchClause(matchedTerms)
    ensures parts' == ClauseTexts(clauses', formatRating)
  {
    parts', clauses' := parts, clauses;
    if matchedTerms != [] {
      parts', clauses' := AppendClause(parts, clauses, Matches(matchedTerms), formatRating);
    }
  }

  /** Adds the rating clause: highly rated from 4.5, well rated from 4.0. */
  method AddRatingClause(parts: seq<string>, ghost clauses: seq<Clause>, rating: Option<real>,
                         formatRating: real -> string)
    returns (parts': seq<string>, ghost clauses': seq<Clause>)
    requires parts == ClauseTexts(clauses, formatRating)
    ensures clauses' == clauses + RatingClause(rating)
    ensures parts' == ClauseTexts(clauses', formatRating)
  {
    parts', clauses' := parts, clauses;
    if rating.Some? && rating.value != 0.0 && rating.value >= 4.5 {
      parts', clauses' := AppendClause(parts, clauses, HighlyRated(rating.value), formatRating);
    } else if rating.Some? && rating.value != 0.0 && rating.value >= 4.0 {
      parts', clauses' := AppendClause(parts, clauses, WellRated(rating.value), formatRating);
    }
  }

  /** Adds the price clause: great value above 0.7, good price above 0.5. */
  method AddPriceClause(parts: seq<string>, ghost clauses: seq<Clause>, priceScore: real,
                        formatRating: real -> string)
    returns (parts': seq<string>, ghost clauses': seq<Clause>)
    requires parts == ClauseTexts(clauses, formatRating)
    ensures clauses' == clauses + PriceClause(priceScore)
    ensures parts' == ClauseTexts(clauses', formatRating)
  {
    parts', clauses' := parts, clauses;
    if priceScore > 0.7 {
      parts', clauses' := AppendClause(parts, clauses, GreatValue, formatRating);
    } else if priceScore > 0.5 {
      parts', clauses' := AppendClause(parts, clauses, GoodPrice, formatRating);
    }
  }

  /** Adds the stock clause for an item in stock or low on stock. */
  method AddStockClause(parts: seq<string>, ghost clauses: seq<Clause>, availability: Option<string>,
                        formatRating: real -> string)
    returns (parts': seq<string>, ghost clauses': seq<Clause>)
    requires parts == ClauseTexts(clauses, formatRating)
    ensures clauses' == clauses + StockClause(availability)
    ensures parts' == ClauseTexts(clauses', formatRating)
  {
    parts', clauses' := parts, clauses;
    if availability == Some("in_stock") {
      parts', clauses' := AppendClause(parts, clauses, InStock, formatRating);
    } else if availability == Some("low_stock") {
      parts', clauses' := AppendClause(parts, clauses, LimitedStock, formatRating);
    }
  }

  /** Adds the semantic clause: strong above 0.8, good above 0.6. */
  method AddSemanticClause(parts: seq<string>, ghost clauses: seq<Clause>, semanticScore: real,
                           formatRating: real -> string)
    returns (parts': seq<string>, ghost clauses': seq<Clause>)
    requires parts == ClauseTexts(clauses, formatRating)
    ensures clauses' == clauses + SemanticClause(semanticScore)
    ensures parts' == ClauseTexts(clauses', formatRating)
  {
    parts', clauses' := parts, clauses;
    if semanticScore > 0.8 {
      parts', clauses' := AppendClause(parts, clauses, StrongSemanticMatch, formatRating);
    } else if semanticScore > 0.6 {
      parts', clauses' := AppendClause(parts, clauses, GoodSemanticMatch, formatRating);
    }
  }

  /** The explanation, built group by group. */
  method GenerateExplanation(product: Product, priceScore: real, semanticScore: real,
                             matchedTerms: seq<string>, formatRating: real -> string)
    returns (text: string)
    ensures text == ExplanationText(product, priceScore, semanticScore, matchedTerms, formatRating)
  {
    var parts: seq<string> := [];
    ghost var clauses: seq<Clause> := [];
    parts, clauses := AddMatchClause(parts, clauses, matchedTerms, formatRating);
    parts, clauses := AddRatingClause(parts, clauses, product.rating, formatRating);
    parts, clauses := AddPriceClause(parts, clauses, priceScore, formatRating);
    parts, clauses := AddStockClause(parts, clauses, product.availability, formatRating);
    parts, clauses := AddSemanticClause(parts, clauses, semanticScore, formatRating);
    assert [] + MatchClause(matchedTerms) == MatchClause(matchedTerms);
    assert clauses == Clauses(product, priceScore, semanticScore, matchedTerms);

    text := if parts != [] then Join(parts, Separator) else Fallback;
  }

  /** A clause is in the explanation exactly when it fires. */
  lemma ClausesFire(product: Product, priceScore: real, semanticScore: real, matchedTerms: seq<string>, c: Clause)
    ensures c in Clauses(product, priceScore, semanticScore, matchedTerms) <==>
            Fires(c, product, priceScore, semanticScore, matchedTerms)
  {
    var cs := Clauses(product, priceScore, semanticScore, matchedTerms);
    assert c in cs <==>
      c in MatchClause(matchedTerms) || c in RatingClause(product.rating) || c in PriceClause(priceScore) ||
      c in StockClause(product.availability) || c in SemanticClause(semanticScore);
  }

  /** The clauses come in group order, so no group contributes two clauses. */
  lemma ClausesInGroupOrder(product: Product, priceScore: real, semanticScore: real, matchedTerms: seq<string>)
    ensures var cs := Clauses(product, priceScore, semanticScore, matchedTerms);
      forall i, j :: 0 <= i < j < |cs| ==> Group(cs[i]) < Group(cs[j])
  {
    var m, r, p := MatchClause(matchedTerms), RatingClause(product.rating), PriceClause(priceScore);
    var s, e := StockClause(product.availability), SemanticClause(semanticScore);
    var cs := m + r + p + s + e;
    assert forall c :: c in m ==> Group(c) == 0;
    assert forall c :: c in r ==> Group(c) == 1;
    assert forall c :: c in p ==> Group(c) == 2;
    assert forall c :: c in s ==> Group(c) == 3;
    assert forall c :: c in e ==> Group(c) == 4;
    assert |m| <= 1 && |r| <= 1 && |p| <= 1 && |s| <= 1 && |e| <= 1;
    forall i, j | 0 <= i < j < |cs|
      ensures Group(cs[i]) < Group(cs[j])
    {
      var gi := if i < |m| then 0 else if i < |m + r| then 1 else if i < |m + r + p| then 2
                else if i < |m + r + p + s| then 3 else 4;
      var gj := if j < |m| then 0 else if j < |m + r| then 1 else if j < |m + r + p| then 2
                else if j < |m + r + p + s| then 3 else 4;
      assert Group(cs[i]) == gi;
      assert Group(cs[j]) == gj;
    }
  }

  /** The fallback sentence is the explanation exactly when no clause fires. */
  lemma FallbackIffNoClause(product: Product, priceScore: real, semanticScore: real,
                            matchedTerms: seq<string>, formatRating: real -> string)
    ensures ExplanationText(product, priceScore, semanticScore, matchedTerms, formatRating) == Fallback <==>
            forall c :: !Fires(c, product, priceScore, semanticScore, matchedTerms)
  {
    var cs := Clauses(product, priceScore, semanticScore, matchedTerms);
    forall c ensures c in cs <==> Fires(c, product, priceScore, semanticScore, matchedTerms) {
      ClausesFire(product, priceScore, semanticScore, matchedTerms, c);
    }
    if cs != [] {
      var texts := ClauseTexts(cs, formatRating);
      JoinStartsWithFirst(texts, Separator);
      assert Render(cs, formatRating)[0] == texts[0][0] != Fallback[0];
      assert cs[0] in cs;
    }
  }
}
