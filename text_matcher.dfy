/**
 * Keyword matching between a search query and a product's text
 * (main.py `extract_matched_terms`).
 *
 * Case folding covers the ASCII letters only. Splitting follows the
 * host language's `str.split()` with no separator: runs of whitespace
 * separate tokens and no token is empty; whitespace is the fixed set of
 * code points in `IsSpace`.
 */
module TextMatcher {
  import opened Domain
  import opened Sequences

  /** The code points that `str.split()` treats as whitespace. */
  predicate IsSpace(c: char) {
    var n := c as int;
    (9 <= n <= 13) || (0x1C <= n <= 0x20) || n == 0x85 || n == 0xA0 || n == 0x1680 ||
    (0x2000 <= n <= 0x200A) || n == 0x2028 || n == 0x2029 || n == 0x202F || n == 0x205F || n == 0x3000
  }

  function LowerChar(c: char): char {
    if 'A' <= c <= 'Z' then (c as int + 32) as char else c
  }

  /** `s.lower()`, restricted to ASCII letters. */
  function Lower(s: string): (r: string)
    ensures |r| == |s|
    ensures forall i :: 0 <= i < |s| ==> r[i] == LowerChar(s[i])
  {
    seq(|s|, i requires 0 <= i < |s| => LowerChar(s[i]))
  }

  /** Lowercasing works character by character, so it distributes over concatenation. */
  lemma LowerConcat(a: string, b: string)
    ensures Lower(a + b) == Lower(a) + Lower(b)
  {
  }

  /** A non-empty run of non-whitespace characters. */
  predicate IsWord(w: string) {
    w != [] && forall i :: 0 <= i < |w| ==> !IsSpace(w[i])
  }

  /** The length of the run of non-whitespace characters that starts `s`. */
  function WordLength(s: string): (n: nat)
    ensures n <= |s|
    ensures forall i :: 0 <= i < n ==> !IsSpace(s[i])
    ensures n == |s| || IsSpace(s[n])
  {
    if s == [] || IsSpace(s[0]) then 0 else 1 + WordLength(s[1..])
  }

  /** `s.split()`: the maximal runs of non-whitespace characters, in order. */
  function Tokens(s: string): (r: seq<string>)
    ensures forall i :: 0 <= i < |r| ==> IsWord(r[i])
    decreases |s|
  {
    if s == [] then []
    else if IsSpace(s[0]) then Tokens(s[1..])
    else
      var n := WordLength(s);
      [s[..n]] + Tokens(s[n..])
  }

  /** A word followed by nothing or by whitespace is read as a whole. */
  lemma {:induction false} WordLengthOfWord(w: string, rest: string)
    requires IsWord(w)
    requires rest == [] || IsSpace(rest[0])
    ensures WordLength(w + rest) == |w|
  {
    if |w| > 1 {
      assert (w + rest)[1..] == w[1..] + rest;
      WordLengthOfWord(w[1..], rest);
    } else {
      assert (w + rest)[1..] == rest;
    }
  }

  /** Splitting words joined by single spaces gives back the words. */
  lemma {:induction false} TokensOfJoin(words: seq<string>)
    requires forall i :: 0 <= i < |words| ==> IsWord(words[i])
    ensures Tokens(Join(words, " ")) == words
  {
    if |words| == 1 {
      var w := words[0];
      WordLengthOfWord(w, []);
      assert w + [] == w;
      assert w[|w|..] == [];
    } else if |words| > 1 {
      var w, tail := words[0], Join(words[1..], " ");
      var s := w + " " + tail;
      assert Join(words, " ") == s;
      WordLengthOfWord(w, " " + tail);
      assert s == w + (" " + tail);
      assert s[..|w|] == w && s[|w|..] == " " + tail;
      assert (" " + tail)[1..] == tail;
      TokensOfJoin(words[1..]);
    }
  }

  /** Text followed by nothing or by whitespace starts with the same word. */
  lemma {:induction false} WordLengthOfPrefix(a: string, rest: string)
    requires rest == [] || IsSpace(rest[0])
    ensures WordLength(a + rest) == WordLength(a)
  {
    if a == [] {
      assert a + rest == rest;
    } else if !IsSpace(a[0]) {
      assert (a + rest)[1..] == a[1..] + rest;
      WordLengthOfPrefix(a[1..], rest);
    }
  }

  /** A whitespace character splits the text: the tokens of both sides, in order. */
  lemma {:induction false} TokensSplitAtSpace(a: string, c: char, b: string)
    requires IsSpace(c)
    ensures Tokens(a + [c] + b) == Tokens(a) + Tokens(b)
    decreases |a|
  {
    var s := a + [c] + b;
    if a == [] {
      assert s == [c] + b && s[1..] == b;
    } else if IsSpace(a[0]) {
      assert s[1..] == a[1..] + [c] + b;
      TokensSplitAtSpace(a[1..], c, b);
    } else {
      var n := WordLength(a);
      assert s == a + ([c] + b);
      WordLengthOfPrefix(a, [c] + b);
      assert s[..n] == a[..n];
      assert s[n..] == a[n..] + [c] + b;
      TokensSplitAtSpace(a[n..], c, b);
    }
  }

  /** A single word is one token. */
  lemma TokensOfWord(w: string)
    requires IsWord(w)
    ensures Tokens(w) == [w]
  {
    WordLengthOfWord(w, []);
    assert w + [] == w;
    assert w[|w|..] == [];
  }

  /** `t in s` on strings: `t` occurs somewhere in `s`. */
  function IsSubstring(t: string, s: string): bool
    decreases |s|
  {
    t <= s || (s != [] && IsSubstring(t, s[1..]))
  }

  predicate OccursAt(t: string, s: string, i: nat) {
    i + |t| <= |s| && s[i..i + |t|] == t
  }

  /** A slice of the tail of `s` is the slice of `s` one place further on. */
  lemma TailSlice(s: string, i: nat, n: nat)
    requires s != [] && i + n < |s|
    ensures s[1..][i..i + n] == s[i + 1..i + 1 + n]
  {
  }

  lemma {:induction false} IsSubstringIff(t: string, s: string)
    ensures IsSubstring(t, s) <==> exists i: nat :: OccursAt(t, s, i)
    decreases |s|
  {
    if IsSubstring(t, s) {
      if t <= s {
        assert OccursAt(t, s, 0);
      } else {
        IsSubstringIff(t, s[1..]);
        var i: nat :| OccursAt(t, s[1..], i);
        TailSlice(s, i, |t|);
        assert OccursAt(t, s, i + 1);
      }
    }
    if exists i: nat :: OccursAt(t, s, i) {
      var i: nat :| OccursAt(t, s, i);
      if i == 0 {
        assert t <= s;
      } else {
        TailSlice(s, i - 1, |t|);
        assert OccursAt(t, s[1..], i - 1);
        IsSubstringIff(t, s[1..]);
      }
    }
  }

  function OrEmpty(x: Option<string>): string {
    if x.Some? then x.value else ""
  }

  /** The lowercased "title description category" text a query term is looked up in. */
  function ProductText(product: Product): string {
    Lower(product.title + " " + OrEmpty(product.description) + " " + OrEmpty(product.category))
  }

  /** A query term counts as matched when it is longer than two characters and occurs in the text. */
  predicate IsMatch(term: string, text: string) {
    |term| > 2 && IsSubstring(term, text)
  }

  /** The set of distinct whitespace tokens of the lowercased query. */
  function QueryTerms(query: string): set<string> {
    set t | t in Tokens(Lower(query))
  }

  function MatchedTermSet(query: string, product: Product): set<string> {
    set t | t in QueryTerms(query) && IsMatch(t, ProductText(product))
  }

  /**
   * The matched terms, each once, in the iteration order of the query's term
   * set (left unspecified, as the host language leaves it).
   */
  method ExtractMatchedTerms(query: string, product: Product) returns (matched: seq<string>)
    ensures NoDuplicates(matched)
    ensures forall t :: t in matched <==>
      t in Tokens(Lower(query)) && |t| > 2 && IsSubstring(t, ProductText(product))
    ensures forall t :: t in matched <==> t in MatchedTermSet(query, product)
    ensures |matched| == |MatchedTermSet(query, product)|
  {
    var queryTerms := QueryTerms(query);
    var productText := ProductText(product);
    matched := [];
    ghost var found: set<string> := {};
    var remaining := queryTerms;
    while remaining != {}
      invariant remaining <= queryTerms
      invariant found == set t | t in queryTerms - remaining && IsMatch(t, productText)
      invariant forall t :: t in matched <==> t in found
      invariant |matched| == |found|
      invariant NoDuplicates(matched)
      decreases |remaining|
    {
      var term :| term in remaining;
      if |term| > 2 && IsSubstring(term, productText) {
        assert term !in found;
        matched := matched + [term];
        found := found + {term};
      }
      remaining := remaining - {term};
    }
    assert found == MatchedTermSet(query, product);
  }
}
