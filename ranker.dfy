/**
 * Ordering by score, highest first, as `list.sort(key=..., reverse=True)`
 * does it: the sort is stable, so items with equal keys keep their input
 * order. The sort works on positions: it returns the order in which the
 * positions `0 .. |keys| - 1` are to be read.
 */
module Ranker {

  /** The positions `0 .. n - 1`, in increasing order. */
  function Indices(n: nat): (r: seq<nat>)
    ensures |r| == n
    ensures forall i :: 0 <= i < n ==> r[i] == i
  {
    seq(n, i requires 0 <= i < n => i)
  }

  predicate InRange(keys: seq<real>, order: seq<nat>) {
    forall i :: 0 <= i < |order| ==> order[i] < |keys|
  }

  /** Position `x` comes before position `y`: a higher key, or an equal key and an earlier position. */
  predicate Before(keys: seq<real>, x: nat, y: nat)
    requires x < |keys| && y < |keys|
  {
    keys[x] > keys[y] || (keys[x] == keys[y] && x < y)
  }

  /** Keys never increase along `order`, and equal keys appear in input order. */
  predicate StablyDescending(keys: seq<real>, order: seq<nat>)
    requires InRange(keys, order)
  {
    forall i, j :: 0 <= i < j < |order| ==> Before(keys, order[i], order[j])
  }

  /** The order of a stable, descending sort of `keys`: an insertion sort, one position at a time. */
  method StableSortDescending(keys: seq<real>) returns (order: seq<nat>)
    ensures InRange(keys, order)
    ensures multiset(order) == multiset(Indices(|keys|))
    ensures StablyDescending(keys, order)
  {
    order := [];
    for next := 0 to |keys|
      invariant forall i :: 0 <= i < |order| ==> order[i] < next
      invariant multiset(order) == multiset(Indices(next))
      invariant StablyDescending(keys, order)
    {
      var slot := InsertionSlot(keys, order, next);
      InsertKeepsOrder(keys, order, slot, next);
      InsertAddsOne(order, slot, next);
      order := order[..slot] + [next] + order[slot..];
    }
  }

  /** The first place in `order` whose key is strictly below that of `next`, or the end. */
  method InsertionSlot(keys: seq<real>, order: seq<nat>, next: nat) returns (slot: nat)
    requires InRange(keys, order) && next < |keys|
    ensures slot <= |order|
    ensures forall i :: 0 <= i < slot ==> keys[order[i]] >= keys[next]
    ensures slot == |order| || keys[order[slot]] < keys[next]
  {
    slot := 0;
    while slot < |order| && keys[order[slot]] >= keys[next]
      invariant slot <= |order|
      invariant forall i :: 0 <= i < slot ==> keys[order[i]] >= keys[next]
    {
      slot := slot + 1;
    }
  }

  /** Inserting `next` into an order of `0 .. next - 1` gives an order of `0 .. next`. */
  lemma InsertAddsOne(order: seq<nat>, slot: nat, next: nat)
    requires slot <= |order|
    requires multiset(order) == multiset(Indices(next))
    requires forall i :: 0 <= i < |order| ==> order[i] < next
    ensures multiset(order[..slot] + [next] + order[slot..]) == multiset(Indices(next + 1))
    ensures forall i :: 0 <= i < |order| + 1 ==> (order[..slot] + [next] + order[slot..])[i] < next + 1
  {
    assert Indices(next + 1) == Indices(next) + [next];
    assert order == order[..slot] + order[slot..];
  }

  /**
   * Inserting a new, later position just before the first entry with a
   * strictly lower key keeps an order stably descending.
   */
  lemma InsertKeepsOrder(keys: seq<real>, order: seq<nat>, slot: nat, next: nat)
    requires InRange(keys, order) && StablyDescending(keys, order)
    requires next < |keys| && forall i :: 0 <= i < |order| ==> order[i] < next
    requires slot <= |order|
    requires forall i :: 0 <= i < slot ==> keys[order[i]] >= keys[next]
    requires slot == |order| || keys[order[slot]] < keys[next]
    ensures InRange(keys, order[..slot] + [next] + order[slot..])
    ensures StablyDescending(keys, order[..slot] + [next] + order[slot..])
  {
    var result := order[..slot] + [next] + order[slot..];
    forall i, j | 0 <= i < j < |result|
      ensures Before(keys, result[i], result[j])
    {
      if j == slot {
        assert result[i] == order[i];
      } else if i == slot {
        assert result[j] == order[j - 1];
        if j - 1 > slot {
          assert Before(keys, order[slot], order[j - 1]);
        }
      } else {
        var i', j' := if i < slot then i else i - 1, if j < slot then j else j - 1;
        assert result[i] == order[i'] && result[j] == order[j'];
      }
    }
  }

  /** `StablyDescending` orders are free of repeats. */
  lemma StablyDescendingDistinct(keys: seq<real>, order: seq<nat>)
    requires InRange(keys, order) && StablyDescending(keys, order)
    ensures forall i, j :: 0 <= i < j < |order| ==> order[i] != order[j]
  {
    forall i, j | 0 <= i < j < |order|
      ensures order[i] != order[j]
    {
      assert Before(keys, order[i], order[j]);
    }
  }

  /** Two stable descending orders of the same positions start with the same position. */
  lemma SameFirst(keys: seq<real>, a: seq<nat>, b: seq<nat>)
    requires InRange(keys, a) && InRange(keys, b) && a != []
    requires multiset(a) == multiset(b)
    requires StablyDescending(keys, a) && StablyDescending(keys, b)
    ensures b != [] && a[0] == b[0]
  {
    assert a[0] in multiset(b);
    var k :| 0 <= k < |b| && b[k] == a[0];
    assert b[0] in multiset(a);
    var m :| 0 <= m < |a| && a[m] == b[0];
  }

  /** Dropping the first position of a stable descending order leaves one. */
  lemma TailStablyDescending(keys: seq<real>, a: seq<nat>)
    requires a != [] && InRange(keys, a) && StablyDescending(keys, a)
    ensures InRange(keys, a[1..]) && StablyDescending(keys, a[1..])
  {
    forall i, j | 0 <= i < j < |a| - 1
      ensures Before(keys, a[1..][i], a[1..][j])
    {
      assert a[1..][i] == a[i + 1] && a[1..][j] == a[j + 1];
    }
  }

  /** Sequences with the same elements and the same first element have tails with the same elements. */
  lemma TailMultiset(a: seq<nat>, b: seq<nat>)
    requires a != [] && b != [] && a[0] == b[0] && multiset(a) == multiset(b)
    ensures multiset(a[1..]) == multiset(b[1..])
  {
    assert a == [a[0]] + a[1..] && b == [b[0]] + b[1..];
    assert multiset(a[1..]) == multiset(a) - multiset{a[0]};
    assert multiset(b[1..]) == multiset(b) - multiset{b[0]};
  }

  /** Two stable descending orders of the same positions are the same order: the result of the sort is determined. */
  lemma {:induction false} StableOrderUnique(keys: seq<real>, a: seq<nat>, b: seq<nat>)
    requires InRange(keys, a) && InRange(keys, b)
    requires multiset(a) == multiset(b)
    requires StablyDescending(keys, a) && StablyDescending(keys, b)
    ensures a == b
    decreases |a|
  {
    if a != [] {
      SameFirst(keys, a, b);
      TailStablyDescending(keys, a);
      TailStablyDescending(keys, b);
      TailMultiset(a, b);
      StableOrderUnique(keys, a[1..], b[1..]);
      assert a == [a[0]] + a[1..] && b == [b[0]] + b[1..];
    } else {
      assert |b| == |multiset(b)| == 0;
    }
  }
}
