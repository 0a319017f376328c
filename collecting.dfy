/**
 * Helpers the SmartAnalysisService analyses share: Java's integer division, the
 * total size of a list of emails, and collecting the values a key function gives
 * for a list of keys (the `filter`/`map` over a map's entries), with what a sorted
 * permutation of that collection still says.
 */
module Collecting {
  import opened Wrappers
  import opened EmailModel
  import opened Sorting

  /** Java's `/` on integers: the quotient truncated toward zero. */
  function JavaDiv(a: int, b: int): int
    requires b > 0
  {
    if a >= 0 then a / b else -((-a) / b)
  }

  /** `mapToLong(Email::getSizeBytes).sum()`. */
  function SumSizes(es: seq<EmailRec>): int {
    if es == [] then 0 else SumSizes(es[..|es| - 1]) + es[|es| - 1].sizeBytes
  }

  /** The values `f` gives for `keys`, in their order, skipping keys it gives none for. */
  function Present<K, V>(keys: seq<K>, f: K -> Option<V>): seq<V> {
    if keys == [] then []
    else
      var v := f(keys[|keys| - 1]);
      Present(keys[..|keys| - 1], f) + (if v.Some? then [v.value] else [])
  }

  /** Each value collected is the one `f` gives for its owner, a key among `keys`. */
  lemma {:induction false} PresentAreValues<K, V>(keys: seq<K>, f: K -> Option<V>, owner: V -> K)
    requires forall x :: f(x).Some? ==> owner(f(x).value) == x
    ensures forall v :: v in Present(keys, f) ==> owner(v) in keys && f(owner(v)) == Some(v)
  {
    if keys != [] {
      var init := keys[..|keys| - 1];
      PresentAreValues(init, f, owner);
      assert keys == init + [keys[|keys| - 1]];
    }
  }

  /** Every key of `keys` that `f` gives a value for contributes it. */
  lemma {:induction false} PresentCover<K, V>(keys: seq<K>, f: K -> Option<V>, x: K)
    requires x in keys && f(x).Some?
    ensures f(x).value in Present(keys, f)
  {
    var init := keys[..|keys| - 1];
    if x != keys[|keys| - 1] {
      assert keys == init + [keys[|keys| - 1]];
      PresentCover(init, f, x);
    }
  }

  /** Distinct keys, each value owned by its key: the values collected are distinct. */
  lemma {:induction false} PresentDistinct<K, V>(keys: seq<K>, f: K -> Option<V>, owner: V -> K)
    requires Distinct(keys)
    requires forall x :: f(x).Some? ==> owner(f(x).value) == x
    ensures Distinct(Present(keys, f))
  {
    if keys != [] {
      var init := keys[..|keys| - 1];
      var last := keys[|keys| - 1];
      assert keys == init + [last];
      assert Distinct(init);
      PresentDistinct(init, f, owner);
      PresentAreValues(init, f, owner);
      var v := f(last);
      if v.Some? {
        assert owner(v.value) !in init;
        forall w | w in Present(init, f)
          ensures w != v.value
        {
          assert owner(w) in init;
        }
      }
    }
  }

  /**
   * Reordering the collected values: each is still what `f` gives for its owner,
   * every key that has a value still contributes it, and no owner occurs twice.
   */
  lemma PresentPermutation<K, V>(keys: seq<K>, f: K -> Option<V>, owner: V -> K, r: seq<V>)
    requires Distinct(keys)
    requires forall x :: f(x).Some? ==> owner(f(x).value) == x
    requires multiset(r) == multiset(Present(keys, f))
    ensures forall k :: 0 <= k < |r| ==> f(owner(r[k])) == Some(r[k])
    ensures forall x :: x in keys && f(x).Some? ==> exists k :: 0 <= k < |r| && owner(r[k]) == x
    ensures forall j, k :: 0 <= j < k < |r| ==> owner(r[j]) != owner(r[k])
  {
    var c := Present(keys, f);
    PresentAreValues(keys, f, owner);
    PresentDistinct(keys, f, owner);
    PermutationKeepsDistinct(c, r);
    forall k | 0 <= k < |r|
      ensures f(owner(r[k])) == Some(r[k])
    {
      assert r[k] in multiset(c);
    }
    forall x | x in keys && f(x).Some?
      ensures exists k :: 0 <= k < |r| && owner(r[k]) == x
    {
      PresentCover(keys, f, x);
      assert f(x).value in multiset(r);
      var k :| 0 <= k < |r| && r[k] == f(x).value;
    }
  }
}
