/**
 Sequence helpers shared by the model: order-preserving filtering (what a
 guarded `push` inside a `foreach` builds) and first-match lookup (what a
 collection's `first`/`firstWhere` returns).
 */
module Seqs {
  import opened Options

  /** The elements of `s` that satisfy `keep`, in their original order. */
  function Filter<T(!new)>(s: seq<T>, keep: T -> bool): (r: seq<T>)
    ensures |r| <= |s|
    ensures forall x :: x in r <==> x in s && keep(x)
    decreases |s|
  {
    if s == [] then []
    else (if keep(s[0]) then [s[0]] else []) + Filter(s[1..], keep)
  }

  /** Filtering distributes over concatenation, so it never reorders elements. */
  lemma {:induction false} FilterAppend<T(!new)>(a: seq<T>, b: seq<T>, keep: T -> bool)
    ensures Filter(a + b, keep) == Filter(a, keep) + Filter(b, keep)
    decreases |a|
  {
    if a == [] {
      assert a + b == b;
    } else {
      assert (a + b)[0] == a[0];
      assert (a + b)[1..] == a[1..] + b;
      FilterAppend(a[1..], b, keep);
    }
  }

  /** Splitting a sequence by a predicate and its negation loses and invents nothing. */
  lemma {:induction false} FilterSplitIsPermutation<T(!new)>(s: seq<T>, keep: T -> bool, drop: T -> bool)
    requires forall x :: drop(x) == !keep(x)
    ensures multiset(Filter(s, keep) + Filter(s, drop)) == multiset(s)
    ensures |Filter(s, keep)| + |Filter(s, drop)| == |s|
    decreases |s|
  {
    if s != [] {
      FilterSplitIsPermutation(s[1..], keep, drop);
      assert s == [s[0]] + s[1..];
    }
  }

  /** A filter that rejects every element yields nothing; one that keeps every element is the identity. */
  lemma {:induction false} FilterAllOrNothing<T(!new)>(s: seq<T>, keep: T -> bool)
    ensures (forall i :: 0 <= i < |s| ==> !keep(s[i])) ==> Filter(s, keep) == []
    ensures (forall i :: 0 <= i < |s| ==> keep(s[i])) ==> Filter(s, keep) == s
    decreases |s|
  {
    if s != [] {
      FilterAllOrNothing(s[1..], keep);
      assert (forall i :: 0 <= i < |s| ==> keep(s[i])) ==> (forall i :: 0 <= i < |s[1..]| ==> keep(s[1..][i]));
      assert (forall i :: 0 <= i < |s| ==> !keep(s[i])) ==> (forall i :: 0 <= i < |s[1..]| ==> !keep(s[1..][i]));
      assert s == [s[0]] + s[1..];
    }
  }

  /**
   The first element of `s` that satisfies `p`, or `None` when there is
   none: the semantics of a collection's `firstWhere`.
   */
  function FirstWhere<T>(s: seq<T>, p: T -> bool): (r: Option<T>)
    ensures r.None? <==> forall i :: 0 <= i < |s| ==> !p(s[i])
    ensures r.Some? ==> exists i :: 0 <= i < |s| && s[i] == r.value && p(s[i]) && forall j :: 0 <= j < i ==> !p(s[j])
    decreases |s|
  {
    if s == [] then None
    else if p(s[0]) then Some(s[0])
    else
      var r := FirstWhere(s[1..], p);
      assert r.Some? ==> exists i :: 0 < i < |s| && s[i] == r.value && p(s[i]) && forall j :: 0 <= j < i ==> !p(s[j]) by {
        if r.Some? {
          var k :| 0 <= k < |s[1..]| && s[1..][k] == r.value && p(s[1..][k]) && forall j :: 0 <= j < k ==> !p(s[1..][j]);
          assert s[k + 1] == r.value;
          assert forall j :: 0 <= j < k + 1 ==> !p(s[j]) by {
            forall j | 0 <= j < k + 1 ensures !p(s[j]) {
              if j > 0 { assert s[j] == s[1..][j - 1]; }
            }
          }
        }
      }
      r
  }

  /** Whatever `FirstWhere` returns is an element of the sequence that satisfies the predicate. */
  lemma FirstWhereFound<T>(s: seq<T>, p: T -> bool)
    requires FirstWhere(s, p).Some?
    ensures FirstWhere(s, p).value in s && p(FirstWhere(s, p).value)
  {
    var i :| 0 <= i < |s| && s[i] == FirstWhere(s, p).value && p(s[i]) && forall j :: 0 <= j < i ==> !p(s[j]);
  }
}
