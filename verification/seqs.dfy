/** Order-preserving selection from a sequence: JavaScript's `Array.prototype.filter`
    with a callback that cannot throw. */
module Seqs {

  function Filter<T>(xs: seq<T>, p: T -> bool): (r: seq<T>)
    ensures |r| <= |xs|
    ensures forall i :: 0 <= i < |r| ==> r[i] in xs && p(r[i])
    ensures forall i :: 0 <= i < |xs| && p(xs[i]) ==> xs[i] in r
  {
    if |xs| == 0 then []
    else (if p(xs[0]) then [xs[0]] else []) + Filter(xs[1..], p)
  }

  /** Filtering distributes over concatenation, so the kept elements appear
      in their original relative order. */
  lemma {:induction false} FilterConcat<T>(a: seq<T>, b: seq<T>, p: T -> bool)
    ensures Filter(a + b, p) == Filter(a, p) + Filter(b, p)
  {
    if |a| == 0 {
      assert a + b == b;
    } else {
      assert (a + b)[1..] == a[1..] + b;
      FilterConcat(a[1..], b, p);
    }
  }

  /** Filtering by `p` and then by `q` is filtering once by any predicate
      that agrees with `p && q` on the input: the survivors of both, in order. */
  lemma {:induction false} FilterFilter<T>(xs: seq<T>, p: T -> bool, q: T -> bool, pq: T -> bool)
    requires forall i :: 0 <= i < |xs| ==> pq(xs[i]) == (p(xs[i]) && q(xs[i]))
    ensures Filter(Filter(xs, p), q) == Filter(xs, pq)
  {
    if |xs| > 0 {
      var head := if p(xs[0]) then [xs[0]] else [];
      FilterConcat(head, Filter(xs[1..], p), q);
      if p(xs[0]) {
        assert head[1..] == [];
      }
      assert Filter(head, q) == if pq(xs[0]) then [xs[0]] else [];
      FilterFilter(xs[1..], p, q, pq);
    }
  }

  /** Predicates that agree on every element keep the same elements. */
  lemma {:induction false} FilterCongruent<T>(xs: seq<T>, p: T -> bool, q: T -> bool)
    requires forall i :: 0 <= i < |xs| ==> p(xs[i]) == q(xs[i])
    ensures Filter(xs, p) == Filter(xs, q)
  {
    if |xs| > 0 {
      FilterCongruent(xs[1..], p, q);
    }
  }

  /** Something is kept exactly when some element passes. */
  lemma FilterNonEmpty<T>(xs: seq<T>, p: T -> bool)
    ensures |Filter(xs, p)| > 0 <==> exists i :: 0 <= i < |xs| && p(xs[i])
  {
    if exists i :: 0 <= i < |xs| && p(xs[i]) {
      var i :| 0 <= i < |xs| && p(xs[i]);
      assert xs[i] in Filter(xs, p);
    }
  }

  /** The first kept element is the first element of the input that passes. */
  lemma {:induction false} FilterHead<T>(xs: seq<T>, p: T -> bool)
    ensures |Filter(xs, p)| > 0 ==>
              exists i :: 0 <= i < |xs| && xs[i] == Filter(xs, p)[0] && p(xs[i])
                          && forall j :: 0 <= j < i ==> !p(xs[j])
  {
    if |xs| == 0 {
    } else if p(xs[0]) {
      assert xs[0] == Filter(xs, p)[0];
    } else {
      assert Filter(xs, p) == Filter(xs[1..], p);
      FilterHead(xs[1..], p);
      if |Filter(xs, p)| > 0 {
        var i :| 0 <= i < |xs[1..]| && xs[1..][i] == Filter(xs[1..], p)[0] && p(xs[1..][i])
                 && forall j :: 0 <= j < i ==> !p(xs[1..][j]);
        assert forall j :: 0 <= j < i + 1 ==> !p(xs[j]) by {
          forall j | 0 <= j < i + 1 ensures !p(xs[j]) {
            if j > 0 { assert xs[j] == xs[1..][j - 1]; }
          }
        }
      }
    }
  }

  /** The `k`-th kept element sits at some position `i` of the input, and every
      passing element before `i` is among the first `k` kept: filtering keeps
      input order. */
  lemma {:induction false} FilterEarlier<T>(xs: seq<T>, p: T -> bool, k: int)
    requires 0 <= k < |Filter(xs, p)|
    ensures exists i :: 0 <= i < |xs| && xs[i] == Filter(xs, p)[k]
                        && forall j :: 0 <= j < i && p(xs[j]) ==>
                             exists j' :: 0 <= j' < k && Filter(xs, p)[j'] == xs[j]
  {
    var rest := Filter(xs[1..], p);
    if p(xs[0]) {
      assert Filter(xs, p) == [xs[0]] + rest;
      if k == 0 {
        assert xs[0] == Filter(xs, p)[0];
      } else {
        FilterEarlier(xs[1..], p, k - 1);
        var i :| 0 <= i < |xs[1..]| && xs[1..][i] == rest[k - 1]
                 && forall j :: 0 <= j < i && p(xs[1..][j]) ==>
                      exists j' :: 0 <= j' < k - 1 && rest[j'] == xs[1..][j];
        forall j | 0 <= j < i + 1 && p(xs[j]) ensures exists j' :: 0 <= j' < k && Filter(xs, p)[j'] == xs[j] {
          if j == 0 {
            assert Filter(xs, p)[0] == xs[0];
          } else {
            assert xs[j] == xs[1..][j - 1];
            var j' :| 0 <= j' < k - 1 && rest[j'] == xs[1..][j - 1];
            assert Filter(xs, p)[j' + 1] == xs[j];
          }
        }
        assert xs[i + 1] == Filter(xs, p)[k];
      }
    } else {
      assert Filter(xs, p) == rest;
      FilterEarlier(xs[1..], p, k);
      var i :| 0 <= i < |xs[1..]| && xs[1..][i] == rest[k]
               && forall j :: 0 <= j < i && p(xs[1..][j]) ==>
                    exists j' :: 0 <= j' < k && rest[j'] == xs[1..][j];
      forall j | 0 <= j < i + 1 && p(xs[j]) ensures exists j' :: 0 <= j' < k && Filter(xs, p)[j'] == xs[j] {
        assert j > 0;
        assert xs[j] == xs[1..][j - 1];
      }
      assert xs[i + 1] == Filter(xs, p)[k];
    }
  }
}
