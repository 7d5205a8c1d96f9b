/**
 * A letter distribution (`letter_dist`): 26 non-negative weights and a flag
 * saying whether the distribution exists. This module holds the pure meaning
 * of `normalize_dist` and of the cumulative-interval search of
 * `rand_index_from_dist`; the in-place versions are methods in `Tables` and
 * `Sampling`.
 */
module Distributions {

  /** `letter_dist`; `present` is the source's `exists` flag (a reserved word here). */
  datatype Dist = Dist(weights: seq<real>, present: bool)

  /** A distribution has 26 weights, none negative, as counting and normalising keep them. */
  ghost predicate WellFormed(d: Dist) {
    |d.weights| == 26 && forall i | 0 <= i < 26 :: d.weights[i] >= 0.0
  }

  /** The sum of a sequence of weights, added up front to back. */
  function Sum(s: seq<real>): real {
    if s == [] then 0.0 else Sum(s[..|s| - 1]) + s[|s| - 1]
  }

  /** Every weight divided by `s`. */
  function Scale(w: seq<real>, s: real): (r: seq<real>)
    requires s != 0.0
    ensures |r| == |w| && forall i | 0 <= i < |w| :: r[i] == w[i] / s
  {
    seq(|w|, i requires 0 <= i < |w| => w[i] / s)
  }

  lemma {:induction false} SumScale(w: seq<real>, s: real)
    requires s != 0.0
    ensures Sum(Scale(w, s)) == Sum(w) / s
  {
    if w != [] {
      var n := |w| - 1;
      assert Scale(w, s)[..n] == Scale(w[..n], s);
      SumScale(w[..n], s);
    }
  }

  lemma {:induction false} SumNonNegative(w: seq<real>)
    requires forall i | 0 <= i < |w| :: w[i] >= 0.0
    ensures Sum(w) >= 0.0
  {
    if w != [] {
      SumNonNegative(w[..|w| - 1]);
    }
  }

  /** Non-negative weights sum to more than zero exactly when one of them is positive. */
  lemma {:induction false} SumPositive(w: seq<real>)
    requires forall i | 0 <= i < |w| :: w[i] >= 0.0
    ensures Sum(w) > 0.0 <==> exists i | 0 <= i < |w| :: w[i] > 0.0
  {
    if w != [] {
      var n := |w| - 1;
      var v := w[..n];
      SumPositive(v);
      SumNonNegative(v);
      if exists i | 0 <= i < |w| :: w[i] > 0.0 {
        var i :| 0 <= i < |w| && w[i] > 0.0;
        if i < n {
          assert v[i] > 0.0;
        }
      }
      if Sum(w) > 0.0 && w[n] <= 0.0 {
        var i :| 0 <= i < n && v[i] > 0.0;
        assert w[i] > 0.0;
      }
    }
  }

  /**
   * `normalize_dist`: when the weights sum to more than zero, mark the
   * distribution present and divide every weight by the sum; otherwise leave
   * the weights and the flag as they are.
   */
  function Normalized(d: Dist): (r: Dist)
    ensures |r.weights| == |d.weights|
    ensures Sum(d.weights) > 0.0 ==> r.present && Sum(r.weights) == 1.0
    ensures Sum(d.weights) > 0.0 ==>
      forall i | 0 <= i < |d.weights| :: r.weights[i] * Sum(d.weights) == d.weights[i]
    ensures Sum(d.weights) <= 0.0 ==> r == d
  {
    var s := Sum(d.weights);
    if s > 0.0 then
      SumScale(d.weights, s);
      assert s / s == 1.0;
      Dist(Scale(d.weights, s), true)
    else
      d
  }

  /** Normalising keeps a distribution well formed. */
  lemma NormalizedWellFormed(d: Dist)
    requires WellFormed(d)
    ensures WellFormed(Normalized(d))
  {
    var s := Sum(d.weights);
    if s > 0.0 {
      forall i | 0 <= i < 26 ensures Normalized(d).weights[i] >= 0.0 {
        assert Normalized(d).weights[i] == d.weights[i] / s;
      }
    }
  }

  /**
   * A table of counts that starts without the flag ends up present exactly
   * when it holds a count, and then its weights sum to one.
   */
  lemma NormalizedCounts(w: seq<real>)
    requires forall i | 0 <= i < |w| :: w[i] >= 0.0
    ensures Normalized(Dist(w, false)).present <==> Sum(w) > 0.0
    ensures Normalized(Dist(w, false)).present ==> Sum(Normalized(Dist(w, false)).weights) == 1.0
  {
    SumNonNegative(w);
  }

  /** The draw `u` falls in the cumulative interval (prefix, prefix + w[i]] of letter `i`. */
  ghost predicate Hit(w: seq<real>, u: real, i: int)
    requires 0 <= i < |w|
  {
    Sum(w[..i]) < u <= Sum(w[..i]) + w[i]
  }

  lemma PrefixStep(w: seq<real>, i: nat)
    requires i < |w|
    ensures Sum(w[..i + 1]) == Sum(w[..i]) + w[i]
  {
    assert w[..i + 1][..i] == w[..i];
  }

  /**
   * The search of `rand_index_from_dist` from index `i` on, with the running
   * sum `acc` of the weights before `i`: the first index whose interval holds
   * `u`, or -1 when none does.
   */
  function Scan(w: seq<real>, u: real, i: nat, acc: real): (r: int)
    requires i <= |w|
    ensures r == -1 || i <= r < |w|
    decreases |w| - i
  {
    if i == |w| then -1
    else if u > acc && u <= acc + w[i] then i
    else Scan(w, u, i + 1, acc + w[i])
  }

  /** The search from `i` returns the first index at or after `i` that holds `u`, or -1 if there is none. */
  lemma {:induction false} ScanFindsFirst(w: seq<real>, u: real, i: nat, acc: real)
    requires i <= |w| && acc == Sum(w[..i])
    ensures var r := Scan(w, u, i, acc);
      && (r != -1 ==> Hit(w, u, r) && forall j | i <= j < r :: !Hit(w, u, j))
      && (r == -1 ==> forall j | i <= j < |w| :: !Hit(w, u, j))
    decreases |w| - i
  {
    if i < |w| && !(u > acc && u <= acc + w[i]) {
      PrefixStep(w, i);
      ScanFindsFirst(w, u, i + 1, acc + w[i]);
    }
  }

  /** The index `rand_index_from_dist` chooses for a present distribution and the draw `u`. */
  function IndexOf(w: seq<real>, u: real): (r: int)
    ensures r == -1 || 0 <= r < |w|
  {
    Scan(w, u, 0, 0.0)
  }

  /**
   * The chosen index is the first whose interval (prefix, prefix + w[i]]
   * holds `u`, so its weight is positive; -1 means no interval holds `u`.
   */
  lemma IndexOfFirst(w: seq<real>, u: real)
    ensures var r := IndexOf(w, u);
      && (r != -1 ==> Hit(w, u, r) && w[r] > 0.0 && forall j | 0 <= j < r :: !Hit(w, u, j))
      && (r == -1 ==> forall j | 0 <= j < |w| :: !Hit(w, u, j))
  {
    ScanFindsFirst(w, u, 0, 0.0);
  }

  /** With non-negative weights the intervals do not overlap, so at most one index holds `u`. */
  lemma {:induction false} HitUnique(w: seq<real>, u: real, i: int, j: int)
    requires forall k | 0 <= k < |w| :: w[k] >= 0.0
    requires 0 <= i < j < |w|
    ensures !(Hit(w, u, i) && Hit(w, u, j))
  {
    PrefixMonotone(w, i + 1, j);
    PrefixStep(w, i);
  }

  lemma {:induction false} PrefixMonotone(w: seq<real>, i: nat, j: nat)
    requires forall k | 0 <= k < |w| :: w[k] >= 0.0
    requires i <= j <= |w|
    ensures Sum(w[..i]) <= Sum(w[..j])
    decreases j - i
  {
    if i < j {
      PrefixMonotone(w, i, j - 1);
      PrefixStep(w, j - 1);
    }
  }

  /** The chosen index is the only index whose interval holds `u`. */
  lemma IndexOfUnique(w: seq<real>, u: real, j: int)
    requires forall k | 0 <= k < |w| :: w[k] >= 0.0
    requires 0 <= j < |w| && Hit(w, u, j)
    ensures IndexOf(w, u) == j
  {
    var r := IndexOf(w, u);
    IndexOfFirst(w, u);
    if r != j {
      if r == -1 {
      } else if r < j {
        HitUnique(w, u, r, j);
      } else {
        HitUnique(w, u, j, r);
      }
    }
  }

  /** The draw 0.0 lies in no interval: every prefix sum is at least zero. */
  lemma ZeroDrawMisses(w: seq<real>)
    requires forall k | 0 <= k < |w| :: w[k] >= 0.0
    ensures IndexOf(w, 0.0) == -1
  {
    var r := IndexOf(w, 0.0);
    IndexOfFirst(w, 0.0);
    if r != -1 {
      PrefixMonotone(w, 0, r);
    }
  }

  /**
   * In exact arithmetic a normalised distribution always yields an index for a
   * draw in (0, 1]: the intervals cover (0, Sum] and the sum is one.
   */
  lemma NormalizedAlwaysHits(w: seq<real>, u: real)
    requires forall k | 0 <= k < |w| :: w[k] >= 0.0
    requires Sum(w) == 1.0 && 0.0 < u <= 1.0
    ensures IndexOf(w, u) != -1
  {
    assert w[..|w|] == w;
    var j := Covering(w, u, |w|);
    IndexOfUnique(w, u, j);
  }

  /** Some index below `n` holds any `u` in (0, Sum(w[..n])]. */
  lemma {:induction false} Covering(w: seq<real>, u: real, n: nat) returns (j: int)
    requires forall k | 0 <= k < |w| :: w[k] >= 0.0
    requires n <= |w| && 0.0 < u <= Sum(w[..n])
    ensures 0 <= j < n && Hit(w, u, j)
  {
    assert n > 0;
    PrefixStep(w, n - 1);
    if u > Sum(w[..n - 1]) {
      j := n - 1;
    } else {
      j := Covering(w, u, n - 1);
    }
  }
}
