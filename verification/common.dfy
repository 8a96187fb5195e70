/**
 * Shared value types of the gesture pipeline: an optional value, a result
 * that may carry the name of a missing configuration key, three-component
 * vectors (gyroscope and accelerometer readings, points in space) and the
 * sums, means and extremes of sequences of reals that several components use.
 */
module Common {

  datatype Option<T> = None | Some(value: T)

  datatype Result<T> = Ok(value: T) | Err(error: string)

  /** Python truthiness of an optional string: neither None nor empty. */
  predicate Truthy(o: Option<string>)
  {
    o.Some? && o.value != ""
  }

  /** A reading or point with three components (pitch/yaw/roll or x/y/z). */
  datatype Vec3 = Vec3(x: real, y: real, z: real)
  {
    function Add(o: Vec3): Vec3 { Vec3(x + o.x, y + o.y, z + o.z) }
    function Sub(o: Vec3): Vec3 { Vec3(x - o.x, y - o.y, z - o.z) }
    function Scale(k: real): Vec3 { Vec3(k * x, k * y, k * z) }
    function Dot(o: Vec3): real { x * o.x + y * o.y + z * o.z }
    function Cross(o: Vec3): Vec3 {
      Vec3(y * o.z - z * o.y, z * o.x - x * o.z, x * o.y - y * o.x)
    }
    function NormSq(): real { x * x + y * y + z * z }
  }

  const Zero3: Vec3 := Vec3(0.0, 0.0, 0.0)

  /** The cross product is perpendicular to both of its factors. */
  lemma CrossPerpendicular(u: Vec3, v: Vec3)
    ensures u.Cross(v).Dot(u) == 0.0
    ensures u.Cross(v).Dot(v) == 0.0
  {
  }

  /** A vector crossed with itself is zero. */
  lemma CrossSelf(u: Vec3)
    ensures u.Cross(u) == Zero3
  {
  }

  // ---------------------------------------------------------------------
  // Sums, means and extremes of sequences of reals

  /** Sum of `s`, accumulated from the front like Python's `sum`. */
  function Sum(s: seq<real>): real
  {
    if |s| == 0 then 0.0 else Sum(s[..|s| - 1]) + s[|s| - 1]
  }

  /** Arithmetic mean (`sum(s) / len(s)`). */
  function Mean(s: seq<real>): real
    requires |s| > 0
  {
    Sum(s) / (|s| as real)
  }

  /** Smallest element (Python's `min`). */
  function MinOf(s: seq<real>): real
    requires |s| > 0
  {
    if |s| == 1 then s[0]
    else
      var m := MinOf(s[..|s| - 1]);
      if s[|s| - 1] < m then s[|s| - 1] else m
  }

  /** Largest element (Python's `max`). */
  function MaxOf(s: seq<real>): real
    requires |s| > 0
  {
    if |s| == 1 then s[0]
    else
      var m := MaxOf(s[..|s| - 1]);
      if s[|s| - 1] > m then s[|s| - 1] else m
  }

  lemma {:induction false} MinOfIsLeast(s: seq<real>)
    requires |s| > 0
    ensures forall k :: 0 <= k < |s| ==> MinOf(s) <= s[k]
    ensures exists k :: 0 <= k < |s| && MinOf(s) == s[k]
  {
    if |s| > 1 {
      var init := s[..|s| - 1];
      MinOfIsLeast(init);
      assert forall k :: 0 <= k < |init| ==> init[k] == s[k];
      var j :| 0 <= j < |init| && MinOf(init) == init[j];
      if s[|s| - 1] < MinOf(init) {
        assert MinOf(s) == s[|s| - 1];
      } else {
        assert MinOf(s) == s[j];
      }
    } else {
      assert MinOf(s) == s[0];
    }
  }

  lemma {:induction false} MaxOfIsGreatest(s: seq<real>)
    requires |s| > 0
    ensures forall k :: 0 <= k < |s| ==> s[k] <= MaxOf(s)
    ensures exists k :: 0 <= k < |s| && MaxOf(s) == s[k]
  {
    if |s| > 1 {
      var init := s[..|s| - 1];
      MaxOfIsGreatest(init);
      assert forall k :: 0 <= k < |init| ==> init[k] == s[k];
      var j :| 0 <= j < |init| && MaxOf(init) == init[j];
      if s[|s| - 1] > MaxOf(init) {
        assert MaxOf(s) == s[|s| - 1];
      } else {
        assert MaxOf(s) == s[j];
      }
    } else {
      assert MaxOf(s) == s[0];
    }
  }

  /** Every element of `s` lies in [lo, hi], so the sum lies in [n*lo, n*hi]. */
  lemma {:induction false} SumBounds(s: seq<real>, lo: real, hi: real)
    requires forall k :: 0 <= k < |s| ==> lo <= s[k] <= hi
    ensures (|s| as real) * lo <= Sum(s) <= (|s| as real) * hi
  {
    if |s| > 0 {
      var init := s[..|s| - 1];
      assert forall k :: 0 <= k < |init| ==> init[k] == s[k];
      SumBounds(init, lo, hi);
      assert (|s| as real) * lo == (|init| as real) * lo + lo;
      assert (|s| as real) * hi == (|init| as real) * hi + hi;
    }
  }

  /** The mean of a non-empty sequence lies between its minimum and maximum. */
  lemma MeanWithinExtremes(s: seq<real>)
    requires |s| > 0
    ensures MinOf(s) <= Mean(s) <= MaxOf(s)
  {
    MinOfIsLeast(s);
    MaxOfIsGreatest(s);
    SumBounds(s, MinOf(s), MaxOf(s));
    QuotientBounds(Sum(s), |s| as real, MinOf(s), MaxOf(s));
  }

  lemma QuotientBounds(total: real, n: real, lo: real, hi: real)
    requires n > 0.0
    requires n * lo <= total <= n * hi
    ensures lo <= total / n <= hi
  {
    assert (total / n) * n == total;
  }

  /** A sequence whose elements are all `v` sums to `n * v`. */
  lemma {:induction false} SumConstant(s: seq<real>, v: real)
    requires forall k :: 0 <= k < |s| ==> s[k] == v
    ensures Sum(s) == (|s| as real) * v
  {
    if |s| > 0 {
      var init := s[..|s| - 1];
      assert forall k :: 0 <= k < |init| ==> init[k] == s[k];
      SumConstant(init, v);
    }
  }

  /** The mean of a non-empty sequence of equal values is that value. */
  lemma MeanOfConstant(s: seq<real>, v: real)
    requires |s| > 0
    requires forall k :: 0 <= k < |s| ==> s[k] == v
    ensures Mean(s) == v
  {
    SumConstant(s, v);
  }

  /** Sum distributes over concatenation. */
  lemma {:induction false} SumAppend(a: seq<real>, b: seq<real>)
    ensures Sum(a + b) == Sum(a) + Sum(b)
  {
    if |b| > 0 {
      var b0 := b[..|b| - 1];
      assert (a + b)[..|a + b| - 1] == a + b0;
      SumAppend(a, b0);
    } else {
      assert a + b == a;
    }
  }
}
