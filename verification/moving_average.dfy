/**
 * Per-axis smoothing of controller readings: each axis keeps a bounded
 * buffer of its latest raw values (a deque with a maximum length) and
 * reports the mean of the buffer after appending the newest value.
 */
module MovingAverage {
  import opened Common
  import opened Models

  /** The last `n` elements of `s` (all of `s` when it is shorter). */
  function LastN(s: seq<real>, n: nat): (r: seq<real>)
    ensures |r| == if |s| < n then |s| else n
    ensures r == s[|s| - |r|..]
  {
    if |s| <= n then s else s[|s| - n..]
  }

  /** Taking the last `n` twice, with more values appended in between, is taking the last `n` once. */
  lemma LastNAbsorbs(a: seq<real>, b: seq<real>, n: nat)
    ensures LastN(LastN(a, n) + b, n) == LastN(a + b, n)
  {
    var la := LastN(a, n);
    if |a| > n {
      assert a + b == a[..|a| - n] + (la + b);
    }
  }

  /** The buffer after appending `x` to a deque of maximum length `maxLen`. */
  function Pushed(contents: seq<real>, x: real, maxLen: nat): seq<real>
  {
    LastN(contents + [x], maxLen)
  }

  /** The buffer after appending every value of `xs` in turn. */
  function Feed(contents: seq<real>, xs: seq<real>, maxLen: nat): seq<real>
    decreases |xs|
  {
    if |xs| == 0 then contents else Feed(Pushed(contents, xs[0], maxLen), xs[1..], maxLen)
  }

  /** A buffer that was fed a run of values holds the last `maxLen` values seen overall. */
  lemma {:induction false} FeedKeepsLatest(contents: seq<real>, xs: seq<real>, maxLen: nat)
    requires |contents| <= maxLen
    ensures Feed(contents, xs, maxLen) == LastN(contents + xs, maxLen)
    decreases |xs|
  {
    if |xs| == 0 {
      assert contents + xs == contents;
    } else {
      var next := Pushed(contents, xs[0], maxLen);
      FeedKeepsLatest(next, xs[1..], maxLen);
      LastNAbsorbs(contents + [xs[0]], xs[1..], maxLen);
      assert contents + [xs[0]] + xs[1..] == contents + xs;
    }
  }

  /**
   * After at least `maxLen` equal readings `v`, whatever came before, the
   * buffer holds only `v`, so the smoothed value is `v`.
   */
  lemma SteadyInputSmoothsToItself(contents: seq<real>, xs: seq<real>, maxLen: nat, v: real)
    requires |contents| <= maxLen
    requires 0 < maxLen <= |xs|
    requires forall k :: 0 <= k < |xs| ==> xs[k] == v
    ensures |Feed(contents, xs, maxLen)| == maxLen
    ensures Mean(Feed(contents, xs, maxLen)) == v
  {
    FeedKeepsLatest(contents, xs, maxLen);
    var r := Feed(contents, xs, maxLen);
    var all := contents + xs;
    assert forall k :: 0 <= k < |r| ==> r[k] == all[|all| - maxLen + k];
    MeanOfConstant(r, v);
  }

  /**
   * What an axis reports after a push: the mean of its deque, or the raw
   * value when the deque holds nothing (a window of size 0).
   */
  function SmoothedValue(contents: seq<real>, raw: real): real
  {
    if |contents| > 0 then Mean(contents) else raw
  }

  /** The same value for every axis. */
  function Uniform<T>(v: T): map<Axis, T>
  {
    map[Pitch := v, Yaw := v, Roll := v, X := v, Y := v, Z := v]
  }

  lemma UniformCovers<T>(v: T)
    ensures forall a: Axis :: a in Uniform(v) && Uniform(v)[a] == v
  {
    forall a: Axis ensures a in Uniform(v) && Uniform(v)[a] == v {
      match a
      case Pitch =>
      case Yaw =>
      case Roll =>
      case X =>
      case Y =>
      case Z =>
    }
  }

  /**
   * The per-axis deques of the gyro and accelerometer buffer dictionaries:
   * for each axis, the deque's maximum length and its contents.
   */
  class AxisBuffers {
    var maxLen: map<Axis, nat>
    var contents: map<Axis, seq<real>>

    ghost predicate Valid()
      reads this
    {
      forall a: Axis :: a in maxLen && a in contents && |contents[a]| <= maxLen[a]
    }

    constructor (windowSize: nat)
      ensures Valid()
      ensures forall a: Axis :: maxLen[a] == windowSize && contents[a] == []
    {
      maxLen := Uniform(windowSize);
      contents := Uniform([]);
      UniformCovers(windowSize);
      UniformCovers<seq<real>>([]);
    }

    /**
     * `apply_moving_average` on the deque of axis `a`: append the raw value
     * (dropping the oldest when full) and return the deque's mean, or the
     * raw value itself when the deque stays empty (maximum length 0).
     */
    method Apply(a: Axis, raw: real) returns (smoothed: real)
      requires Valid()
      modifies this`contents
      ensures Valid()
      ensures contents == old(contents)[a := Pushed(old(contents)[a], raw, maxLen[a])]
      ensures smoothed == SmoothedValue(contents[a], raw)
    {
      var d := LastN(contents[a] + [raw], maxLen[a]);
      contents := contents[a := d];
      if |d| > 0 {
        smoothed := Sum(d) / (|d| as real);
      } else {
        smoothed := raw;
      }
    }

    /**
     * Rebuilding every deque with a new maximum length keeps its most
     * recent values, as many as fit.
     */
    method Resize(windowSize: nat)
      requires Valid()
      modifies this
      ensures Valid()
      ensures forall a: Axis :: maxLen[a] == windowSize && contents[a] == LastN(old(contents)[a], windowSize)
    {
      contents := map a | a in contents :: LastN(contents[a], windowSize);
      maxLen := Uniform(windowSize);
      UniformCovers(windowSize);
    }
  }

  /** The first reading into an empty buffer that can hold it comes back unchanged. */
  lemma FirstReadingPassesThrough(raw: real, maxLen: nat)
    requires maxLen > 0
    ensures Pushed([], raw, maxLen) == [raw]
    ensures Mean(Pushed([], raw, maxLen)) == raw
  {
    assert [] + [raw] == [raw];
    assert [raw][..0] == [];
    assert Sum([raw]) == raw;
  }
}
