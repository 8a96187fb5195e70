/**
 * Quaternion algebra over the reals, shared by the orientation estimator
 * and the reference-point view: the Hamilton product, the conjugate (which
 * the source calls the inverse; it is the inverse of a unit quaternion),
 * rotation of a point, the gravity direction a quaternion predicts, the
 * clamp before the yaw arcsine, and the sign alignment and branch choice of
 * spherical interpolation.
 */
module Quaternions {
  import opened Common

  /** A quaternion `w + xi + yj + zk`, stored in the order `[w, x, y, z]`. */
  datatype Quaternion = Quaternion(w: real, x: real, y: real, z: real)
  {
    /** The vector part. */
    function Vector(): Vec3 { Vec3(x, y, z) }
    function Dot(o: Quaternion): real { w * o.w + x * o.x + y * o.y + z * o.z }
    function NormSq(): real { w * w + x * x + y * y + z * z }
    function Neg(): Quaternion { Quaternion(-w, -x, -y, -z) }
    function Add(o: Quaternion): Quaternion { Quaternion(w + o.w, x + o.x, y + o.y, z + o.z) }
    function Sub(o: Quaternion): Quaternion { Quaternion(w - o.w, x - o.x, y - o.y, z - o.z) }
    function Scale(k: real): Quaternion { Quaternion(k * w, k * x, k * y, k * z) }
  }

  /** The identity rotation `(1, 0, 0, 0)`. */
  const Identity: Quaternion := Quaternion(1.0, 0.0, 0.0, 0.0)

  /** `DEFAULT_HOME_ORIENTATION`: where the estimator starts and where a recenter puts it. */
  const DefaultHome: Quaternion := Quaternion(0.75, 0.65, 0.0, 0.0)

  /** A point as a quaternion with zero scalar part. */
  function Pure(p: Vec3): Quaternion
  {
    Quaternion(0.0, p.x, p.y, p.z)
  }

  /** `quaternion_multiply`, component by component. */
  function Multiply(q1: Quaternion, q2: Quaternion): Quaternion
  {
    Quaternion(q1.w * q2.w - q1.x * q2.x - q1.y * q2.y - q1.z * q2.z,
               q1.w * q2.x + q1.x * q2.w + q1.y * q2.z - q1.z * q2.y,
               q1.w * q2.y - q1.x * q2.z + q1.y * q2.w + q1.z * q2.x,
               q1.w * q2.z + q1.x * q2.y - q1.y * q2.x + q1.z * q2.w)
  }

  /** `quaternion_inverse`: the conjugate, the vector part negated. */
  function Inverse(q: Quaternion): (r: Quaternion)
  {
    Quaternion(q.w, -q.x, -q.y, -q.z)
  }

  /** `rotate_point_by_quaternion`: the vector part of `q (0, p) q*`. */
  function RotatePoint(p: Vec3, q: Quaternion): Vec3
  {
    Multiply(Multiply(q, Pure(p)), Inverse(q)).Vector()
  }

  /**
   * The component formulas are the Hamilton product: scalar part
   * `w1 w2 - v1·v2`, vector part `w1 v2 + w2 v1 + v1 × v2`.
   */
  lemma HamiltonProduct(q1: Quaternion, q2: Quaternion)
    ensures Multiply(q1, q2).w == q1.w * q2.w - q1.Vector().Dot(q2.Vector())
    ensures Multiply(q1, q2).Vector()
            == q2.Vector().Scale(q1.w).Add(q1.Vector().Scale(q2.w)).Add(q1.Vector().Cross(q2.Vector()))
  {
    var m := Multiply(q1, q2);
    var rhs := q2.Vector().Scale(q1.w).Add(q1.Vector().Scale(q2.w)).Add(q1.Vector().Cross(q2.Vector()));
    assert m.x == rhs.x;
    assert m.y == rhs.y;
    assert m.z == rhs.z;
  }

  /** The identity is a two-sided unit of the product. */
  lemma IdentityIsUnit(q: Quaternion)
    ensures Multiply(Identity, q) == q
    ensures Multiply(q, Identity) == q
  {
  }

  /** The inverse is an involution. */
  lemma InverseInvolution(q: Quaternion)
    ensures Inverse(Inverse(q)) == q
  {
  }

  /** The inverse of a product is the product of the inverses in reverse order. */
  lemma InverseOfProduct(q1: Quaternion, q2: Quaternion)
    ensures Inverse(Multiply(q1, q2)) == Multiply(Inverse(q2), Inverse(q1))
  {
    ConjugateProduct(q1, q2, Inverse(q1), Inverse(q2));
  }

  /**
   * `InverseOfProduct` one component at a time, with the conjugates `c1`,
   * `c2` of the factors given by their components.
   */
  lemma ConjugateProduct(q1: Quaternion, q2: Quaternion, c1: Quaternion, c2: Quaternion)
    requires c1 == Quaternion(q1.w, -q1.x, -q1.y, -q1.z)
    requires c2 == Quaternion(q2.w, -q2.x, -q2.y, -q2.z)
    ensures q1.w * q2.w - q1.x * q2.x - q1.y * q2.y - q1.z * q2.z
            == c2.w * c1.w - c2.x * c1.x - c2.y * c1.y - c2.z * c1.z
    ensures -(q1.w * q2.x + q1.x * q2.w + q1.y * q2.z - q1.z * q2.y)
            == c2.w * c1.x + c2.x * c1.w + c2.y * c1.z - c2.z * c1.y
    ensures -(q1.w * q2.y - q1.x * q2.z + q1.y * q2.w + q1.z * q2.x)
            == c2.w * c1.y - c2.x * c1.z + c2.y * c1.w + c2.z * c1.x
    ensures -(q1.w * q2.z + q1.x * q2.y - q1.y * q2.x + q1.z * q2.w)
            == c2.w * c1.z + c2.x * c1.y - c2.y * c1.x + c2.z * c1.w
  {
  }

  /** `q q*` has zero vector part and scalar part `|q|²`, so for a unit quaternion it is the identity. */
  lemma ProductWithInverse(q: Quaternion)
    ensures Multiply(q, Inverse(q)) == Quaternion(q.NormSq(), 0.0, 0.0, 0.0)
    ensures Multiply(Inverse(q), q) == Quaternion(q.NormSq(), 0.0, 0.0, 0.0)
    ensures q.NormSq() == 1.0 ==> Multiply(q, Inverse(q)) == Identity
  {
  }

  /** The squared norm is multiplicative. */
  lemma NormMultiplicative(q1: Quaternion, q2: Quaternion)
    ensures Multiply(q1, q2).NormSq() == q1.NormSq() * q2.NormSq()
  {
    FourSquares(q1, q2, Multiply(q1, q2));
  }

  /** Euler's four-square identity, with the product `m` given by its components. */
  lemma FourSquares(q1: Quaternion, q2: Quaternion, m: Quaternion)
    requires m.w == q1.w * q2.w - q1.x * q2.x - q1.y * q2.y - q1.z * q2.z
    requires m.x == q1.w * q2.x + q1.x * q2.w + q1.y * q2.z - q1.z * q2.y
    requires m.y == q1.w * q2.y - q1.x * q2.z + q1.y * q2.w + q1.z * q2.x
    requires m.z == q1.w * q2.z + q1.x * q2.y - q1.y * q2.x + q1.z * q2.w
    ensures m.w * m.w + m.x * m.x + m.y * m.y + m.z * m.z
            == (q1.w * q1.w + q1.x * q1.x + q1.y * q1.y + q1.z * q1.z)
               * (q2.w * q2.w + q2.x * q2.x + q2.y * q2.y + q2.z * q2.z)
  {
  }

  /** Rotating by the identity leaves every point where it is. */
  lemma RotateByIdentity(p: Vec3)
    ensures RotatePoint(p, Identity) == p
  {
    IdentityIsUnit(Pure(p));
  }

  /**
   * The rotated point comes out of a pure quaternion: `q (0, p) q*` has zero
   * scalar part, so dropping it loses nothing, and its length is `|q|²·|p|`;
   * a unit quaternion preserves lengths.
   */
  lemma {:induction false} RotationPreservesLength(p: Vec3, q: Quaternion)
    ensures Multiply(Multiply(q, Pure(p)), Inverse(q)).w == 0.0
    ensures RotatePoint(p, q).NormSq() == q.NormSq() * q.NormSq() * p.NormSq()
    ensures q.NormSq() == 1.0 ==> RotatePoint(p, q).NormSq() == p.NormSq()
  {
    var qp := Multiply(q, Pure(p));
    var r := Multiply(qp, Inverse(q));
    assert r.w == 0.0;
    NormMultiplicative(q, Pure(p));
    NormMultiplicative(qp, Inverse(q));
    assert Inverse(q).NormSq() == q.NormSq();
    assert Pure(p).NormSq() == p.NormSq();
    assert r.NormSq() == RotatePoint(p, q).NormSq();
  }

  /**
   * The gravity direction in the sensor frame that orientation `q` predicts
   * (the estimator's `est_grav`).
   */
  function EstimatedGravity(q: Quaternion): Vec3
  {
    Vec3(2.0 * (q.x * q.z - q.w * q.y),
         2.0 * (q.w * q.x + q.y * q.z),
         q.w * q.w - q.x * q.x - q.y * q.y + q.z * q.z)
  }

  /** The predicted gravity is the world's up axis rotated back into the sensor frame by `q*`. */
  lemma EstimatedGravityIsRotatedUp(q: Quaternion)
    ensures EstimatedGravity(q) == RotatePoint(Vec3(0.0, 0.0, 1.0), Inverse(q))
  {
  }

  /** `np.clip(t, -1.0, 1.0)`. */
  function ClampUnit(t: real): (r: real)
    ensures -1.0 <= r <= 1.0
    ensures -1.0 <= t <= 1.0 ==> r == t
    ensures t > 1.0 ==> r == 1.0
    ensures t < -1.0 ==> r == -1.0
  {
    if t < -1.0 then -1.0 else if t > 1.0 then 1.0 else t
  }

  /** The clamped arcsine argument of the yaw angle in `quaternion_to_euler`; always a valid arcsine input. */
  function YawSine(q: Quaternion): (r: real)
    ensures -1.0 <= r <= 1.0
  {
    ClampUnit(2.0 * (q.w * q.y - q.z * q.x))
  }

  /** `DOT_THRESHOLD`: above it, spherical interpolation falls back to a normalised linear one. */
  const DotThreshold: real := 0.9995

  /**
   * The shortest-path alignment of `quaternion_slerp` on its normalised
   * inputs: when their dot product is negative the second quaternion is
   * negated (the same rotation), so the dot product used afterwards is
   * never negative.
   */
  function AlignForShortestPath(q1: Quaternion, q2: Quaternion): (r: (Quaternion, real))
    ensures r.1 >= 0.0
    ensures r.1 == q1.Dot(r.0)
    ensures q1.Dot(q2) >= 0.0 ==> r.0 == q2
    ensures q1.Dot(q2) < 0.0 ==> r.0 == q2.Neg()
  {
    var dot := q1.Dot(q2);
    if dot < 0.0 then (q2.Neg(), -dot) else (q2, dot)
  }

  /** Whether interpolation takes the linear branch for the aligned pair. */
  predicate UsesLinearBranch(q1: Quaternion, q2: Quaternion)
  {
    AlignForShortestPath(q1, q2).1 > DotThreshold
  }

  /**
   * The linear branch before its final normalisation:
   * `q1 + t (q2' - q1)` with `q2'` the aligned second quaternion.
   */
  function LinearBlend(q1: Quaternion, q2: Quaternion, t: real): Quaternion
  {
    q1.Add(AlignForShortestPath(q1, q2).0.Sub(q1).Scale(t))
  }

  /**
   * The linear branch starts at `q1` and ends at `q2` or its negation,
   * whichever lies on the short path.
   */
  lemma LinearBlendEnds(q1: Quaternion, q2: Quaternion)
    ensures LinearBlend(q1, q2, 0.0) == q1
    ensures LinearBlend(q1, q2, 1.0) == AlignForShortestPath(q1, q2).0
    ensures q1.Dot(q2) < 0.0 ==> LinearBlend(q1, q2, 1.0) == q2.Neg()
  {
  }

  /** Negating one input of the interpolation does not change which branch it takes. */
  lemma BranchIgnoresSign(q1: Quaternion, q2: Quaternion)
    ensures UsesLinearBranch(q1, q2) == UsesLinearBranch(q1, q2.Neg())
  {
    assert q1.Dot(q2.Neg()) == -q1.Dot(q2);
  }
}
