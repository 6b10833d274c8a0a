/** Rotating a vector by a quaternion, and the frame that `buildVecs` derives from a rotation
    (src/stms/camera.cpp:15-19, 38-46), over the reals. */
module Camera {
  import opened Quaternions

  function TransByQuat(v: Vec, quat: Quat): Vec {
    var u := Vec(quat.x, quat.y, quat.z);
    Plus(Plus(Scale(2.0 * Dot(u, v), u),
              Scale(quat.w * quat.w - Dot(u, u), v)),
         Scale(2.0 * quat.w, Cross(u, v)))
  }

  /** One component of the formula, multiplied out. */
  lemma Expanded(w: real, x: real, y: real, z: real, a: real, b: real, c: real, dot: real, uu: real, cross: real)
    requires dot == x * a + y * b + z * c && uu == x * x + y * y + z * z && cross == y * c - z * b
    ensures 2.0 * dot * x + (w * w - uu) * a + 2.0 * w * cross ==
            Prod3(x, a, x) + Prod3(w, a, w) - Prod3(y, a, y) - Prod3(z, a, z) +
            2.0 * Prod3(x, b, y) - 2.0 * Prod3(w, b, z) + 2.0 * Prod3(x, c, z) + 2.0 * Prod3(w, c, y)
  {
  }

  lemma TransX(v: Vec, q: Quat)
    ensures TransByQuat(v, q).x ==
            Prod3(q.x, v.x, q.x) + Prod3(q.w, v.x, q.w) - Prod3(q.y, v.x, q.y) - Prod3(q.z, v.x, q.z) +
            2.0 * Prod3(q.x, v.y, q.y) - 2.0 * Prod3(q.w, v.y, q.z) +
            2.0 * Prod3(q.x, v.z, q.z) + 2.0 * Prod3(q.w, v.z, q.y)
  {
    hide Prod3;
    var u := VecPart(q);
    Expanded(q.w, q.x, q.y, q.z, v.x, v.y, v.z, Dot(u, v), Dot(u, u), Cross(u, v).x);
  }

  lemma TransY(v: Vec, q: Quat)
    ensures TransByQuat(v, q).y ==
            Prod3(q.y, v.y, q.y) + Prod3(q.w, v.y, q.w) - Prod3(q.z, v.y, q.z) - Prod3(q.x, v.y, q.x) +
            2.0 * Prod3(q.y, v.z, q.z) - 2.0 * Prod3(q.w, v.z, q.x) +
            2.0 * Prod3(q.y, v.x, q.x) + 2.0 * Prod3(q.w, v.x, q.z)
  {
    hide Prod3;
    var u := VecPart(q);
    Expanded(q.w, q.y, q.z, q.x, v.y, v.z, v.x, Dot(u, v), Dot(u, u), Cross(u, v).y);
  }

  lemma TransZ(v: Vec, q: Quat)
    ensures TransByQuat(v, q).z ==
            Prod3(q.z, v.z, q.z) + Prod3(q.w, v.z, q.w) - Prod3(q.x, v.z, q.x) - Prod3(q.y, v.z, q.y) +
            2.0 * Prod3(q.z, v.x, q.x) - 2.0 * Prod3(q.w, v.x, q.y) +
            2.0 * Prod3(q.z, v.y, q.y) + 2.0 * Prod3(q.w, v.y, q.x)
  {
    hide Prod3;
    var u := VecPart(q);
    Expanded(q.w, q.z, q.x, q.y, v.z, v.x, v.y, Dot(u, v), Dot(u, u), Cross(u, v).z);
  }

  lemma Flips(q: Quat, b: real)
    ensures Prod3(q.w, b, q.x) == Prod3(q.x, b, q.w) && Prod3(q.w, b, q.y) == Prod3(q.y, b, q.w)
    ensures Prod3(q.w, b, q.z) == Prod3(q.z, b, q.w) && Prod3(q.x, b, q.y) == Prod3(q.y, b, q.x)
    ensures Prod3(q.x, b, q.z) == Prod3(q.z, b, q.x) && Prod3(q.y, b, q.z) == Prod3(q.z, b, q.y)
  {
  }

  lemma NormTimes(q: Quat, k: real)
    ensures k * Norm2(q) == Prod3(q.w, k, q.w) + Prod3(q.x, k, q.x) + Prod3(q.y, k, q.y) + Prod3(q.z, k, q.z)
  {
  }

  lemma NegRight(a: real, b: real)
    ensures Prod(a, -b) == -Prod(a, b)
  {
  }

  lemma TimesAll(p: Quat, q: Quat, k: real)
    ensures Prod(Mul(p, q).w, k) == Prod3(p.w, q.w, k) - Prod3(p.x, q.x, k) - Prod3(p.y, q.y, k) - Prod3(p.z, q.z, k)
    ensures Prod(Mul(p, q).x, k) == Prod3(p.w, q.x, k) + Prod3(p.x, q.w, k) + Prod3(p.y, q.z, k) - Prod3(p.z, q.y, k)
    ensures Prod(Mul(p, q).y, k) == Prod3(p.w, q.y, k) - Prod3(p.x, q.z, k) + Prod3(p.y, q.w, k) + Prod3(p.z, q.x, k)
    ensures Prod(Mul(p, q).z, k) == Prod3(p.w, q.z, k) + Prod3(p.x, q.y, k) - Prod3(p.y, q.x, k) + Prod3(p.z, q.w, k)
  {
    TimesW(p, q, k); TimesX(p, q, k); TimesY(p, q, k); TimesZ(p, q, k);
  }

  /** The formula is the vector part of q p q*, whatever the scalar part of p. */
  lemma Sandwich(p: Quat, q: Quat)
    ensures var r := TransByQuat(VecPart(p), q);
            Mul(Mul(q, p), Conj(q)) == Quat(p.w * Norm2(q), r.x, r.y, r.z)
  {
    hide Mul, Prod, Prod3, Norm2, TransByQuat;
    var s := Mul(q, p);
    MulProd(s, Conj(q));
    TimesAll(q, p, q.w); TimesAll(q, p, q.x); TimesAll(q, p, q.y); TimesAll(q, p, q.z);
    NegRight(s.w, q.x); NegRight(s.w, q.y); NegRight(s.w, q.z);
    NegRight(s.x, q.x); NegRight(s.x, q.y); NegRight(s.x, q.z);
    NegRight(s.y, q.x); NegRight(s.y, q.y); NegRight(s.y, q.z);
    NegRight(s.z, q.x); NegRight(s.z, q.y); NegRight(s.z, q.z);
    Flips(q, p.w); Flips(q, p.x); Flips(q, p.y); Flips(q, p.z);
    NormTimes(q, p.w);
    TransX(VecPart(p), q); TransY(VecPart(p), q); TransZ(VecPart(p), q);
  }

  // ----- lengths and angles -----

  lemma {:induction false} SandwichPure(v: Vec, q: Quat)
    ensures Mul(Mul(q, Pure(v)), Conj(q)) == Pure(TransByQuat(v, q))
  {
    hide Mul, TransByQuat, Norm2;
    Sandwich(Pure(v), q);
  }

  lemma NormPure(v: Vec)
    ensures Norm2(Pure(v)) == Dot(v, v)
  {
  }

  lemma LengthScaled(v: Vec, q: Quat)
    ensures Dot(TransByQuat(v, q), TransByQuat(v, q)) == Norm2(q) * Norm2(q) * Dot(v, v)
  {
    hide Mul, TransByQuat, Norm2, Dot;
    SandwichPure(v, q);
    NormMul(Mul(q, Pure(v)), Conj(q));
    NormMul(q, Pure(v));
    NormConj(q);
    NormPure(v);
    NormPure(TransByQuat(v, q));
  }

  lemma Prod3Plus(q: Quat, a: real, b: real, k: real)
    requires k == a + b
    ensures Prod3(q.w, k, q.w) == Prod3(q.w, a, q.w) + Prod3(q.w, b, q.w)
    ensures Prod3(q.x, k, q.x) == Prod3(q.x, a, q.x) + Prod3(q.x, b, q.x)
    ensures Prod3(q.y, k, q.y) == Prod3(q.y, a, q.y) + Prod3(q.y, b, q.y)
    ensures Prod3(q.z, k, q.z) == Prod3(q.z, a, q.z) + Prod3(q.z, b, q.z)
    ensures Prod3(q.x, k, q.y) == Prod3(q.x, a, q.y) + Prod3(q.x, b, q.y)
    ensures Prod3(q.y, k, q.z) == Prod3(q.y, a, q.z) + Prod3(q.y, b, q.z)
    ensures Prod3(q.z, k, q.x) == Prod3(q.z, a, q.x) + Prod3(q.z, b, q.x)
    ensures Prod3(q.x, k, q.z) == Prod3(q.x, a, q.z) + Prod3(q.x, b, q.z)
    ensures Prod3(q.y, k, q.x) == Prod3(q.y, a, q.x) + Prod3(q.y, b, q.x)
    ensures Prod3(q.z, k, q.y) == Prod3(q.z, a, q.y) + Prod3(q.z, b, q.y)
    ensures Prod3(q.w, k, q.x) == Prod3(q.w, a, q.x) + Prod3(q.w, b, q.x)
    ensures Prod3(q.w, k, q.y) == Prod3(q.w, a, q.y) + Prod3(q.w, b, q.y)
    ensures Prod3(q.w, k, q.z) == Prod3(q.w, a, q.z) + Prod3(q.w, b, q.z)
  {
  }

  lemma Prod3Neg(q: Quat, a: real)
    ensures Prod3(q.w, -a, q.w) == -Prod3(q.w, a, q.w)
    ensures Prod3(q.x, -a, q.x) == -Prod3(q.x, a, q.x)
    ensures Prod3(q.y, -a, q.y) == -Prod3(q.y, a, q.y)
    ensures Prod3(q.z, -a, q.z) == -Prod3(q.z, a, q.z)
    ensures Prod3(q.x, -a, q.y) == -Prod3(q.x, a, q.y)
    ensures Prod3(q.y, -a, q.z) == -Prod3(q.y, a, q.z)
    ensures Prod3(q.z, -a, q.x) == -Prod3(q.z, a, q.x)
    ensures Prod3(q.x, -a, q.z) == -Prod3(q.x, a, q.z)
    ensures Prod3(q.y, -a, q.x) == -Prod3(q.y, a, q.x)
    ensures Prod3(q.z, -a, q.y) == -Prod3(q.z, a, q.y)
    ensures Prod3(q.w, -a, q.x) == -Prod3(q.w, a, q.x)
    ensures Prod3(q.w, -a, q.y) == -Prod3(q.w, a, q.y)
    ensures Prod3(q.w, -a, q.z) == -Prod3(q.w, a, q.z)
  {
  }

  lemma Additive(a: Vec, b: Vec, q: Quat)
    ensures TransByQuat(Plus(a, b), q) == Plus(TransByQuat(a, q), TransByQuat(b, q))
  {
    hide TransByQuat, Prod3;
    TransX(a, q); TransY(a, q); TransZ(a, q);
    TransX(b, q); TransY(b, q); TransZ(b, q);
    TransX(Plus(a, b), q); TransY(Plus(a, b), q); TransZ(Plus(a, b), q);
    Prod3Plus(q, a.x, b.x, a.x + b.x);
    Prod3Plus(q, a.y, b.y, a.y + b.y);
    Prod3Plus(q, a.z, b.z, a.z + b.z);
  }

  lemma Polarized(a: Vec, b: Vec)
    ensures Dot(Plus(a, b), Plus(a, b)) == Dot(a, a) + 2.0 * Dot(a, b) + Dot(b, b)
  {
  }

  /** Every dot product is multiplied by |q|^4; so a unit quaternion keeps lengths and angles. */
  lemma DotScaled(a: Vec, b: Vec, q: Quat)
    ensures Dot(TransByQuat(a, q), TransByQuat(b, q)) == Norm2(q) * Norm2(q) * Dot(a, b)
  {
    hide TransByQuat, Norm2, Dot, Plus;
    LengthScaled(a, q);
    LengthScaled(b, q);
    LengthScaled(Plus(a, b), q);
    Additive(a, b, q);
    Polarized(a, b);
    Polarized(TransByQuat(a, q), TransByQuat(b, q));
  }

  // ----- composition -----

  /** Rotating by `q` and then by `p` is rotating by their product. */
  lemma Composes(v: Vec, p: Quat, q: Quat)
    ensures TransByQuat(TransByQuat(v, q), p) == TransByQuat(v, Mul(p, q))
  {
    hide Mul, TransByQuat;
    var x := Pure(v);
    var qx := Mul(q, x);
    SandwichPure(v, q);
    SandwichPure(TransByQuat(v, q), p);
    SandwichPure(v, Mul(p, q));
    ConjMul(p, q);
    MulAssoc(p, qx, Conj(q));
    MulAssoc(p, q, x);
    MulAssoc(Mul(p, qx), Conj(q), Conj(p));
  }

  /** The conjugate undoes a rotation, up to |q|^4. */
  lemma ConjugateUndoes(v: Vec, q: Quat)
    ensures TransByQuat(TransByQuat(v, q), Conj(q)) == Scale(Norm2(q) * Norm2(q), v)
  {
    hide Mul, TransByQuat, Norm2;
    Composes(v, Conj(q), q);
    ConjCancels(q);
    RealRotation(v, Norm2(q));
  }

  lemma RealRotation(v: Vec, k: real)
    ensures TransByQuat(v, Real(k)) == Scale(k * k, v)
  {
    hide Mul, TransByQuat;
    SandwichPure(v, Real(k));
    assert Conj(Real(k)) == Real(k);
    RealFactor(k, Pure(v));
    RealFactor(k, ScaleQ(k, Pure(v)));
  }

  // ----- orientation -----

  lemma InnerCancels(a: Quat, b: Quat, q: Quat)
    ensures Mul(Mul(Mul(q, a), Conj(q)), Mul(Mul(q, b), Conj(q))) ==
            ScaleQ(Norm2(q), Mul(Mul(q, Mul(a, b)), Conj(q)))
  {
    hide Mul, Norm2, ScaleQ;
    var qa, c, n := Mul(q, a), Conj(q), Norm2(q);
    MulAssoc(qa, c, Mul(Mul(q, b), c));
    MulAssoc(q, b, c);
    MulAssoc(c, q, Mul(b, c));
    ConjCancels(q);
    RealFactor(n, Mul(b, c));
    MulAssoc(qa, Real(n), Mul(b, c));
    RealFactor(n, qa);
    ScaleMul(n, qa, Mul(b, c));
    MulAssoc(q, a, Mul(b, c));
    MulAssoc(a, b, c);
    MulAssoc(q, Mul(a, b), c);
  }

  /** Cross products are kept up to |q|^2: a unit quaternion keeps the orientation of space. */
  lemma CrossScaled(a: Vec, b: Vec, q: Quat)
    ensures Cross(TransByQuat(a, q), TransByQuat(b, q)) == Scale(Norm2(q), TransByQuat(Cross(a, b), q))
  {
    hide Mul, TransByQuat, Norm2, Cross, Dot;
    SandwichPure(a, q);
    SandwichPure(b, q);
    InnerCancels(Pure(a), Pure(b), q);
    PureProduct(TransByQuat(a, q), TransByQuat(b, q));
    PureProduct(a, b);
    Sandwich(Mul(Pure(a), Pure(b)), q);
  }

  // ----- the frame -----

  predicate Orthonormal(a: Vec, b: Vec, c: Vec) {
    && Dot(a, a) == 1.0 && Dot(b, b) == 1.0 && Dot(c, c) == 1.0
    && Dot(a, b) == 0.0 && Dot(b, c) == 0.0 && Dot(c, a) == 0.0
  }

  const RIGHT := Vec(1.0, 0.0, 0.0)
  const UP := Vec(0.0, 1.0, 0.0)
  const FORWARD := Vec(0.0, 0.0, -1.0)

  /** The sense of a rotation: a quarter turn about the unit vector `u` takes each vector `v` at right
      angles to it to u x v. The quaternion is not a unit, so lengths double. */
  lemma QuarterTurn(u: Vec, v: Vec)
    requires Dot(u, u) == 1.0 && Dot(u, v) == 0.0
    ensures TransByQuat(v, Quat(1.0, u.x, u.y, u.z)) == Scale(2.0, Cross(u, v))
  {
    hide Dot, Cross;
    assert Vec(u.x, u.y, u.z) == u;
    assert Scale(2.0 * 0.0, u) == Scale(1.0 * 1.0 - 1.0, v) == Vec(0.0, 0.0, 0.0);
  }

  /** The rotation part of `TransformInfo`. */
  class TransformInfo {
    var rot: Quat
    var right: Vec
    var up: Vec
    var forward: Vec

    constructor (rot: Quat)
      ensures this.rot == rot && right == RIGHT && up == UP && forward == FORWARD
    {
      this.rot := rot;
      right, up, forward := RIGHT, UP, FORWARD;
    }

    /** For a unit rotation the three vectors are orthonormal and right-handed, and rotating them
        back gives the axes. */
    method BuildVecs()
      modifies this`right, this`up, this`forward
      ensures right == TransByQuat(RIGHT, rot) && up == TransByQuat(UP, rot) && forward == TransByQuat(FORWARD, rot)
      ensures Norm2(rot) == 1.0 ==> Orthonormal(right, up, forward) && Cross(right, up) == Neg(forward)
      ensures Norm2(rot) == 1.0 ==> TransByQuat(right, Conj(rot)) == RIGHT && TransByQuat(up, Conj(rot)) == UP &&
                                    TransByQuat(forward, Conj(rot)) == FORWARD
    {
      hide TransByQuat, Norm2;
      right := TransByQuat(Vec(1.0, 0.0, 0.0), rot);
      up := TransByQuat(Vec(0.0, 1.0, 0.0), rot);
      forward := TransByQuat(Vec(0.0, 0.0, -1.0), rot);
      FrameOf(rot);
    }
  }

  lemma Negated(v: Vec, q: Quat)
    ensures TransByQuat(Neg(v), q) == Neg(TransByQuat(v, q))
  {
    hide TransByQuat, Prod3;
    TransX(v, q); TransY(v, q); TransZ(v, q);
    TransX(Neg(v), q); TransY(Neg(v), q); TransZ(Neg(v), q);
    Prod3Neg(q, v.x);
    Prod3Neg(q, v.y);
    Prod3Neg(q, v.z);
  }

  lemma FrameOf(q: Quat)
    ensures var r, u, f := TransByQuat(RIGHT, q), TransByQuat(UP, q), TransByQuat(FORWARD, q);
            Norm2(q) == 1.0 ==>
              && Orthonormal(r, u, f) && Cross(r, u) == Neg(f)
              && TransByQuat(r, Conj(q)) == RIGHT && TransByQuat(u, Conj(q)) == UP && TransByQuat(f, Conj(q)) == FORWARD
  {
    hide TransByQuat, Norm2;
    DotScaled(RIGHT, RIGHT, q);
    DotScaled(UP, UP, q);
    DotScaled(FORWARD, FORWARD, q);
    DotScaled(RIGHT, UP, q);
    DotScaled(UP, FORWARD, q);
    DotScaled(FORWARD, RIGHT, q);
    CrossScaled(RIGHT, UP, q);
    assert Cross(RIGHT, UP) == Neg(FORWARD);
    Negated(FORWARD, q);
    ConjugateUndoes(RIGHT, q);
    ConjugateUndoes(UP, q);
    ConjugateUndoes(FORWARD, q);
  }
}
