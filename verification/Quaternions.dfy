/** Real vectors and quaternions: the algebra behind src/stms/camera.cpp. */
module Quaternions {

  datatype Vec = Vec(x: real, y: real, z: real)
  datatype Quat = Quat(w: real, x: real, y: real, z: real)

  function Dot(a: Vec, b: Vec): real {
    a.x * b.x + a.y * b.y + a.z * b.z
  }

  function Cross(a: Vec, b: Vec): Vec {
    Vec(a.y * b.z - a.z * b.y, a.z * b.x - a.x * b.z, a.x * b.y - a.y * b.x)
  }

  function Plus(a: Vec, b: Vec): Vec {
    Vec(a.x + b.x, a.y + b.y, a.z + b.z)
  }

  function Neg(a: Vec): Vec {
    Vec(-a.x, -a.y, -a.z)
  }

  function Scale(k: real, a: Vec): Vec {
    Vec(k * a.x, k * a.y, k * a.z)
  }

  /** The Hamilton product. */
  function Mul(p: Quat, q: Quat): Quat {
    Quat(p.w * q.w - p.x * q.x - p.y * q.y - p.z * q.z,
         p.w * q.x + p.x * q.w + p.y * q.z - p.z * q.y,
         p.w * q.y - p.x * q.z + p.y * q.w + p.z * q.x,
         p.w * q.z + p.x * q.y - p.y * q.x + p.z * q.w)
  }

  function Conj(q: Quat): Quat {
    Quat(q.w, -q.x, -q.y, -q.z)
  }

  function Norm2(q: Quat): real {
    q.w * q.w + q.x * q.x + q.y * q.y + q.z * q.z
  }

  function Pure(v: Vec): Quat {
    Quat(0.0, v.x, v.y, v.z)
  }

  function VecPart(q: Quat): Vec {
    Vec(q.x, q.y, q.z)
  }

  function Real(k: real): Quat {
    Quat(k, 0.0, 0.0, 0.0)
  }

  function ScaleQ(k: real, q: Quat): Quat {
    Quat(k * q.w, k * q.x, k * q.y, k * q.z)
  }

  // Products under a name: with their meaning hidden, the associative law is linear arithmetic.

  function Prod(a: real, b: real): real {
    a * b
  }

  function Prod3(a: real, b: real, c: real): real {
    a * b * c
  }

  lemma Turned(a: real, b: real)
    ensures Prod(a, b) == Prod(b, a) == Prod(-a, -b)
    ensures Prod(-a, b) == -Prod(b, a) == Prod(a, -b)
  {
  }

  lemma Zero(a: real)
    ensures Prod(a, 0.0) == 0.0 == Prod(0.0, a)
  {
  }

  lemma Nested(a: real, b: real, k: real)
    ensures Prod(Prod(a, b), k) == Prod3(a, b, k) && Prod(k, Prod(a, b)) == Prod3(k, a, b)
  {
  }

  lemma SumTimes(s: real, a: real, b: real, c: real, d: real, k: real)
    requires s == a + b + c - d
    ensures Prod(s, k) == Prod(a, k) + Prod(b, k) + Prod(c, k) - Prod(d, k)
    ensures Prod(k, s) == Prod(k, a) + Prod(k, b) + Prod(k, c) - Prod(k, d)
  {
  }

  lemma DifferenceTimes(s: real, a: real, b: real, c: real, d: real, k: real)
    requires s == a - b - c - d
    ensures Prod(s, k) == Prod(a, k) - Prod(b, k) - Prod(c, k) - Prod(d, k)
    ensures Prod(k, s) == Prod(k, a) - Prod(k, b) - Prod(k, c) - Prod(k, d)
  {
  }

  lemma MulProd(p: Quat, q: Quat)
    ensures Mul(p, q) ==
            Quat(Prod(p.w, q.w) - Prod(p.x, q.x) - Prod(p.y, q.y) - Prod(p.z, q.z),
                 Prod(p.w, q.x) + Prod(p.x, q.w) + Prod(p.y, q.z) - Prod(p.z, q.y),
                 Prod(p.w, q.y) - Prod(p.x, q.z) + Prod(p.y, q.w) + Prod(p.z, q.x),
                 Prod(p.w, q.z) + Prod(p.x, q.y) - Prod(p.y, q.x) + Prod(p.z, q.w))
  {
  }

  lemma TimesW(p: Quat, q: Quat, k: real)
    ensures Prod(Mul(p, q).w, k) == Prod3(p.w, q.w, k) - Prod3(p.x, q.x, k) - Prod3(p.y, q.y, k) - Prod3(p.z, q.z, k)
    ensures Prod(k, Mul(p, q).w) == Prod3(k, p.w, q.w) - Prod3(k, p.x, q.x) - Prod3(k, p.y, q.y) - Prod3(k, p.z, q.z)
  {
    hide Mul, Prod, Prod3;
    MulProd(p, q);
    DifferenceTimes(Mul(p, q).w, Prod(p.w, q.w), Prod(p.x, q.x), Prod(p.y, q.y), Prod(p.z, q.z), k);
    Nested(p.w, q.w, k); Nested(p.x, q.x, k); Nested(p.y, q.y, k); Nested(p.z, q.z, k);
  }

  lemma TimesX(p: Quat, q: Quat, k: real)
    ensures Prod(Mul(p, q).x, k) == Prod3(p.w, q.x, k) + Prod3(p.x, q.w, k) + Prod3(p.y, q.z, k) - Prod3(p.z, q.y, k)
    ensures Prod(k, Mul(p, q).x) == Prod3(k, p.w, q.x) + Prod3(k, p.x, q.w) + Prod3(k, p.y, q.z) - Prod3(k, p.z, q.y)
  {
    hide Mul, Prod, Prod3;
    MulProd(p, q);
    SumTimes(Mul(p, q).x, Prod(p.w, q.x), Prod(p.x, q.w), Prod(p.y, q.z), Prod(p.z, q.y), k);
    Nested(p.w, q.x, k); Nested(p.x, q.w, k); Nested(p.y, q.z, k); Nested(p.z, q.y, k);
  }

  lemma TimesY(p: Quat, q: Quat, k: real)
    ensures Prod(Mul(p, q).y, k) == Prod3(p.w, q.y, k) - Prod3(p.x, q.z, k) + Prod3(p.y, q.w, k) + Prod3(p.z, q.x, k)
    ensures Prod(k, Mul(p, q).y) == Prod3(k, p.w, q.y) - Prod3(k, p.x, q.z) + Prod3(k, p.y, q.w) + Prod3(k, p.z, q.x)
  {
    hide Mul, Prod, Prod3;
    MulProd(p, q);
    SumTimes(Mul(p, q).y, Prod(p.w, q.y), Prod(p.y, q.w), Prod(p.z, q.x), Prod(p.x, q.z), k);
    Nested(p.w, q.y, k); Nested(p.x, q.z, k); Nested(p.y, q.w, k); Nested(p.z, q.x, k);
  }

  lemma TimesZ(p: Quat, q: Quat, k: real)
    ensures Prod(Mul(p, q).z, k) == Prod3(p.w, q.z, k) + Prod3(p.x, q.y, k) - Prod3(p.y, q.x, k) + Prod3(p.z, q.w, k)
    ensures Prod(k, Mul(p, q).z) == Prod3(k, p.w, q.z) + Prod3(k, p.x, q.y) - Prod3(k, p.y, q.x) + Prod3(k, p.z, q.w)
  {
    hide Mul, Prod, Prod3;
    MulProd(p, q);
    SumTimes(Mul(p, q).z, Prod(p.w, q.z), Prod(p.x, q.y), Prod(p.z, q.w), Prod(p.y, q.x), k);
    Nested(p.w, q.z, k); Nested(p.x, q.y, k); Nested(p.y, q.x, k); Nested(p.z, q.w, k);
  }

  lemma AssocW(p: Quat, q: Quat, r: Quat)
    ensures var s, t := Mul(p, q), Mul(q, r);
            Prod(s.w, r.w) - Prod(s.x, r.x) - Prod(s.y, r.y) - Prod(s.z, r.z) ==
            Prod(p.w, t.w) - Prod(p.x, t.x) - Prod(p.y, t.y) - Prod(p.z, t.z)
  {
    hide Mul, Prod, Prod3;
    TimesW(p, q, r.w);
    TimesX(p, q, r.x);
    TimesY(p, q, r.y);
    TimesZ(p, q, r.z);
    TimesW(q, r, p.w);
    TimesX(q, r, p.x);
    TimesY(q, r, p.y);
    TimesZ(q, r, p.z);
  }

  lemma AssocX(p: Quat, q: Quat, r: Quat)
    ensures var s, t := Mul(p, q), Mul(q, r);
            Prod(s.w, r.x) + Prod(s.x, r.w) + Prod(s.y, r.z) - Prod(s.z, r.y) ==
            Prod(p.w, t.x) + Prod(p.x, t.w) + Prod(p.y, t.z) - Prod(p.z, t.y)
  {
    hide Mul, Prod, Prod3;
    TimesW(p, q, r.x);
    TimesX(p, q, r.w);
    TimesY(p, q, r.z);
    TimesZ(p, q, r.y);
    TimesX(q, r, p.w);
    TimesW(q, r, p.x);
    TimesZ(q, r, p.y);
    TimesY(q, r, p.z);
  }

  lemma AssocY(p: Quat, q: Quat, r: Quat)
    ensures var s, t := Mul(p, q), Mul(q, r);
            Prod(s.w, r.y) - Prod(s.x, r.z) + Prod(s.y, r.w) + Prod(s.z, r.x) ==
            Prod(p.w, t.y) - Prod(p.x, t.z) + Prod(p.y, t.w) + Prod(p.z, t.x)
  {
    hide Mul, Prod, Prod3;
    TimesW(p, q, r.y);
    TimesX(p, q, r.z);
    TimesY(p, q, r.w);
    TimesZ(p, q, r.x);
    TimesY(q, r, p.w);
    TimesZ(q, r, p.x);
    TimesW(q, r, p.y);
    TimesX(q, r, p.z);
  }

  lemma AssocZ(p: Quat, q: Quat, r: Quat)
    ensures var s, t := Mul(p, q), Mul(q, r);
            Prod(s.w, r.z) + Prod(s.x, r.y) - Prod(s.y, r.x) + Prod(s.z, r.w) ==
            Prod(p.w, t.z) + Prod(p.x, t.y) - Prod(p.y, t.x) + Prod(p.z, t.w)
  {
    hide Mul, Prod, Prod3;
    TimesW(p, q, r.z);
    TimesX(p, q, r.y);
    TimesY(p, q, r.x);
    TimesZ(p, q, r.w);
    TimesZ(q, r, p.w);
    TimesY(q, r, p.x);
    TimesX(q, r, p.y);
    TimesW(q, r, p.z);
  }

  lemma MulAssoc(p: Quat, q: Quat, r: Quat)
    ensures Mul(Mul(p, q), r) == Mul(p, Mul(q, r))
  {
    hide Mul, Prod;
    MulProd(Mul(p, q), r);
    MulProd(p, Mul(q, r));
    AssocW(p, q, r);
    AssocX(p, q, r);
    AssocY(p, q, r);
    AssocZ(p, q, r);
  }

  lemma ConjMul(p: Quat, q: Quat)
    ensures Conj(Mul(p, q)) == Mul(Conj(q), Conj(p))
  {
    hide Mul, Prod;
    MulProd(p, q);
    MulProd(Conj(q), Conj(p));
    Turned(q.w, p.w); Turned(q.w, p.x); Turned(q.w, p.y); Turned(q.w, p.z);
    Turned(q.x, p.w); Turned(q.x, p.x); Turned(q.x, p.y); Turned(q.x, p.z);
    Turned(q.y, p.w); Turned(q.y, p.x); Turned(q.y, p.y); Turned(q.y, p.z);
    Turned(q.z, p.w); Turned(q.z, p.x); Turned(q.z, p.y); Turned(q.z, p.z);
  }

  lemma NormProd(q: Quat)
    ensures Norm2(q) == Prod(q.w, q.w) + Prod(q.x, q.x) + Prod(q.y, q.y) + Prod(q.z, q.z)
  {
  }

  lemma ConjCancels(q: Quat)
    ensures Mul(Conj(q), q) == Real(Norm2(q)) && Mul(q, Conj(q)) == Real(Norm2(q))
  {
    hide Mul, Prod, Norm2;
    MulProd(Conj(q), q);
    MulProd(q, Conj(q));
    NormProd(q);
    Turned(q.w, q.w); Turned(q.w, q.x); Turned(q.w, q.y); Turned(q.w, q.z);
    Turned(q.x, q.w); Turned(q.x, q.x); Turned(q.x, q.y); Turned(q.x, q.z);
    Turned(q.y, q.w); Turned(q.y, q.x); Turned(q.y, q.y); Turned(q.y, q.z);
    Turned(q.z, q.w); Turned(q.z, q.x); Turned(q.z, q.y); Turned(q.z, q.z);
  }

  lemma NormConj(q: Quat)
    ensures Norm2(Conj(q)) == Norm2(q)
  {
    hide Prod, Norm2;
    NormProd(q);
    NormProd(Conj(q));
    Turned(q.x, q.x); Turned(q.y, q.y); Turned(q.z, q.z);
  }

  lemma ScaleProd(k: real, q: Quat)
    ensures ScaleQ(k, q) == Quat(Prod(k, q.w), Prod(k, q.x), Prod(k, q.y), Prod(k, q.z))
  {
  }

  lemma RealFactor(k: real, p: Quat)
    ensures Mul(p, Real(k)) == ScaleQ(k, p) == Mul(Real(k), p)
  {
    hide Mul, Prod, ScaleQ;
    MulProd(p, Real(k));
    MulProd(Real(k), p);
    ScaleProd(k, p);
    Zero(p.w); Zero(p.x); Zero(p.y); Zero(p.z);
    Turned(k, p.w); Turned(k, p.x); Turned(k, p.y); Turned(k, p.z);
  }

  lemma ScaleMul(k: real, p: Quat, q: Quat)
    ensures Mul(ScaleQ(k, p), q) == ScaleQ(k, Mul(p, q))
  {
    hide Mul, ScaleQ;
    RealFactor(k, p);
    RealFactor(k, Mul(p, q));
    MulAssoc(Real(k), p, q);
  }

  lemma NormMul(p: Quat, q: Quat)
    ensures Norm2(Mul(p, q)) == Norm2(p) * Norm2(q)
  {
    hide Mul, Norm2;
    ConjCancels(Mul(p, q));
    ConjMul(p, q);
    MulAssoc(p, q, Mul(Conj(q), Conj(p)));
    MulAssoc(q, Conj(q), Conj(p));
    ConjCancels(q);
    RealFactor(Norm2(q), Conj(p));
    RealFactor(Norm2(q), p);
    MulAssoc(p, Real(Norm2(q)), Conj(p));
    ScaleMul(Norm2(q), p, Conj(p));
    ConjCancels(p);
  }

  lemma PureProduct(u: Vec, v: Vec)
    ensures Mul(Pure(u), Pure(v)) == Quat(-Dot(u, v), Cross(u, v).x, Cross(u, v).y, Cross(u, v).z)
  {
    hide Mul;
    MulProd(Pure(u), Pure(v));
  }
}
