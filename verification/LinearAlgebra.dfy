/** Vectors and matrices over the reals, as far as the baseline trainer and the
    bilateral network need them. Sums are indexed by a bound rather than by
    slices, so that a loop accumulating one is an instance of the definition. */
module LinearAlgebra {
  type Vec = seq<real>
  type Mat = seq<seq<real>>

  ghost predicate IsMat(m: Mat, rows: nat, cols: nat) {
    |m| == rows && forall i :: 0 <= i < rows ==> |m[i]| == cols
  }

  function Zeros(n: nat): (z: Vec)
    ensures |z| == n && forall i :: 0 <= i < n ==> z[i] == 0.0
  {
    seq(n, _ => 0.0)
  }

  /** x + a*y, component by component. */
  function Axpy(x: Vec, a: real, y: Vec): (z: Vec)
    requires |x| == |y|
    ensures |z| == |x| && forall i :: 0 <= i < |x| ==> z[i] == x[i] + a * y[i]
  {
    seq(|x|, i requires 0 <= i < |x| => x[i] + a * y[i])
  }

  function Scale(a: real, x: Vec): (z: Vec)
    ensures |z| == |x| && forall i :: 0 <= i < |x| ==> z[i] == x[i] * a
  {
    seq(|x|, i requires 0 <= i < |x| => x[i] * a)
  }

  /** Sum of x[i]*y[i] for i below n. */
  function DotTo(x: Vec, y: Vec, n: nat): real
    requires n <= |x| && n <= |y|
    decreases x, n
  {
    if n == 0 then 0.0 else DotTo(x, y, n - 1) + x[n - 1] * y[n - 1]
  }

  function Dot(x: Vec, y: Vec): real
    requires |x| == |y|
  {
    DotTo(x, y, |x|)
  }

  function MatVec(m: Mat, x: Vec): (y: Vec)
    requires forall i :: 0 <= i < |m| ==> |m[i]| == |x|
    ensures |y| == |m| && forall i :: 0 <= i < |m| ==> y[i] == Dot(m[i], x)
  {
    seq(|m|, i requires 0 <= i < |m| => Dot(m[i], x))
  }

  /** The Frobenius inner product of the first n rows. */
  ghost function FrobTo(a: Mat, b: Mat, n: nat): real
    requires n <= |a| && n <= |b|
    requires forall i :: 0 <= i < n ==> |a[i]| == |b[i]|
    decreases a, n
  {
    if n == 0 then 0.0 else FrobTo(a, b, n - 1) + Dot(a[n - 1], b[n - 1])
  }

  ghost function Frob(a: Mat, b: Mat): real
    requires |a| == |b|
    requires forall i :: 0 <= i < |a| ==> |a[i]| == |b[i]|
  {
    FrobTo(a, b, |a|)
  }

  function Abs(x: real): real { if x < 0.0 then -x else x }

  /** The L1 norm of the first n components. */
  ghost function L1To(x: Vec, n: nat): real
    requires n <= |x|
    decreases x, n
  {
    if n == 0 then 0.0 else L1To(x, n - 1) + Abs(x[n - 1])
  }

  ghost function L1(x: Vec): real { L1To(x, |x|) }

  lemma {:induction false} DotCommutes(x: Vec, y: Vec, n: nat)
    requires n <= |x| && n <= |y|
    ensures DotTo(x, y, n) == DotTo(y, x, n)
  {
    if n > 0 { DotCommutes(x, y, n - 1); }
  }

  lemma {:induction false} DotAxpyTo(x: Vec, a: real, y: Vec, z: Vec, n: nat)
    requires |x| == |y| == |z| && n <= |x|
    ensures DotTo(Axpy(x, a, y), z, n) == DotTo(x, z, n) + a * DotTo(y, z, n)
  {
    if n > 0 {
      DotAxpyTo(x, a, y, z, n - 1);
      assert (x[n - 1] + a * y[n - 1]) * z[n - 1] == x[n - 1] * z[n - 1] + a * (y[n - 1] * z[n - 1]);
    }
  }

  /** The inner product is linear in its first argument. */
  lemma DotAxpy(x: Vec, a: real, y: Vec, z: Vec)
    requires |x| == |y| == |z|
    ensures Dot(Axpy(x, a, y), z) == Dot(x, z) + a * Dot(y, z)
    ensures Dot(z, Axpy(x, a, y)) == Dot(z, x) + a * Dot(z, y)
  {
    DotAxpyTo(x, a, y, z, |x|);
    DotCommutes(Axpy(x, a, y), z, |x|);
    DotCommutes(x, z, |x|);
    DotCommutes(y, z, |x|);
  }

  /** Squared norm of x + a*y. */
  lemma NormAxpy(x: Vec, a: real, y: Vec)
    requires |x| == |y|
    ensures Dot(Axpy(x, a, y), Axpy(x, a, y)) == Dot(x, x) + 2.0 * a * Dot(x, y) + a * a * Dot(y, y)
  {
    var z := Axpy(x, a, y);
    DotAxpy(x, a, y, z);
    DotAxpy(x, a, y, x);
    DotAxpy(x, a, y, y);
    DotCommutes(x, y, |x|);
    assert Dot(z, z) == Dot(x, z) + a * Dot(y, z);
    assert a * (Dot(y, x) + a * Dot(y, y)) == a * Dot(y, x) + a * a * Dot(y, y);
  }

  lemma {:induction false} DotSelfNonNegative(x: Vec, n: nat)
    requires n <= |x|
    ensures DotTo(x, x, n) >= 0.0
  {
    if n > 0 {
      DotSelfNonNegative(x, n - 1);
      assert x[n - 1] * x[n - 1] >= 0.0;
    }
  }

  lemma {:induction false} FrobSelfNonNegative(a: Mat, n: nat)
    requires n <= |a|
    ensures FrobTo(a, a, n) >= 0.0
  {
    if n > 0 {
      FrobSelfNonNegative(a, n - 1);
      DotSelfNonNegative(a[n - 1], |a[n - 1]|);
    }
  }

  /** Replacing one row moves the inner product by that row's share only. */
  lemma {:induction false} FrobReplaceRow(u: Mat, w: Mat, r: nat, v: Vec, n: nat)
    requires n <= |u| == |w| && r < |w| && |v| == |w[r]|
    requires forall i :: 0 <= i < |w| ==> |u[i]| == |w[i]|
    ensures FrobTo(u, w[r := v], n) ==
            FrobTo(u, w, n) + (if r < n then Dot(u[r], v) - Dot(u[r], w[r]) else 0.0)
    ensures FrobTo(w[r := v], w[r := v], n) ==
            FrobTo(w, w, n) + (if r < n then Dot(v, v) - Dot(w[r], w[r]) else 0.0)
  {
    if n > 0 { FrobReplaceRow(u, w, r, v, n - 1); }
  }

  /** w - b*u, row by row. */
  ghost function MatAxpy(w: Mat, b: real, u: Mat): (z: Mat)
    requires |w| == |u| && forall i :: 0 <= i < |w| ==> |w[i]| == |u[i]|
    ensures |z| == |w| && forall i :: 0 <= i < |w| ==> z[i] == Axpy(w[i], b, u[i])
  {
    seq(|w|, i requires 0 <= i < |w| => Axpy(w[i], b, u[i]))
  }

  /** The squared norm of w + b*u, from the three inner products it is made of. */
  ghost function Quadratic(b: real, ww: real, uw: real, uu: real): real {
    ww + (2.0 * b) * uw + (b * b) * uu
  }

  lemma QuadraticAdds(b: real, ww: real, uw: real, uu: real, ww': real, uw': real, uu': real)
    ensures Quadratic(b, ww, uw, uu) + Quadratic(b, ww', uw', uu') == Quadratic(b, ww + ww', uw + uw', uu + uu')
  {
    var c, d := b * b, 2.0 * b;
    assert c * (uu + uu') == c * uu + c * uu';
    assert d * (uw + uw') == d * uw + d * uw';
  }

  lemma RowQuadratic(x: Vec, b: real, y: Vec)
    requires |x| == |y|
    ensures Dot(Axpy(x, b, y), Axpy(x, b, y)) == Quadratic(b, Dot(x, x), Dot(y, x), Dot(y, y))
  {
    NormAxpy(x, b, y);
    DotCommutes(x, y, |x|);
  }

  lemma {:induction false} FrobMatAxpy(w: Mat, b: real, u: Mat, n: nat)
    requires n <= |w| == |u| && forall i :: 0 <= i < |w| ==> |w[i]| == |u[i]|
    ensures FrobTo(MatAxpy(w, b, u), MatAxpy(w, b, u), n) ==
            Quadratic(b, FrobTo(w, w, n), FrobTo(u, w, n), FrobTo(u, u, n))
  {
    if n > 0 {
      FrobMatAxpy(w, b, u, n - 1);
      RowQuadratic(w[n - 1], b, u[n - 1]);
      QuadraticAdds(b, FrobTo(w, w, n - 1), FrobTo(u, w, n - 1), FrobTo(u, u, n - 1),
                    Dot(w[n - 1], w[n - 1]), Dot(u[n - 1], w[n - 1]), Dot(u[n - 1], u[n - 1]));
    }
  }

  /** Cauchy-Schwarz against a matrix of squared Frobenius norm at most u2. */
  lemma CauchySchwarz(u: Mat, w: Mat, u2: real)
    requires |u| == |w| && forall i :: 0 <= i < |w| ==> |u[i]| == |w[i]|
    requires u2 > 0.0 && Frob(u, u) <= u2
    ensures Frob(u, w) * Frob(u, w) <= u2 * Frob(w, w)
  {
    hide Frob, Quadratic;
    var b := Frob(u, w) / u2;
    DifferenceNorm(u, w, b);
    Discriminant(b, Frob(w, w), Frob(u, w), Frob(u, u), u2);
  }

  /** The squared norm of w - b*u. */
  lemma DifferenceNorm(u: Mat, w: Mat, b: real)
    requires |u| == |w| && forall i :: 0 <= i < |w| ==> |u[i]| == |w[i]|
    ensures Quadratic(-b, Frob(w, w), Frob(u, w), Frob(u, u)) >= 0.0
  {
    hide FrobTo, Quadratic;
    FrobMatAxpy(w, -b, u, |w|);
    FrobSelfNonNegative(MatAxpy(w, -b, u), |w|);
  }

  lemma Discriminant(b: real, ww: real, uw: real, uu: real, u2: real)
    requires u2 > 0.0 && uu <= u2 && b == uw / u2 && Quadratic(-b, ww, uw, uu) >= 0.0
    ensures uw * uw <= u2 * ww
  {
    assert b * u2 == uw;
    var q := b * b;
    assert q * (u2 - uu) >= 0.0;
    assert q * u2 == b * uw;
    assert ww - b * uw >= 0.0;
    assert u2 * (ww - b * uw) >= 0.0;
    assert u2 * (b * uw) == uw * uw;
  }

  /** A sum of squares is at most the square of the sum of magnitudes. */
  lemma {:induction false} SquaresBelowL1(x: Vec, n: nat)
    requires n <= |x|
    ensures L1To(x, n) >= 0.0
    ensures DotTo(x, x, n) <= L1To(x, n) * L1To(x, n)
  {
    if n > 0 {
      SquaresBelowL1(x, n - 1);
      var s, t := L1To(x, n - 1), Abs(x[n - 1]);
      assert t * t == x[n - 1] * x[n - 1];
      assert s * t >= 0.0;
      assert (s + t) * (s + t) == s * s + 2.0 * (s * t) + t * t;
    }
  }

  lemma {:induction false} L1ReplaceOne(x: Vec, i: nat, d: real, n: nat)
    requires i < |x| && n <= |x|
    ensures L1To(x[i := x[i] + d], n) <= L1To(x, n) + (if i < n then Abs(d) else 0.0)
  {
    if n > 0 { L1ReplaceOne(x, i, d, n - 1); }
  }
}
