/** The bilateral ladder network (bilateral/network.rs): an affine map and a
    squashing function, upwards then downwards, iterated. Over reals, with the
    squashing function a parameter. */
module Network {
  import opened LinearAlgebra

  /** A two-dimensional array and its shape. */
  datatype Array2 = Array2(nrows: nat, ncols: nat, rows: Mat) {
    ghost predicate Valid() { IsMat(rows, nrows, ncols) }
  }

  datatype Error = ZeroDimension | AscentNotSquare | DescentMismatch | BiasMismatch | InputMismatch

  datatype Result<+T> = Ok(value: T) | Err(error: Error)

  datatype Net = Net(dim: nat, tIter: nat, ascent: Mat, descent: Mat, bias: Vec) {
    ghost predicate Valid() {
      dim > 0 && IsMat(ascent, dim, dim) && IsMat(descent, dim, dim) && |bias| == dim
    }
  }

  /** The constructor accepts exactly the consistent shapes, and reports the
      first inconsistency in its fixed order. */
  function New(ascent: Array2, descent: Array2, bias: Vec, tIter: nat): (r: Result<Net>)
    requires ascent.Valid() && descent.Valid()
    ensures r.Ok? <==> ascent.nrows > 0 && ascent.ncols == descent.nrows == descent.ncols == |bias| == ascent.nrows
    ensures r.Ok? ==> r.value.Valid() && r.value == Net(ascent.nrows, tIter, ascent.rows, descent.rows, bias)
  {
    var dim := ascent.nrows;
    if dim == 0 then Err(ZeroDimension)
    else if ascent.ncols != dim then Err(AscentNotSquare)
    else if descent.nrows != dim || descent.ncols != dim then Err(DescentMismatch)
    else if |bias| != dim then Err(BiasMismatch)
    else Ok(Net(dim, tIter, ascent.rows, descent.rows, bias))
  }

  /** What is used of the hyperbolic tangent: values strictly inside (-1, 1), slope at most 1. */
  ghost predicate TanhLike(tanh: real -> real) {
    && (forall x :: -1.0 < tanh(x) < 1.0)
    && (forall x, y :: Abs(tanh(x) - tanh(y)) <= Abs(x - y))
  }

  function Squash(tanh: real -> real, v: Vec): (s: Vec)
    ensures |s| == |v| && forall i :: 0 <= i < |v| ==> s[i] == tanh(v[i])
  {
    seq(|v|, i requires 0 <= i < |v| => tanh(v[i]))
  }

  /** One direction: affine map, then squash. */
  function Half(m: Mat, bias: Vec, tanh: real -> real, h: Vec): (h': Vec)
    requires IsMat(m, |h|, |h|) && |bias| == |h|
    ensures |h'| == |h|
    ensures forall i :: 0 <= i < |h| ==> h'[i] == tanh(Dot(m[i], h) + 1.0 * bias[i])
  {
    Squash(tanh, Axpy(MatVec(m, h), 1.0, bias))
  }

  /** Up and down once. */
  function Round(net: Net, tanh: real -> real, h: Vec): (h': Vec)
    requires net.Valid() && |h| == net.dim
    ensures |h'| == net.dim
  {
    Half(net.descent, net.bias, tanh, Half(net.ascent, net.bias, tanh, h))
  }

  function Iterate(net: Net, tanh: real -> real, x: Vec, t: nat): (h: Vec)
    requires net.Valid() && |x| == net.dim
    ensures |h| == net.dim
  {
    if t == 0 then x else Round(net, tanh, Iterate(net, tanh, x, t - 1))
  }

  /** A round goes up by the ascent matrix and down by the descent matrix, with the
      bias and the squashing after each. */
  lemma RoundIsUpAndDown(net: Net, tanh: real -> real, h: Vec, up: Vec, i: nat)
    requires net.Valid() && |h| == |up| == net.dim && i < net.dim
    requires forall j :: 0 <= j < net.dim ==> up[j] == tanh(Dot(net.ascent[j], h) + net.bias[j])
    ensures Round(net, tanh, h)[i] == tanh(Dot(net.descent[i], up) + net.bias[i])
  {
    hide Dot;
    var u := Half(net.ascent, net.bias, tanh, h);
    forall j | 0 <= j < net.dim
      ensures u[j] == up[j]
    {
      assert 1.0 * net.bias[j] == net.bias[j];
    }
    assert u == up;
    assert 1.0 * net.bias[i] == net.bias[i];
  }

  method Forward(net: Net, tanh: real -> real, input: Vec) returns (r: Result<Vec>)
    requires net.Valid()
    ensures r == if |input| != net.dim then Err(InputMismatch) else Ok(Iterate(net, tanh, input, net.tIter))
  {
    if |input| != net.dim {
      return Err(InputMismatch);
    }
    var h := input;
    for t := 0 to net.tIter
      invariant |h| == net.dim && h == Iterate(net, tanh, input, t)
    {
      h := MatVec(net.ascent, h);
      h := Axpy(h, 1.0, net.bias);
      h := Squash(tanh, h);
      h := MatVec(net.descent, h);
      h := Axpy(h, 1.0, net.bias);
      h := Squash(tanh, h);
    }
    r := Ok(h);
  }

  // ---------------------------------------------------------------- stability

  /** Largest absolute row sum among the first n rows. */
  ghost function RowSumTo(m: Mat, n: nat): (l: real)
    requires n <= |m|
    ensures l >= 0.0 && forall i :: 0 <= i < n ==> L1(m[i]) <= l
    ensures l == 0.0 || exists i :: 0 <= i < n && L1(m[i]) == l
    decreases m, n
  {
    if n == 0 then 0.0
    else
      var l := RowSumTo(m, n - 1);
      if l < L1(m[n - 1]) then L1(m[n - 1]) else l
  }

  ghost function RowSum(m: Mat): real { RowSumTo(m, |m|) }

  /** Max-norm distance over the first n components. */
  ghost function DistTo(x: Vec, y: Vec, n: nat): (d: real)
    requires n <= |x| && n <= |y|
    ensures d >= 0.0 && forall i :: 0 <= i < n ==> Abs(x[i] - y[i]) <= d
    ensures d == 0.0 || exists i :: 0 <= i < n && Abs(x[i] - y[i]) == d
    decreases x, n
  {
    if n == 0 then 0.0
    else
      var d, e := DistTo(x, y, n - 1), Abs(x[n - 1] - y[n - 1]);
      if d < e then e else d
  }

  ghost function Dist(x: Vec, y: Vec): real
    requires |x| == |y|
  {
    DistTo(x, y, |x|)
  }

  /** How far one round can stretch a distance. */
  ghost function Gain(net: Net): real { RowSum(net.ascent) * RowSum(net.descent) }

  ghost function Power(b: real, t: nat): real { if t == 0 then 1.0 else Power(b, t - 1) * b }

  lemma ProductBound(a: real, e: real, d: real)
    requires Abs(e) <= d
    ensures Abs(a * e) <= Abs(a) * d
  {
    assert Abs(a) * (d - Abs(e)) >= 0.0;
    assert Abs(a * e) == Abs(a) * Abs(e);
  }

  lemma ScaleUp(a: real, b: real, d: real)
    requires a <= b && d >= 0.0
    ensures a * d <= b * d
    ensures d * a <= d * b
  {
    assert (b - a) * d >= 0.0;
  }

  /** One more term of two inner products with the same row. */
  lemma OneMoreTerm(p: real, q: real, l: real, a: real, x: real, y: real, d: real, p': real, q': real, l': real)
    requires Abs(p - q) <= l * d && Abs(x - y) <= d
    requires p' == p + a * x && q' == q + a * y && l' == l + Abs(a)
    ensures Abs(p' - q') <= l' * d
  {
    ProductBound(a, x - y, d);
    assert a * (x - y) == a * x - a * y;
    assert (l + Abs(a)) * d == l * d + Abs(a) * d;
  }

  lemma UnfoldSums(row: Vec, x: Vec, n: nat)
    requires |row| == |x| && 0 < n <= |x|
    ensures DotTo(row, x, n) == DotTo(row, x, n - 1) + row[n - 1] * x[n - 1]
    ensures L1To(row, n) == L1To(row, n - 1) + Abs(row[n - 1])
  {
  }

  /** The bound for n terms from the bound for n - 1. */
  lemma DotLipschitzStep(row: Vec, x: Vec, y: Vec, d: real, n: nat)
    requires |row| == |x| == |y| && 0 < n <= |x|
    requires Abs(x[n - 1] - y[n - 1]) <= d
    requires Abs(DotTo(row, x, n - 1) - DotTo(row, y, n - 1)) <= L1To(row, n - 1) * d
    ensures Abs(DotTo(row, x, n) - DotTo(row, y, n)) <= L1To(row, n) * d
  {
    hide DotTo, L1To, Abs;
    var p, q, l := DotTo(row, x, n - 1), DotTo(row, y, n - 1), L1To(row, n - 1);
    UnfoldSums(row, x, n);
    UnfoldSums(row, y, n);
    OneMoreTerm(p, q, l, row[n - 1], x[n - 1], y[n - 1], d, DotTo(row, x, n), DotTo(row, y, n), L1To(row, n));
  }

  lemma {:induction false} DotLipschitz(row: Vec, x: Vec, y: Vec, d: real, n: nat)
    requires |row| == |x| == |y| && n <= |x| && d >= 0.0
    requires forall i :: 0 <= i < n ==> Abs(x[i] - y[i]) <= d
    ensures Abs(DotTo(row, x, n) - DotTo(row, y, n)) <= L1To(row, n) * d
  {
    if n > 0 {
      hide DotTo, L1To;
      DotLipschitz(row, x, y, d, n - 1);
      hide Abs;
      DotLipschitzStep(row, x, y, d, n);
    }
  }

  lemma TanhStep(tanh: real -> real, p: real, q: real, b: real)
    requires TanhLike(tanh)
    ensures Abs(tanh(p + 1.0 * b) - tanh(q + 1.0 * b)) <= Abs(p - q)
  {
    assert Abs(tanh(p + 1.0 * b) - tanh(q + 1.0 * b)) <= Abs((p + 1.0 * b) - (q + 1.0 * b));
  }

  lemma OutputLipschitz(m: Mat, bias: Vec, tanh: real -> real, x: Vec, y: Vec, i: nat)
    requires TanhLike(tanh) && |x| == |y| && IsMat(m, |x|, |x|) && |bias| == |x| && i < |x|
    ensures Abs(Half(m, bias, tanh, x)[i] - Half(m, bias, tanh, y)[i]) <= RowSum(m) * Dist(x, y)
  {
    hide TanhLike, Half, Dot, Abs, RowSum, Dist;
    TanhStep(tanh, Dot(m[i], x), Dot(m[i], y), bias[i]);
    RowLipschitz(m, x, y, i);
  }

  lemma RowLipschitz(m: Mat, x: Vec, y: Vec, i: nat)
    requires |x| == |y| && IsMat(m, |x|, |x|) && i < |x|
    ensures Abs(Dot(m[i], x) - Dot(m[i], y)) <= RowSum(m) * Dist(x, y)
  {
    hide DotTo, L1To, Abs;
    DotLipschitz(m[i], x, y, Dist(x, y), |x|);
    hide DistTo, RowSumTo;
    ScaleUp(L1(m[i]), RowSum(m), Dist(x, y));
  }

  lemma DistBelow(x: Vec, y: Vec, b: real)
    requires |x| == |y| && b >= 0.0 && forall i :: 0 <= i < |x| ==> Abs(x[i] - y[i]) <= b
    ensures Dist(x, y) <= b
  {
    hide Abs;
  }

  lemma NonNegative(m: Mat, x: Vec, y: Vec)
    requires |x| == |y|
    ensures RowSum(m) >= 0.0 && Dist(x, y) >= 0.0 && RowSum(m) * Dist(x, y) >= 0.0
  {
    hide Abs, L1;
  }

  /** One direction stretches max-norm distances by at most the largest row sum. */
  lemma HalfLipschitz(m: Mat, bias: Vec, tanh: real -> real, x: Vec, y: Vec)
    requires TanhLike(tanh) && |x| == |y| && IsMat(m, |x|, |x|) && |bias| == |x|
    ensures Dist(Half(m, bias, tanh, x), Half(m, bias, tanh, y)) <= RowSum(m) * Dist(x, y)
  {
    hide TanhLike, Abs, Dist, RowSum, Dot, Half;
    var b := RowSum(m) * Dist(x, y);
    var hx, hy := Half(m, bias, tanh, x), Half(m, bias, tanh, y);
    NonNegative(m, x, y);
    forall i | 0 <= i < |x|
      ensures Abs(hx[i] - hy[i]) <= b
    {
      OutputLipschitz(m, bias, tanh, x, y, i);
    }
    DistBelow(hx, hy, b);
  }

  lemma RoundLipschitz(net: Net, tanh: real -> real, x: Vec, y: Vec)
    requires TanhLike(tanh) && net.Valid() && |x| == |y| == net.dim
    ensures Dist(Round(net, tanh, x), Round(net, tanh, y)) <= Gain(net) * Dist(x, y)
  {
    hide TanhLike, Dist, RowSum, Half;
    var ux, uy := Half(net.ascent, net.bias, tanh, x), Half(net.ascent, net.bias, tanh, y);
    HalfLipschitz(net.ascent, net.bias, tanh, x, y);
    HalfLipschitz(net.descent, net.bias, tanh, ux, uy);
    NonNegative(net.descent, ux, uy);
    Compose(RowSum(net.descent), Dist(ux, uy), RowSum(net.ascent), Dist(x, y));
  }

  lemma Compose(l: real, a: real, k: real, d: real)
    requires a <= k * d && l >= 0.0
    ensures l * a <= (k * l) * d
  {
    assert l * (k * d - a) >= 0.0;
    assert l * (k * d) == (k * l) * d;
  }

  /** The distance between the outputs for x and y is at most (La*Ld)^t times theirs. */
  lemma {:induction false} Stability(net: Net, tanh: real -> real, x: Vec, y: Vec, t: nat)
    requires TanhLike(tanh) && net.Valid() && |x| == |y| == net.dim
    ensures Dist(Iterate(net, tanh, x, t), Iterate(net, tanh, y, t)) <= Power(Gain(net), t) * Dist(x, y)
  {
    hide TanhLike, Dist, Gain, Round;
    if t > 0 {
      var hx, hy := Iterate(net, tanh, x, t - 1), Iterate(net, tanh, y, t - 1);
      Stability(net, tanh, x, y, t - 1);
      RoundLipschitz(net, tanh, hx, hy);
      GainNonNegative(net);
      Compose(Gain(net), Dist(hx, hy), Power(Gain(net), t - 1), Dist(x, y));
    }
  }

  lemma GainNonNegative(net: Net)
    ensures Gain(net) >= 0.0
  {
    hide L1;
    assert RowSum(net.ascent) >= 0.0 && RowSum(net.descent) >= 0.0;
  }

  /** After at least one round every output lies strictly inside (-1, 1). */
  lemma Bounded(net: Net, tanh: real -> real, x: Vec, t: nat, i: nat)
    requires TanhLike(tanh) && net.Valid() && |x| == net.dim && t >= 1 && i < net.dim
    ensures -1.0 < Iterate(net, tanh, x, t)[i] < 1.0
  {
    hide Dot, Abs;
    var u := Half(net.ascent, net.bias, tanh, Iterate(net, tanh, x, t - 1));
    hide Half;
    var arg := Dot(net.descent[i], u) + 1.0 * net.bias[i];
    assert Half(net.descent, net.bias, tanh, u)[i] == tanh(arg);
  }

  // ---------------------------------------------------------------- convergence

  lemma {:induction false} IterateAdds(net: Net, tanh: real -> real, x: Vec, m: nat, t: nat)
    requires net.Valid() && |x| == net.dim
    ensures Iterate(net, tanh, Iterate(net, tanh, x, m), t) == Iterate(net, tanh, x, m + t)
  {
    hide Round;
    if t > 0 { IterateAdds(net, tanh, x, m, t - 1); }
  }

  lemma Triangle(x: Vec, y: Vec, z: Vec)
    requires |x| == |y| == |z|
    ensures Dist(x, z) <= Dist(x, y) + Dist(y, z)
  {
    var b := Dist(x, y) + Dist(y, z);
    forall i | 0 <= i < |x|
      ensures Abs(x[i] - z[i]) <= b
    {
      assert Abs(x[i] - y[i]) <= Dist(x, y) && Abs(y[i] - z[i]) <= Dist(y, z);
    }
    assert Dist(x, y) >= 0.0 && Dist(y, z) >= 0.0;
    DistBelow(x, z, b);
  }

  lemma Product(a: real, b: real)
    requires a >= 0.0 && b >= 0.0
    ensures a * b >= 0.0
  {
  }

  /** One more term of a geometric series with ratio k. */
  lemma SeriesStep(k: real, d: real, before: real, after: real)
    requires 0.0 <= k < 1.0 && after <= d + k * before && (1.0 - k) * before <= d
    ensures (1.0 - k) * after <= d
  {
    var x, y := d + k * before - after, d - (1.0 - k) * before;
    Product(1.0 - k, x);
    Product(k, y);
    assert (1.0 - k) * x + k * y == d - (1.0 - k) * after;
  }

  /** A run never gets further from its input than a geometric series allows. */
  lemma {:induction false} StaysNear(net: Net, tanh: real -> real, x: Vec, t: nat)
    requires TanhLike(tanh) && net.Valid() && |x| == net.dim && Gain(net) < 1.0
    ensures (1.0 - Gain(net)) * Dist(x, Iterate(net, tanh, x, t)) <= Dist(x, Round(net, tanh, x))
  {
    GainNonNegative(net);
    hide TanhLike, Dist, Gain, Round;
    var d := Dist(x, Round(net, tanh, x));
    if t == 0 {
      SelfDist(x);
      DistNonNegative(x, Round(net, tanh, x));
      assert (1.0 - Gain(net)) * 0.0 == 0.0;
    } else {
      var h := Iterate(net, tanh, x, t - 1);
      StaysNear(net, tanh, x, t - 1);
      RoundLipschitz(net, tanh, x, h);
      Triangle(x, Round(net, tanh, x), Round(net, tanh, h));
      SeriesStep(Gain(net), d, Dist(x, h), Dist(x, Round(net, tanh, h)));
    }
  }

  lemma SelfDist(x: Vec)
    ensures Dist(x, x) == 0.0
  {
    SelfDistTo(x, |x|);
  }

  lemma {:induction false} SelfDistTo(x: Vec, n: nat)
    requires n <= |x|
    ensures DistTo(x, x, n) == 0.0
  {
    if n > 0 { SelfDistTo(x, n - 1); }
  }

  lemma DistNonNegative(x: Vec, y: Vec)
    requires |x| == |y|
    ensures Dist(x, y) >= 0.0
  {
  }

  /** From round s on, a run with gain below one moves no further than
      gain^s times its first step, over one minus the gain. */
  lemma Convergence(net: Net, tanh: real -> real, x: Vec, s: nat, t: nat)
    requires TanhLike(tanh) && net.Valid() && |x| == net.dim && Gain(net) < 1.0 && s <= t
    ensures (1.0 - Gain(net)) * Dist(Iterate(net, tanh, x, s), Iterate(net, tanh, x, t))
            <= Power(Gain(net), s) * Dist(x, Round(net, tanh, x))
  {
    GainNonNegative(net);
    hide TanhLike, Dist, Gain, Round, Iterate;
    var y := Iterate(net, tanh, x, t - s);
    IterateAdds(net, tanh, x, t - s, s);
    Stability(net, tanh, x, y, s);
    StaysNear(net, tanh, x, t - s);
    PowerNonNegative(Gain(net), s);
    Tail(1.0 - Gain(net), Dist(Iterate(net, tanh, x, s), Iterate(net, tanh, x, t)), Power(Gain(net), s), Dist(x, y),
         Dist(x, Round(net, tanh, x)));
  }

  lemma Tail(c: real, a: real, p: real, b: real, d: real)
    requires c >= 0.0 && p >= 0.0 && a <= p * b && c * b <= d
    ensures c * a <= p * d
  {
    ScaleUp(a, p * b, c);
    ScaleUp(c * b, d, p);
    assert c * (p * b) == p * (c * b);
  }

  lemma {:induction false} PowerNonNegative(k: real, t: nat)
    requires k >= 0.0
    ensures Power(k, t) >= 0.0
  {
    if t > 0 { PowerNonNegative(k, t - 1); }
  }

  /** Bernoulli's inequality for a ratio below one. */
  lemma {:induction false} PowerShrinks(k: real, t: nat)
    requires 0.0 <= k < 1.0
    ensures Power(k, t) * (1.0 + t as real * (1.0 - k)) <= 1.0
  {
    if t > 0 {
      PowerShrinks(k, t - 1);
      PowerNonNegative(k, t - 1);
      var c, n := 1.0 - k, (t - 1) as real;
      OneMoreFactor(c, n);
      ScaleUp(k * (1.0 + (n + 1.0) * c), 1.0 + n * c, Power(k, t - 1));
      assert Power(k, t) * (1.0 + (n + 1.0) * c) == Power(k, t - 1) * (k * (1.0 + (n + 1.0) * c));
    }
  }

  lemma OneMoreFactor(c: real, n: real)
    requires n >= 0.0
    ensures (1.0 - c) * (1.0 + (n + 1.0) * c) <= 1.0 + n * c
  {
    assert (n + 1.0) * (c * c) >= 0.0;
    assert (1.0 - c) * (1.0 + (n + 1.0) * c) == 1.0 + n * c - (n + 1.0) * (c * c);
  }

  /** Powers of a ratio below one fall below every positive bound and stay there. */
  lemma PowerVanishes(k: real, bound: real) returns (n: nat)
    requires 0.0 <= k < 1.0 && bound > 0.0
    ensures forall t: nat :: t >= n ==> Power(k, t) < bound
  {
    n := Enough(bound, 1.0 - k);
    forall t: nat | t >= n
      ensures Power(k, t) < bound
    {
      PowerShrinks(k, t);
      hide Power;
      Squeeze(Power(k, t), t as real, n as real, 1.0 - k, bound);
    }
  }

  lemma Enough(bound: real, c: real) returns (n: nat)
    requires bound > 0.0 && c > 0.0
    ensures n as real * (bound * c) >= 1.0
  {
    var b := bound * c;
    assert b > 0.0;
    var q := 1.0 / b;
    assert q * b == 1.0 && q > 0.0;
    n := q.Floor + 1;
    ScaleUp(q, n as real, b);
  }

  lemma Squeeze(p: real, t: real, n: real, c: real, bound: real)
    requires p * (1.0 + t * c) <= 1.0 && n * (bound * c) >= 1.0 && t >= n >= 0.0 && c > 0.0 && bound > 0.0
    ensures p < bound
  {
    assert bound * c > 0.0;
    ScaleUp(n, t, bound * c);
    assert t * c >= 0.0;
    assert bound * (1.0 + t * c) == bound + t * (bound * c);
    if p >= bound {
      ScaleUp(bound, p, 1.0 + t * c);
      assert false;
    }
  }

  /** With gain below one every run settles: however small a distance is asked for,
      from some round on the signal stays that close to itself. */
  lemma Settles(net: Net, tanh: real -> real, x: Vec, bound: real) returns (n: nat)
    requires TanhLike(tanh) && net.Valid() && |x| == net.dim && Gain(net) < 1.0 && bound > 0.0
    ensures forall s: nat, t: nat :: n <= s <= t ==> Dist(Iterate(net, tanh, x, s), Iterate(net, tanh, x, t)) < bound
  {
    GainNonNegative(net);
    DistNonNegative(x, Round(net, tanh, x));
    hide TanhLike, Dist, Gain, Round, Iterate, Power, Share;
    var k, d := Gain(net), Dist(x, Round(net, tanh, x));
    var small := SmallEnough(1.0 - k, d, bound);
    n := PowerVanishes(k, small);
    forall s: nat, t: nat | n <= s <= t
      ensures Dist(Iterate(net, tanh, x, s), Iterate(net, tanh, x, t)) < bound
    {
      CloseFrom(net, tanh, x, s, t, small, bound);
    }
  }

  /** Parts of this size are small enough for a bound. */
  ghost predicate Share(c: real, d: real, small: real, bound: real) {
    small > 0.0 && small * (d + 1.0) == bound * c
  }

  /** A remaining distance a, with ratio k, after shrinking a first step d by p. */
  ghost predicate Shrunk(k: real, a: real, p: real, d: real) { (1.0 - k) * a <= p * d }

  lemma ConvergenceIsShrunk(net: Net, tanh: real -> real, x: Vec, s: nat, t: nat)
    requires TanhLike(tanh) && net.Valid() && |x| == net.dim && Gain(net) < 1.0 && s <= t
    ensures Shrunk(Gain(net), Dist(Iterate(net, tanh, x, s), Iterate(net, tanh, x, t)), Power(Gain(net), s),
                   Dist(x, Round(net, tanh, x)))
  {
    hide TanhLike, Dist, Gain, Round, Iterate, Power;
    Convergence(net, tanh, x, s, t);
  }

  lemma CloseFrom(net: Net, tanh: real -> real, x: Vec, s: nat, t: nat, small: real, bound: real)
    requires TanhLike(tanh) && net.Valid() && |x| == net.dim && Gain(net) < 1.0 && s <= t
    requires Share(1.0 - Gain(net), Dist(x, Round(net, tanh, x)), small, bound) && Power(Gain(net), s) < small
    ensures Dist(Iterate(net, tanh, x, s), Iterate(net, tanh, x, t)) < bound
  {
    hide TanhLike, Dist, Gain, Round, Iterate, Power, Share, Shrunk;
    var a, p := Dist(Iterate(net, tanh, x, s), Iterate(net, tanh, x, t)), Power(Gain(net), s);
    var d := Dist(x, Round(net, tanh, x));
    ConvergenceIsShrunk(net, tanh, x, s, t);
    assert d >= 0.0 by { DistNonNegative(x, Round(net, tanh, x)); }
    assert Shrunk(Gain(net), a, p, d);
    Below(Gain(net), a, p, d, small, bound);
  }

  lemma SmallEnough(c: real, d: real, bound: real) returns (small: real)
    requires c > 0.0 && d >= 0.0 && bound > 0.0
    ensures Share(c, d, small, bound)
  {
    var b := bound * c;
    assert b > 0.0;
    small := b / (d + 1.0);
  }

  lemma Below(k: real, a: real, p: real, d: real, small: real, bound: real)
    requires k < 1.0 && d >= 0.0 && Shrunk(k, a, p, d) && p < small && Share(1.0 - k, d, small, bound)
    ensures a < bound
  {
    ScaleUp(p, small, d);
    assert small * (d + 1.0) == small * d + small;
    if a >= bound {
      ScaleUp(bound, a, 1.0 - k);
      assert false;
    }
  }

  // ---------------------------------------------------------------- resonance

  ghost predicate Resonant(net: Net, tanh: real -> real, h: Vec)
    requires net.Valid()
  {
    |h| == net.dim && Round(net, tanh, h) == h
  }

  lemma {:induction false} ResonantStays(net: Net, tanh: real -> real, h: Vec, t: nat)
    requires net.Valid() && Resonant(net, tanh, h)
    ensures Iterate(net, tanh, h, t) == h
  {
    hide Round;
    if t > 0 { ResonantStays(net, tanh, h, t - 1); }
  }

  /** Every input is drawn to a resonant signal at the rate of the gain. */
  lemma Resonance(net: Net, tanh: real -> real, x: Vec, h: Vec, t: nat)
    requires TanhLike(tanh) && net.Valid() && |x| == net.dim && Resonant(net, tanh, h)
    ensures Dist(Iterate(net, tanh, x, t), h) <= Power(Gain(net), t) * Dist(x, h)
  {
    hide Round, Dist, Gain, TanhLike;
    ResonantStays(net, tanh, h, t);
    Stability(net, tanh, x, h, t);
  }

  /** With gain below one there is at most one resonant signal. */
  lemma ResonanceIsUnique(net: Net, tanh: real -> real, g: Vec, h: Vec)
    requires TanhLike(tanh) && net.Valid() && Resonant(net, tanh, g) && Resonant(net, tanh, h)
    requires Gain(net) < 1.0
    ensures g == h
  {
    hide TanhLike, Round, Gain, Dist;
    RoundLipschitz(net, tanh, g, h);
    assert Round(net, tanh, g) == g && Round(net, tanh, h) == h;
    assert Dist(g, h) <= Gain(net) * Dist(g, h);
    Shrinks(Gain(net), Dist(g, h));
    ZeroDist(g, h);
  }

  lemma Shrinks(k: real, d: real)
    requires k < 1.0 && d <= k * d
    ensures d <= 0.0
  {
    if d > 0.0 { assert false; }
  }

  lemma ZeroDist(x: Vec, y: Vec)
    requires |x| == |y| && Dist(x, y) <= 0.0
    ensures x == y
  {
    forall i | 0 <= i < |x|
      ensures x[i] == y[i]
    {
      assert Abs(x[i] - y[i]) <= Dist(x, y);
    }
  }
}
