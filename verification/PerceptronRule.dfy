/** The multi-class perceptron rule on vectors: Novikoff's mistake bound,
    convergence, and conservation, for training from zero weights. */
module PerceptronRule {
  import opened LinearAlgebra

  const DIM: nat := 2048

  /** A weight row or an encoded sample. */
  type Row = v: Vec | |v| == DIM witness seq(DIM, _ => 0.0)

  type Weights = seq<Row>

  /** An encoded sample and its class. */
  datatype Example = Example(x: Row, y: nat)

  function ZeroWeights(classes: nat): (w: Weights)
    ensures |w| == classes && forall i :: 0 <= i < classes ==> w[i] == Zeros(DIM)
  {
    seq(classes, _ => Zeros(DIM))
  }

  // ---------------------------------------------------------------- prediction

  /** The index an iterator's `max_by` returns: the last of the largest. */
  function BestTo(scores: Vec, n: nat): (b: nat)
    requires 0 < n <= |scores|
    ensures b < n
    ensures forall j :: 0 <= j < n ==> scores[j] <= scores[b]
    ensures forall j :: b < j < n ==> scores[j] < scores[b]
  {
    if n == 1 then 0
    else
      var b := BestTo(scores, n - 1);
      if scores[b] > scores[n - 1] then b else n - 1
  }

  /** The predicted class; 0 when there are no classes. */
  function Predicted(scores: Vec): (p: nat)
    ensures |scores| == 0 ==> p == 0
    ensures |scores| > 0 ==> p < |scores|
    ensures forall j :: 0 <= j < |scores| ==> scores[j] <= scores[p]
    ensures forall j :: p < j < |scores| ==> scores[j] < scores[p]
  {
    if |scores| == 0 then 0 else BestTo(scores, |scores|)
  }

  function Predict(w: Weights, s: Example): (p: nat)
    ensures |w| > 0 ==> p < |w|
  {
    Predicted(MatVec(w, s.x))
  }

  /** The sample triggers an update. */
  predicate Errs(w: Weights, s: Example)
  {
    Predict(w, s) != s.y && s.y < |w|
  }

  // ---------------------------------------------------------------- training, as a function

  /** Add a vector to the row of the true class, take it from the predicted one. */
  function Move(w: Weights, p: nat, y: nat, update: Row): (w': Weights)
    requires p < |w| && y < |w|
    ensures |w'| == |w|
  {
    var w1 := w[y := Axpy(w[y], 1.0, update)];
    w1[p := Axpy(w1[p], -1.0, update)]
  }

  function Update(w: Weights, rate: real, s: Example): (w': Weights)
    ensures |w'| == |w|
  {
    if Errs(w, s) then Move(w, Predict(w, s), s.y, Scale(rate, s.x)) else w
  }

  /** Weights after the first n samples of a stream. */
  function RunTo(w: Weights, rate: real, samples: seq<Example>, n: nat): (w': Weights)
    requires n <= |samples|
    ensures |w'| == |w|
  {
    if n == 0 then w else Update(RunTo(w, rate, samples, n - 1), rate, samples[n - 1])
  }

  /** Weights after a number of epochs. */
  function Epochs(w: Weights, rate: real, samples: seq<Example>, epochs: nat): (w': Weights)
    ensures |w'| == |w|
  {
    if epochs == 0 then w
    else RunTo(Epochs(w, rate, samples, epochs - 1), rate, samples, |samples|)
  }

  /** Updates made by the first n samples of a stream. */
  function UpdatesTo(w: Weights, rate: real, samples: seq<Example>, n: nat): nat
    requires n <= |samples|
  {
    if n == 0 then 0
    else UpdatesTo(w, rate, samples, n - 1) +
         (if Errs(RunTo(w, rate, samples, n - 1), samples[n - 1]) then 1 else 0)
  }

  function EpochUpdates(w: Weights, rate: real, samples: seq<Example>, epochs: nat): nat
  {
    if epochs == 0 then 0
    else EpochUpdates(w, rate, samples, epochs - 1) +
         UpdatesTo(Epochs(w, rate, samples, epochs - 1), rate, samples, |samples|)
  }

  // ---------------------------------------------------------------- mistake bound

  /** u scores the sample's own class at least g above every other class. */
  ghost predicate Margin(u: Weights, g: real, s: Example)
  {
    s.y < |u| ==>
      forall r :: 0 <= r < |u| && r != s.y ==>
        Dot(u[s.y], s.x) >= Dot(u[r], s.x) + g
  }

  /** A matrix of squared Frobenius norm at most u2 separating all samples with margin g. */
  ghost predicate Separates(u: Weights, u2: real, g: real, samples: seq<Example>) {
    g > 0.0 && u2 > 0.0 && Frob(u, u) <= u2 &&
    forall i :: 0 <= i < |samples| ==> Margin(u, g, samples[i])
  }

  /** Every sample has squared norm at most r2. */
  ghost predicate Within(r2: real, samples: seq<Example>) {
    r2 >= 0.0 && forall i :: 0 <= i < |samples| ==> Dot(samples[i].x, samples[i].x) <= r2
  }

  lemma {:induction false} DotScaleTo(z: Vec, rate: real, x: Vec, n: nat)
    requires n <= |z| == |x|
    ensures DotTo(z, Scale(rate, x), n) == rate * DotTo(z, x, n)
  {
    if n > 0 {
      DotScaleTo(z, rate, x, n - 1);
      assert z[n - 1] * (x[n - 1] * rate) == rate * (z[n - 1] * x[n - 1]);
    }
  }

  lemma DotScale(z: Vec, rate: real, x: Vec)
    requires |z| == |x|
    ensures Dot(z, Scale(rate, x)) == rate * Dot(z, x)
    ensures Dot(Scale(rate, x), z) == rate * Dot(z, x)
  {
    DotScaleTo(z, rate, x, |x|);
    DotCommutes(z, Scale(rate, x), |x|);
  }

  /** What adding a*update to one row does to both inner products. */
  lemma RowUpdate(u: Weights, w: Weights, r: nat, a: real, update: Row)
    requires |u| == |w| && r < |w|
    ensures var w' := w[r := Axpy(w[r], a, update)];
            && Frob(u, w') == Frob(u, w) + a * Dot(u[r], update)
            && Frob(w', w') == Frob(w, w) + 2.0 * a * Dot(w[r], update) + a * a * Dot(update, update)
  {
    DotAxpy(w[r], a, update, u[r]);
    NormAxpy(w[r], a, update);
    hide Dot;
    FrobReplaceRow(u, w, r, Axpy(w[r], a, update), |w|);
  }

  lemma MoveEffect(u: Weights, w: Weights, p: nat, y: nat, update: Row)
    requires |u| == |w| && p < |w| && y < |w| && p != y
    ensures var w' := Move(w, p, y, update);
            && Frob(u, w') == Frob(u, w) + Dot(u[y], update) - Dot(u[p], update)
            && Frob(w', w') == Frob(w, w) + 2.0 * Dot(w[y], update) - 2.0 * Dot(w[p], update)
                               + 2.0 * Dot(update, update)
  {
    hide Dot, Frob;
    var w1 := w[y := Axpy(w[y], 1.0, update)];
    RowUpdate(u, w, y, 1.0, update);
    RowUpdate(u, w1, p, -1.0, update);
  }

  lemma ScaledSquare(rate: real, x: Vec)
    ensures Dot(Scale(rate, x), Scale(rate, x)) == rate * (rate * Dot(x, x))
  {
    DotScale(Scale(rate, x), rate, x);
    DotScale(x, rate, x);
  }

  lemma ScaledMove(u: Weights, w: Weights, p: nat, y: nat, rate: real, x: Row)
    requires |u| == |w| && p < |w| && y < |w| && p != y
    ensures var w' := Move(w, p, y, Scale(rate, x));
            && Frob(u, w') == Frob(u, w) + rate * Dot(u[y], x) - rate * Dot(u[p], x)
            && Frob(w', w') == Frob(w, w) + 2.0 * (rate * Dot(w[y], x)) - 2.0 * (rate * Dot(w[p], x))
                               + 2.0 * (rate * (rate * Dot(x, x)))
  {
    hide Dot, Frob;
    MoveEffect(u, w, p, y, Scale(rate, x));
    hide Move;
    DotScale(u[y], rate, x);
    DotScale(u[p], rate, x);
    DotScale(w[y], rate, x);
    DotScale(w[p], rate, x);
    ScaledSquare(rate, x);
  }

  /** The winning score is at least the true one. */
  lemma PredictWins(w: Weights, s: Example)
    requires s.y < |w|
    ensures Dot(w[s.y], s.x) <= Dot(w[Predict(w, s)], s.x)
  {
    var scores := MatVec(w, s.x);
    hide Dot;
    assert scores[s.y] <= scores[Predicted(scores)];
  }

  /** One update raises the score of the separator by rate*g and the squared norm by at most 2*r2*rate^2. */
  lemma UpdateProgress(u: Weights, g: real, r2: real, w: Weights, rate: real, s: Example)
    requires |u| == |w| && rate > 0.0
    requires Margin(u, g, s) && Dot(s.x, s.x) <= r2 && Errs(w, s)
    ensures Frob(u, Update(w, rate, s)) >= Frob(u, w) + rate * g
    ensures Frob(Update(w, rate, s), Update(w, rate, s)) <= Frob(w, w) + 2.0 * r2 * (rate * rate)
  {
    var p := Predict(w, s);
    PredictWins(w, s);
    hide Dot, Predict, Frob;
    ScoreGain(u, g, w, p, rate, s);
    NormGain(r2, w, p, rate, s);
  }

  lemma ScoreGain(u: Weights, g: real, w: Weights, p: nat, rate: real, s: Example)
    requires |u| == |w| && rate > 0.0 && s.y < |w| && p < |w| && p != s.y && Margin(u, g, s)
    ensures Frob(u, Move(w, p, s.y, Scale(rate, s.x))) >= Frob(u, w) + rate * g
  {
    hide Dot, Frob, Move;
    ScaledMove(u, w, p, s.y, rate, s.x);
    ScaledMargin(rate, Dot(u[s.y], s.x), Dot(u[p], s.x), g);
  }

  lemma NormGain(r2: real, w: Weights, p: nat, rate: real, s: Example)
    requires rate > 0.0 && s.y < |w| && p < |w| && p != s.y && Dot(s.x, s.x) <= r2
    requires Dot(w[s.y], s.x) <= Dot(w[p], s.x)
    ensures var w' := Move(w, p, s.y, Scale(rate, s.x));
            Frob(w', w') <= Frob(w, w) + 2.0 * r2 * (rate * rate)
  {
    hide Dot, Frob, Move;
    ScaledMove(w, w, p, s.y, rate, s.x);
    ScaledNorm(rate, Dot(w[s.y], s.x), Dot(w[p], s.x), Dot(s.x, s.x), r2);
  }

  lemma ScaledMargin(rate: real, own: real, other: real, g: real)
    requires rate > 0.0 && own >= other + g
    ensures rate * own - rate * other >= rate * g
  {
    assert rate * (own - other - g) >= 0.0;
  }

  lemma ScaledNorm(rate: real, own: real, best: real, norm: real, r2: real)
    requires rate > 0.0 && own <= best && norm <= r2
    ensures 2.0 * (rate * own) - 2.0 * (rate * best) + 2.0 * (rate * (rate * norm)) <= 2.0 * r2 * (rate * rate)
  {
    assert rate * (best - own) >= 0.0;
    var q := rate * rate;
    assert q * (r2 - norm) >= 0.0;
    assert rate * (rate * norm) == q * norm;
  }

  /** The invariant of every training run from zero weights, k updates in. */
  ghost predicate Potential(u: Weights, g: real, r2: real, rate: real, w: Weights, k: nat) {
    && |u| == |w|
    && Frob(u, w) >= k as real * (rate * g)
    && Frob(w, w) <= k as real * (2.0 * r2 * (rate * rate))
  }

  lemma {:induction false} RunPotential(u: Weights, u2: real, g: real, r2: real, w: Weights, rate: real,
                                        samples: seq<Example>, n: nat, k: nat)
    requires rate > 0.0 && n <= |samples| && Separates(u, u2, g, samples) && Within(r2, samples)
    requires Potential(u, g, r2, rate, w, k)
    ensures Potential(u, g, r2, rate, RunTo(w, rate, samples, n), k + UpdatesTo(w, rate, samples, n))
  {
    hide Dot, Predict, Move, Frob;
    if n > 0 {
      RunPotential(u, u2, g, r2, w, rate, samples, n - 1, k);
      var v, s := RunTo(w, rate, samples, n - 1), samples[n - 1];
      if Errs(v, s) {
        UpdateProgress(u, g, r2, v, rate, s);
        OneMore(k + UpdatesTo(w, rate, samples, n - 1), rate * g);
        OneMore(k + UpdatesTo(w, rate, samples, n - 1), 2.0 * r2 * (rate * rate));
      }
    }
  }

  lemma OneMore(k: nat, a: real)
    ensures (k + 1) as real * a == k as real * a + a
  {
  }

  lemma {:induction false} EpochPotential(u: Weights, u2: real, g: real, r2: real, w: Weights, rate: real,
                                          samples: seq<Example>, epochs: nat)
    requires rate > 0.0 && Separates(u, u2, g, samples) && Within(r2, samples) && Potential(u, g, r2, rate, w, 0)
    ensures Potential(u, g, r2, rate, Epochs(w, rate, samples, epochs), EpochUpdates(w, rate, samples, epochs))
  {
    hide Dot, Predict, Frob, Potential, RunTo;
    if epochs > 0 {
      EpochPotential(u, u2, g, r2, w, rate, samples, epochs - 1);
      RunPotential(u, u2, g, r2, Epochs(w, rate, samples, epochs - 1), rate, samples, |samples|,
                   EpochUpdates(w, rate, samples, epochs - 1));
    }
  }

  lemma {:induction false} DotZeros(x: Vec, n: nat)
    requires n <= |x|
    ensures DotTo(x, Zeros(|x|), n) == 0.0
  {
    if n > 0 { DotZeros(x, n - 1); }
  }

  lemma {:induction false} FrobZeros(u: Weights, classes: nat, n: nat)
    requires n <= classes && |u| == classes
    ensures FrobTo(u, ZeroWeights(classes), n) == 0.0
  {
    if n > 0 {
      FrobZeros(u, classes, n - 1);
      DotZeros(u[n - 1], DIM);
    }
  }

  lemma ZeroPotential(u: Weights, g: real, r2: real, rate: real, classes: nat)
    requires |u| == classes
    ensures Potential(u, g, r2, rate, ZeroWeights(classes), 0)
  {
    FrobZeros(u, classes, classes);
    FrobZeros(ZeroWeights(classes), classes, classes);
  }

  lemma PotentialBounds(u: Weights, u2: real, g: real, r2: real, rate: real, w: Weights, k: nat)
    requires rate > 0.0 && g > 0.0 && r2 >= 0.0 && Potential(u, g, r2, rate, w, k) && u2 > 0.0 && Frob(u, u) <= u2
    ensures k as real * (g * g) <= 2.0 * r2 * u2
  {
    CauchySchwarz(u, w, u2);
    hide Frob;
    SquareCancels(k as real, rate, g, Frob(u, w), Frob(w, w), r2, u2);
  }

  lemma SquareCancels(k: real, rate: real, g: real, b: real, c: real, r2: real, u2: real)
    requires k >= 0.0 && rate > 0.0 && g > 0.0 && r2 >= 0.0 && u2 > 0.0
    requires b >= k * (rate * g) && c <= k * (2.0 * r2 * (rate * rate)) && b * b <= u2 * c
    ensures k * (g * g) <= 2.0 * r2 * u2
  {
    if k > 0.0 {
      var a, q := k * (rate * g), rate * rate;
      Positive(rate, rate);
      Positive(k, q);
      Positive(rate, g);
      Positive(k, rate * g);
      Squares(a, b);
      Scaled(u2, c, k * (2.0 * r2 * q));
      assert a * a == (k * q) * (k * (g * g));
      assert u2 * (k * (2.0 * r2 * q)) == (k * q) * (2.0 * r2 * u2);
      CancelPositive(k * q, k * (g * g), 2.0 * r2 * u2);
    } else {
      assert r2 * u2 >= 0.0;
    }
  }

  lemma Scaled(m: real, a: real, b: real)
    requires m > 0.0 && a <= b
    ensures m * a <= m * b
  {
    assert m * (b - a) >= 0.0;
  }

  lemma Positive(x: real, y: real)
    requires x > 0.0 && y > 0.0
    ensures x * y > 0.0
  {
  }

  lemma Squares(a: real, b: real)
    requires 0.0 <= a <= b
    ensures a * a <= b * b
  {
    assert (b - a) * (b + a) >= 0.0;
  }

  lemma CancelPositive(m: real, a: real, b: real)
    requires m > 0.0 && m * a <= m * b
    ensures a <= b
  {
    if a > b {
      Positive(m, a - b);
      assert false;
    }
  }

  /** Novikoff's bound: however long training goes on and whatever the rate, the
      number k of updates satisfies k*g^2 <= 2*r2*u2. */
  lemma MistakeBound(u: Weights, u2: real, g: real, r2: real, rate: real, samples: seq<Example>, epochs: nat)
    requires rate > 0.0 && Separates(u, u2, g, samples) && Within(r2, samples)
    ensures EpochUpdates(ZeroWeights(|u|), rate, samples, epochs) as real * (g * g) <= 2.0 * r2 * u2
  {
    hide Dot, Predict, Update, RunTo, Potential;
    var w := ZeroWeights(|u|);
    ZeroPotential(u, g, r2, rate, |u|);
    EpochPotential(u, u2, g, r2, w, rate, samples, epochs);
    PotentialBounds(u, u2, g, r2, rate, Epochs(w, rate, samples, epochs), EpochUpdates(w, rate, samples, epochs));
  }

  // ---------------------------------------------------------------- convergence

  /** An epoch without an update leaves the weights alone and finds every sample right. */
  lemma {:induction false} QuietRun(w: Weights, rate: real, samples: seq<Example>, n: nat)
    requires n <= |samples| && UpdatesTo(w, rate, samples, n) == 0
    ensures RunTo(w, rate, samples, n) == w
    ensures forall i :: 0 <= i < n ==> !Errs(w, samples[i])
  {
    hide Dot, Predict, Move;
    if n > 0 { QuietRun(w, rate, samples, n - 1); }
  }

  /** Once an epoch is quiet, training has converged. */
  lemma {:induction false} QuietForever(w: Weights, rate: real, samples: seq<Example>, quiet: nat, later: nat)
    requires quiet <= later
    requires UpdatesTo(Epochs(w, rate, samples, quiet), rate, samples, |samples|) == 0
    ensures Epochs(w, rate, samples, later) == Epochs(w, rate, samples, quiet)
    decreases later
  {
    hide Dot, Predict, Update, RunTo;
    if quiet < later {
      QuietForever(w, rate, samples, quiet, later - 1);
      QuietRun(Epochs(w, rate, samples, quiet), rate, samples, |samples|);
    }
  }

  /** The first quiet epoch among the first e, or proof that every one of them updated. */
  lemma {:induction false} FindQuietEpoch(w: Weights, rate: real, samples: seq<Example>, e: nat) returns (quiet: nat)
    ensures quiet <= e
    ensures quiet < e ==> UpdatesTo(Epochs(w, rate, samples, quiet), rate, samples, |samples|) == 0
    ensures quiet == e ==> EpochUpdates(w, rate, samples, e) >= e
  {
    hide Dot, Predict, Update, RunTo;
    quiet := 0;
    if e > 0 {
      quiet := FindQuietEpoch(w, rate, samples, e - 1);
      if quiet == e - 1 && UpdatesTo(Epochs(w, rate, samples, quiet), rate, samples, |samples|) != 0 {
        quiet := e;
      }
    }
  }

  lemma QuietEpochExists(u: Weights, u2: real, g: real, r2: real, rate: real, samples: seq<Example>, epochs: nat)
    returns (quiet: nat)
    requires rate > 0.0 && Separates(u, u2, g, samples) && Within(r2, samples)
    requires epochs as real * (g * g) > 2.0 * r2 * u2
    ensures quiet < epochs
    ensures UpdatesTo(Epochs(ZeroWeights(|u|), rate, samples, quiet), rate, samples, |samples|) == 0
  {
    hide Dot, Predict, Update, RunTo, Frob, Epochs;
    var w := ZeroWeights(|u|);
    MistakeBound(u, u2, g, r2, rate, samples, epochs);
    FewerThan(EpochUpdates(w, rate, samples, epochs), epochs, g * g, 2.0 * r2 * u2);
    quiet := FindQuietEpoch(w, rate, samples, epochs);
  }

  /** Enough epochs on separable data end with every training sample predicted
      right, and with weights that no further epoch changes. */
  lemma GuaranteedFit(u: Weights, u2: real, g: real, r2: real, rate: real, samples: seq<Example>, epochs: nat)
    requires rate > 0.0 && Separates(u, u2, g, samples) && Within(r2, samples)
    requires epochs as real * (g * g) > 2.0 * r2 * u2
    requires forall i :: 0 <= i < |samples| ==> samples[i].y < |u|
    ensures var w := ZeroWeights(|u|);
            var v := Epochs(w, rate, samples, epochs);
            && (forall i :: 0 <= i < |samples| ==> Predict(v, samples[i]) == samples[i].y)
            && (forall later: nat :: later >= epochs ==> Epochs(w, rate, samples, later) == v)
            && (exists quiet: nat :: quiet < epochs && Epochs(w, rate, samples, quiet) == v)
  {
    hide Dot, Predict, Update, RunTo, Frob, Epochs;
    var w := ZeroWeights(|u|);
    var quiet := QuietEpochExists(u, u2, g, r2, rate, samples, epochs);
    QuietForever(w, rate, samples, quiet, epochs);
    QuietRun(Epochs(w, rate, samples, quiet), rate, samples, |samples|);
    forall later: nat | later >= epochs
      ensures Epochs(w, rate, samples, later) == Epochs(w, rate, samples, epochs)
    {
      QuietForever(w, rate, samples, quiet, later);
    }
  }

  lemma FewerThan(k: nat, epochs: nat, q: real, bound: real)
    requires q >= 0.0 && k as real * q <= bound < epochs as real * q
    ensures k < epochs
  {
    if k >= epochs {
      MoreIsMore(epochs, k, q);
      assert false;
    }
  }

  lemma MoreIsMore(a: nat, b: nat, q: real)
    requires a <= b && q >= 0.0
    ensures a as real * q <= b as real * q
  {
    assert (b as real - a as real) * q >= 0.0;
  }

  // ---------------------------------------------------------------- conservation

  ghost function ColumnTo(w: Weights, j: nat, n: nat): real
    requires n <= |w| && j < DIM
    decreases w, n
  {
    if n == 0 then 0.0 else ColumnTo(w, j, n - 1) + w[n - 1][j]
  }

  lemma {:induction false} ColumnReplaceRow(w: Weights, r: nat, v: Row, j: nat, n: nat)
    requires n <= |w| && r < |w| && j < DIM
    ensures ColumnTo(w[r := v], j, n) == ColumnTo(w, j, n) + (if r < n then v[j] - w[r][j] else 0.0)
  {
    if n > 0 { ColumnReplaceRow(w, r, v, j, n - 1); }
  }

  /** An update moves weight between two rows; no column sum changes. */
  lemma UpdateKeepsColumns(w: Weights, rate: real, s: Example, j: nat)
    requires j < DIM
    ensures ColumnTo(Update(w, rate, s), j, |w|) == ColumnTo(w, j, |w|)
  {
    hide Dot, Predict;
    if Errs(w, s) {
      var update, p, y := Scale(rate, s.x), Predict(w, s), s.y;
      var w1 := w[y := Axpy(w[y], 1.0, update)];
      ColumnReplaceRow(w, y, Axpy(w[y], 1.0, update), j, |w|);
      ColumnReplaceRow(w1, p, Axpy(w1[p], -1.0, update), j, |w|);
    }
  }

  lemma {:induction false} RunKeepsColumns(w: Weights, rate: real, samples: seq<Example>, n: nat, j: nat)
    requires n <= |samples| && j < DIM
    ensures ColumnTo(RunTo(w, rate, samples, n), j, |w|) == ColumnTo(w, j, |w|)
  {
    hide Dot, Predict, Update;
    if n > 0 {
      RunKeepsColumns(w, rate, samples, n - 1, j);
      UpdateKeepsColumns(RunTo(w, rate, samples, n - 1), rate, samples[n - 1], j);
    }
  }

  lemma {:induction false} EpochsKeepColumns(w: Weights, rate: real, samples: seq<Example>, epochs: nat, j: nat)
    requires j < DIM
    ensures ColumnTo(Epochs(w, rate, samples, epochs), j, |w|) == ColumnTo(w, j, |w|)
  {
    hide Dot, Predict, Update, RunTo;
    if epochs > 0 {
      EpochsKeepColumns(w, rate, samples, epochs - 1, j);
      RunKeepsColumns(Epochs(w, rate, samples, epochs - 1), rate, samples, |samples|, j);
    }
  }

  lemma {:induction false} ZeroColumns(classes: nat, j: nat, n: nat)
    requires n <= classes && j < DIM
    ensures ColumnTo(ZeroWeights(classes), j, n) == 0.0
  {
    if n > 0 { ZeroColumns(classes, j, n - 1); }
  }

  /** Training from zero keeps every weight column summing to zero. */
  lemma ColumnsSumToZero(classes: nat, rate: real, samples: seq<Example>, epochs: nat, j: nat)
    requires j < DIM
    ensures ColumnTo(Epochs(ZeroWeights(classes), rate, samples, epochs), j, classes) == 0.0
  {
    EpochsKeepColumns(ZeroWeights(classes), rate, samples, epochs, j);
    ZeroColumns(classes, j, classes);
  }
}
