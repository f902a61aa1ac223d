/** The mapper's built-in baseline: a hashed bag of fields per sample, trained by
    the rule in PerceptronRule on weights updated in place (m1.rs). */
module Baseline {
  import opened LinearAlgebra
  import opened PerceptronRule

  const FNV_OFFSET: bv64 := 0xcbf29ce484222325
  const FIELDS: nat := 5

  /** Strings are the bytes the encoder hashes. */
  datatype MappingSample = MappingSample(
    sourcePlatform: seq<bv8>, targetPlatform: seq<bv8>,
    source: seq<bv8>, sourceArgs: seq<int>,
    target: seq<bv8>, targetArgs: seq<int>,
    context: seq<bv8>, classLabel: nat)

  datatype Metrics = Metrics(loss: real, accuracy: real, samples: nat)

  // ---------------------------------------------------------------- encoder

  function Field(s: MappingSample, k: nat): seq<bv8>
    requires k < FIELDS
  {
    if k == 0 then s.sourcePlatform
    else if k == 1 then s.targetPlatform
    else if k == 2 then s.source
    else if k == 3 then s.target
    else s.context
  }

  /** The number a field is hashed under: its position. */
  function Tag(k: nat): bv64 {
    if k == 0 then 0 else if k == 1 then 1 else if k == 2 then 2 else if k == 3 then 3 else 4
  }

  /** One FNV-1a step; the multiplication wraps at 64 bits. */
  function Mix(hash: bv64, byte: bv8): bv64 { (hash ^ (byte as bv64)) * 0x100000001b3 }

  /** FNV-1a over the first n bytes. */
  function FnvTo(hash: bv64, bytes: seq<bv8>, n: nat): bv64
    requires n <= |bytes|
  {
    if n == 0 then hash else Mix(FnvTo(hash, bytes, n - 1), bytes[n - 1])
  }

  function FieldHash(k: bv64, value: seq<bv8>): bv64 { FnvTo(FNV_OFFSET ^ k, value, |value|) }

  function HashOf(s: MappingSample, k: nat): bv64
    requires k < FIELDS
  {
    FieldHash(Tag(k), Field(s, k))
  }

  function Slot(hash: bv64): (i: nat)
    ensures i < DIM
  {
    (hash as nat) % DIM
  }

  function Sign(hash: bv64): (d: real)
    ensures d == 1.0 || d == -1.0
  {
    if hash & 1 == 0 then 1.0 else -1.0
  }

  function AddAt(v: Row, i: nat, d: real): Row
    requires i < DIM
  {
    v[i := v[i] + d]
  }

  /** The vector after the first k fields. */
  function EncodeTo(s: MappingSample, k: nat): Row
    requires k <= FIELDS
    decreases s, k
  {
    if k == 0 then Zeros(DIM)
    else
      var h := HashOf(s, k - 1);
      AddAt(EncodeTo(s, k - 1), Slot(h), Sign(h))
  }

  function Encode(s: MappingSample): Row { AddAt(EncodeTo(s, FIELDS), s.classLabel % DIM, 1.0) }

  function Encoded(samples: seq<MappingSample>): (e: seq<Example>)
    ensures |e| == |samples|
    ensures forall i :: 0 <= i < |samples| ==> e[i] == Example(Encode(samples[i]), samples[i].classLabel)
  {
    seq(|samples|, i requires 0 <= i < |samples| => Example(Encode(samples[i]), samples[i].classLabel))
  }

  lemma {:induction false} ZerosHaveNoMass(n: nat, k: nat)
    requires k <= n
    ensures L1To(Zeros(n), k) == 0.0
  {
    if k > 0 { ZerosHaveNoMass(n, k - 1); }
  }

  lemma {:induction false} EncodeToMass(s: MappingSample, k: nat)
    requires k <= FIELDS
    ensures L1To(EncodeTo(s, k), DIM) <= k as real
  {
    hide HashOf, Slot, Sign, L1To;
    if k == 0 {
      ZerosHaveNoMass(DIM, DIM);
    } else {
      EncodeToMass(s, k - 1);
      var h := HashOf(s, k - 1);
      L1ReplaceOne(EncodeTo(s, k - 1), Slot(h), Sign(h), DIM);
    }
  }

  /** Six unit marks, wherever they fall: L1 mass at most 6, squared norm at most 36. */
  lemma EncodedNorm(s: MappingSample)
    ensures L1(Encode(s)) <= 6.0
    ensures Dot(Encode(s), Encode(s)) <= 36.0
  {
    hide EncodeTo, L1To, DotTo;
    EncodeToMass(s, FIELDS);
    L1ReplaceOne(EncodeTo(s, FIELDS), s.classLabel % DIM, 1.0, DIM);
    SquaresBelowL1(Encode(s), DIM);
    Squares(L1(Encode(s)), 6.0);
  }

  // ---------------------------------------------------------------- the encoding, slot by slot

  /** What a hashed field adds to slot j: one at the slot of its hash, with the sign
      of the hash's parity. */
  function MarkAt(hash: bv64, j: nat): real {
    if hash as nat % 2048 != j then 0.0 else if hash & 1 == 0 then 1.0 else -1.0
  }

  lemma {:induction false} MarksTo(s: MappingSample, k: nat, j: nat)
    requires k <= FIELDS && j < DIM
    ensures EncodeTo(s, k)[j] ==
            (if k > 0 then MarkAt(HashOf(s, 0), j) else 0.0) + (if k > 1 then MarkAt(HashOf(s, 1), j) else 0.0)
            + (if k > 2 then MarkAt(HashOf(s, 2), j) else 0.0) + (if k > 3 then MarkAt(HashOf(s, 3), j) else 0.0)
            + (if k > 4 then MarkAt(HashOf(s, 4), j) else 0.0)
  {
    hide HashOf, Slot, Sign, MarkAt;
    if k > 0 {
      MarksTo(s, k - 1, j);
      MarkIsAdded(EncodeTo(s, k - 1), HashOf(s, k - 1), j);
    }
  }

  lemma MarkIsAdded(v: Row, hash: bv64, j: nat)
    requires j < DIM
    ensures AddAt(v, Slot(hash), Sign(hash))[j] == v[j] + MarkAt(hash, j)
  {
  }

  /** Every slot of the encoding, from the five fields in their order and the label. */
  lemma EncodedSlots(s: MappingSample, j: nat)
    requires j < 2048
    ensures Encode(s)[j] ==
            MarkAt(FieldHash(0, s.sourcePlatform), j) + MarkAt(FieldHash(1, s.targetPlatform), j)
            + MarkAt(FieldHash(2, s.source), j) + MarkAt(FieldHash(3, s.target), j)
            + MarkAt(FieldHash(4, s.context), j) + (if s.classLabel % 2048 == j then 1.0 else 0.0)
  {
    hide FieldHash, MarkAt, EncodeTo;
    MarksTo(s, FIELDS, j);
  }

  /** FNV-1a: the basis with the field's number, then one xor and one wrapping
      multiplication per byte. */
  lemma FnvSteps(k: bv64, value: seq<bv8>, byte: bv8)
    ensures FieldHash(k, []) == 0xcbf29ce484222325 ^ k
    ensures FieldHash(k, value + [byte]) == (FieldHash(k, value) ^ (byte as bv64)) * 0x100000001b3
  {
    FnvAppends(k, value, byte);
    hide FnvTo, FieldHash;
    MixIs(FieldHash(k, value), byte);
    hide Mix;
    assert FieldHash(k, []) == 0xcbf29ce484222325 ^ k by { FnvOfNothing(k); }
  }

  lemma FnvAppends(k: bv64, value: seq<bv8>, byte: bv8)
    ensures FieldHash(k, value + [byte]) == Mix(FieldHash(k, value), byte)
  {
    hide Mix;
    FnvPrefix(FNV_OFFSET ^ k, value, byte, |value|);
  }

  lemma FnvOfNothing(k: bv64)
    ensures FieldHash(k, []) == 0xcbf29ce484222325 ^ k
  {
    hide Mix;
  }

  lemma MixIs(hash: bv64, byte: bv8)
    ensures Mix(hash, byte) == (hash ^ (byte as bv64)) * 0x100000001b3
  {
  }

  lemma {:induction false} FnvPrefix(hash: bv64, value: seq<bv8>, byte: bv8, n: nat)
    requires n <= |value|
    ensures FnvTo(hash, value + [byte], n) == FnvTo(hash, value, n)
  {
    hide Mix;
    if n > 0 { FnvPrefix(hash, value, byte, n - 1); }
  }

  /** The published FNV-1a value of the letter a. */
  lemma FnvOfLetterA()
    ensures FieldHash(0, [0x61]) == 0xaf63dc4c8601ec8c
  {
    FnvSteps(0, [], 0x61);
    assert [] + [0x61 as bv8] == [0x61];
  }

  method HashField(k: bv64, value: seq<bv8>) returns (hash: bv64)
    ensures hash == FieldHash(k, value)
  {
    hide Mix;
    var start := FNV_OFFSET ^ k;
    hash := start;
    for b := 0 to |value|
      invariant hash == FnvTo(start, value, b)
    {
      hash := Mix(hash, value[b]);
    }
  }

  method AddMark(out: array<real>, at: nat, d: real)
    requires out.Length == DIM && at < DIM
    modifies out
    ensures out[..] == AddAt(old(out[..]), at, d)
  {
    out[at] := out[at] + d;
  }

  method EncodeSample(s: MappingSample) returns (out: array<real>)
    ensures fresh(out) && out[..] == Encode(s)
  {
    hide FieldHash, Slot, Sign, Field, Tag;
    out := new real[DIM](_ => 0.0);
    assert out[..] == Zeros(DIM);
    for k := 0 to FIELDS
      invariant out.Length == DIM && out[..] == EncodeTo(s, k)
    {
      var hash := HashField(Tag(k), Field(s, k));
      AddMark(out, Slot(hash), Sign(hash));
    }
    AddMark(out, s.classLabel % DIM, 1.0);
  }

  // ---------------------------------------------------------------- split

  ghost function TestPart<T>(samples: seq<T>): seq<T> {
    seq((|samples| + 4) / 5, k requires 0 <= k < (|samples| + 4) / 5 => samples[5 * k])
  }

  ghost function TrainPart<T>(samples: seq<T>): seq<T> {
    seq(|samples| - (|samples| + 4) / 5, k requires 0 <= k < |samples| - (|samples| + 4) / 5 => samples[k + k / 4 + 1])
  }

  /** One more sample goes to the test part when its index is a multiple of five. */
  lemma SplitGrows<T>(samples: seq<T>, x: T)
    ensures TestPart(samples + [x]) == if |samples| % 5 == 0 then TestPart(samples) + [x] else TestPart(samples)
    ensures TrainPart(samples + [x]) == if |samples| % 5 != 0 then TrainPart(samples) + [x] else TrainPart(samples)
  {
    var n, q := |samples|, |samples| / 5;
    var more := samples + [x];
    if n % 5 == 0 {
      assert n == 5 * q && (n + 4) / 5 == q && (n + 5) / 5 == q + 1;
    } else {
      assert (n + 4) / 5 == q + 1 == (n + 5) / 5;
      var k := n - (q + 1);
      assert k / 4 == q;
      assert TrainPart(more)[k] == more[k + k / 4 + 1] == x;
    }
  }

  /** Every sample lands in exactly one part. */
  lemma {:induction false} SplitKeepsAll<T>(samples: seq<T>)
    ensures multiset(TrainPart(samples)) + multiset(TestPart(samples)) == multiset(samples)
  {
    if |samples| > 0 {
      var front, x := samples[..|samples| - 1], samples[|samples| - 1];
      assert samples == front + [x];
      SplitKeepsAll(front);
      SplitGrows(front, x);
      hide TrainPart, TestPart;
    }
  }

  /** Every fifth sample, from the first, is a test sample; both parts keep the order. */
  method TrainTestSplit(samples: seq<MappingSample>) returns (train: seq<MappingSample>, test: seq<MappingSample>)
    ensures train == TrainPart(samples) && test == TestPart(samples)
  {
    train, test := [], [];
    for index := 0 to |samples|
      invariant train == TrainPart(samples[..index]) && test == TestPart(samples[..index])
    {
      SplitGrows(samples[..index], samples[index]);
      assert samples[..index + 1] == samples[..index] + [samples[index]];
      hide TrainPart, TestPart;
      if index % 5 == 0 {
        test := test + [samples[index]];
      } else {
        train := train + [samples[index]];
      }
    }
    assert samples[..|samples|] == samples;
  }

  // ---------------------------------------------------------------- evaluation, as a function

  function CorrectTo(w: Weights, es: seq<Example>, n: nat): (c: nat)
    requires n <= |es|
    ensures c <= n
    decreases w, n
  {
    if n == 0 then 0 else CorrectTo(w, es, n - 1) + (if Predict(w, es[n - 1]) == es[n - 1].y then 1 else 0)
  }

  function MeanSquare(scores: Vec): real {
    Dot(scores, scores) / (if |scores| == 0 then 1 else |scores|) as real
  }

  function LossTo(w: Weights, es: seq<Example>, n: nat): real
    requires n <= |es|
    decreases w, n
  {
    if n == 0 then 0.0 else LossTo(w, es, n - 1) + MeanSquare(MatVec(w, es[n - 1].x))
  }

  function Assess(w: Weights, es: seq<Example>): Metrics {
    if |es| == 0 then Metrics(0.0, 0.0, 0)
    else Metrics(LossTo(w, es, |es|) / |es| as real, CorrectTo(w, es, |es|) as real / |es| as real, |es|)
  }

  lemma {:induction false} AllCorrect(w: Weights, es: seq<Example>, n: nat)
    requires n <= |es|
    ensures CorrectTo(w, es, n) == n <==> forall i :: 0 <= i < n ==> Predict(w, es[i]) == es[i].y
  {
    hide Predict;
    if n > 0 { AllCorrect(w, es, n - 1); }
  }

  /** The samples predicted right, as a set. */
  ghost function Right(w: Weights, es: seq<Example>, n: nat): set<nat>
    requires n <= |es|
  {
    set i: nat | i < n && Predict(w, es[i]) == es[i].y
  }

  lemma {:induction false} CorrectIsRight(w: Weights, es: seq<Example>, n: nat)
    requires n <= |es|
    ensures CorrectTo(w, es, n) == |Right(w, es, n)|
  {
    hide Predict;
    if n > 0 {
      CorrectIsRight(w, es, n - 1);
      var before := Right(w, es, n - 1);
      assert Right(w, es, n) == if Predict(w, es[n - 1]) == es[n - 1].y then before + {n - 1} else before;
    }
  }

  /** Accuracy is the share of samples predicted right. */
  lemma AccuracyIsShare(w: Weights, es: seq<Example>)
    ensures Assess(w, es).samples == |es|
    ensures Assess(w, es).accuracy * |es| as real == |Right(w, es, |es|)| as real
  {
    CorrectIsRight(w, es, |es|);
    hide Predict, LossTo, Right, CorrectTo;
    if |es| > 0 { QuotientTimes(CorrectTo(w, es, |es|) as real, |es|); }
    else { assert CorrectTo(w, es, 0) == 0; }
  }

  lemma QuotientTimes(a: real, n: nat)
    requires n > 0
    ensures a / n as real * n as real == a
  {
  }

  /** One more sample adds the mean of its squared scores to the summed loss. */
  lemma LossOfOneMore(w: Weights, es: seq<Example>, e: Example)
    ensures Assess(w, []).loss == 0.0
    ensures var scores := MatVec(w, e.x);
            Assess(w, es + [e]).loss * (|es| + 1) as real
            == Assess(w, es).loss * |es| as real + Dot(scores, scores) / (if |w| == 0 then 1.0 else |w| as real)
  {
    hide Predict, Dot, CorrectTo;
    LossPrefix(w, es, e, |es|);
    var m := LossTo(w, es, |es|);
    if |es| > 0 { QuotientTimes(m, |es|); }
    QuotientTimes(LossTo(w, es + [e], |es| + 1), |es| + 1);
  }

  lemma {:induction false} LossPrefix(w: Weights, es: seq<Example>, e: Example, n: nat)
    requires n <= |es|
    ensures LossTo(w, es + [e], n) == LossTo(w, es, n)
  {
    hide MeanSquare;
    if n > 0 { LossPrefix(w, es, e, n - 1); }
  }

  lemma WholeFraction(c: nat, n: nat)
    requires 0 < n
    ensures c as real / n as real == 1.0 <==> c == n
  {
    var q := c as real / n as real;
    assert q * n as real == c as real;
  }

  /** Accuracy 1 on a non-empty set is exactly every sample predicted right. */
  lemma PerfectAccuracy(w: Weights, es: seq<Example>)
    ensures Assess(w, es).accuracy == 1.0 <==>
            |es| > 0 && forall i :: 0 <= i < |es| ==> Predict(w, es[i]) == es[i].y
  {
    hide Predict, LossTo;
    if |es| > 0 {
      AllCorrect(w, es, |es|);
      WholeFraction(CorrectTo(w, es, |es|), |es|);
    }
  }

  // ---------------------------------------------------------------- the model

  class TinyBaseline {
    var weights: array2<real>
    var learningRate: real

    ghost predicate Valid()
      reads this
    {
      weights.Length1 == DIM
    }

    ghost function RowOf(i: nat): (row: Row)
      requires Valid() && i < weights.Length0
      reads this, weights
      ensures forall j :: 0 <= j < DIM ==> row[j] == weights[i, j]
    {
      seq(DIM, j requires 0 <= j < DIM && Valid() && i < weights.Length0 reads this, weights => weights[i, j])
    }

    /** The weights as a value. */
    ghost function Matrix(): (w: Weights)
      requires Valid()
      reads this, weights
      ensures |w| == weights.Length0
      ensures forall i :: 0 <= i < |w| ==> w[i] == RowOf(i)
    {
      seq(weights.Length0, i requires 0 <= i < weights.Length0 && Valid() reads this, weights => RowOf(i))
    }

    constructor (classes: nat, learningRate: real)
      ensures Valid() && fresh(weights) && this.learningRate == learningRate
      ensures Matrix() == ZeroWeights(classes)
    {
      weights := new real[classes, DIM]((_, _) => 0.0);
      this.learningRate := learningRate;
      new;
      assert forall i :: 0 <= i < classes ==> RowOf(i) == Zeros(DIM);
    }

    /** The inner product of row i with x. */
    method RowDot(i: nat, x: array<real>) returns (d: real)
      requires Valid() && i < weights.Length0 && x.Length == DIM
      ensures d == Dot(Matrix()[i], x[..])
    {
      d := 0.0;
      ghost var row := RowOf(i);
      for j := 0 to DIM
        invariant d == DotTo(row, x[..], j)
      {
        d := d + weights[i, j] * x[j];
      }
    }

    method Scores(x: array<real>) returns (scores: seq<real>)
      requires Valid() && x.Length == DIM
      ensures scores == MatVec(Matrix(), x[..])
    {
      hide Dot;
      scores := [];
      for i := 0 to weights.Length0
        invariant |scores| == i
        invariant forall r :: 0 <= r < i ==> scores[r] == Dot(Matrix()[r], x[..])
      {
        var d := RowDot(i, x);
        scores := scores + [d];
      }
    }

    /** row += a * update, in place. */
    method ScaledAdd(r: nat, a: real, update: seq<real>)
      requires Valid() && r < weights.Length0 && |update| == DIM
      modifies weights
      ensures Matrix() == old(Matrix())[r := Axpy(old(Matrix()[r]), a, update)]
    {
      for j := 0 to DIM
        invariant forall c :: 0 <= c < j ==> weights[r, c] == old(weights[r, c]) + a * update[c]
        invariant forall c :: j <= c < DIM ==> weights[r, c] == old(weights[r, c])
        invariant forall i, c :: 0 <= i < weights.Length0 && i != r && 0 <= c < DIM ==>
                    weights[i, c] == old(weights[i, c])
      {
        weights[r, j] := weights[r, j] + a * update[j];
      }
      assert RowOf(r) == Axpy(old(RowOf(r)), a, update);
      assert forall i :: 0 <= i < weights.Length0 && i != r ==> RowOf(i) == old(RowOf(i));
    }

    /** One pass of the loop body of training. */
    method Learn(sample: MappingSample)
      requires Valid()
      modifies weights
      ensures Matrix() == Update(old(Matrix()), learningRate, Example(Encode(sample), sample.classLabel))
    {
      hide Encode, Dot;
      var x := EncodeSample(sample);
      var scores := Scores(x);
      var predicted := Predicted(scores);
      if predicted != sample.classLabel && sample.classLabel < weights.Length0 {
        var update := Scale(learningRate, x[..]);
        ScaledAdd(sample.classLabel, 1.0, update);
        ScaledAdd(predicted, -1.0, update);
      }
    }

    method Train(samples: seq<MappingSample>, epochs: nat) returns (m: Metrics)
      requires Valid()
      modifies weights
      ensures Matrix() == Epochs(old(Matrix()), learningRate, Encoded(samples), epochs)
      ensures m == Assess(Matrix(), Encoded(samples))
    {
      hide Update, Encode;
      ghost var es := Encoded(samples);
      ghost var w0 := Matrix();
      for e := 0 to epochs
        invariant Matrix() == Epochs(w0, learningRate, es, e)
      {
        ghost var w := Matrix();
        for i := 0 to |samples|
          invariant Matrix() == RunTo(w, learningRate, es, i)
        {
          Learn(samples[i]);
        }
      }
      m := Evaluate(samples);
    }

    method Evaluate(samples: seq<MappingSample>) returns (m: Metrics)
      requires Valid()
      ensures m == Assess(Matrix(), Encoded(samples))
    {
      hide Encode, Dot, Predicted, MeanSquare;
      if |samples| == 0 {
        return Metrics(0.0, 0.0, 0);
      }
      ghost var es := Encoded(samples);
      var correct, loss := 0, 0.0;
      for i := 0 to |samples|
        invariant correct == CorrectTo(Matrix(), es, i)
        invariant loss == LossTo(Matrix(), es, i)
      {
        var x := EncodeSample(samples[i]);
        var scores := Scores(x);
        var best := Predicted(scores);
        correct := correct + (if best == samples[i].classLabel then 1 else 0);
        loss := loss + MeanSquare(scores);
      }
      m := Metrics(loss / |samples| as real, correct as real / |samples| as real, |samples|);
    }
  }

  // ---------------------------------------------------------------- training end to end

  /** One more than the largest label. */
  function ClassesTo(samples: seq<MappingSample>, n: nat): (c: nat)
    requires n <= |samples|
    ensures forall i :: 0 <= i < n ==> samples[i].classLabel < c
    ensures n > 0 ==> exists i :: 0 <= i < n && c == samples[i].classLabel + 1
  {
    if n == 0 then 0
    else
      var c, l := ClassesTo(samples, n - 1), samples[n - 1].classLabel;
      if c <= l then l + 1 else c
  }

  datatype Trained = EmptySamples | EmptyPart | Trained(metrics: Metrics, testMetrics: Metrics)

  ghost function TrainedWeights(samples: seq<MappingSample>, epochs: nat, rate: real): Weights {
    Epochs(ZeroWeights(ClassesTo(samples, |samples|)), rate, Encoded(TrainPart(samples)), epochs)
  }

  /** Fails on no sample or on a single one, whose training part is empty. */
  method TrainBilateral(samples: seq<MappingSample>, epochs: nat, rate: real) returns (r: Trained)
    ensures r.EmptySamples? <==> |samples| == 0
    ensures r.EmptyPart? <==> |samples| == 1
    ensures r.Trained? ==>
              && r.metrics == Assess(TrainedWeights(samples, epochs, rate), Encoded(TrainPart(samples)))
              && r.testMetrics == Assess(TrainedWeights(samples, epochs, rate), Encoded(TestPart(samples)))
  {
    hide Encode, Epochs, Assess;
    if |samples| == 0 {
      return EmptySamples;
    }
    var classes := ClassesTo(samples, |samples|);
    var train, test := TrainTestSplit(samples);
    if |train| == 0 || |test| == 0 {
      return EmptyPart;
    }
    var model := new TinyBaseline(classes, rate);
    var metrics := model.Train(train, epochs);
    var testMetrics := model.Evaluate(test);
    r := Trained(metrics, testMetrics);
  }

  lemma EncodedWithin(samples: seq<MappingSample>)
    ensures Within(36.0, Encoded(samples))
  {
    hide Encode, Dot;
    forall i | 0 <= i < |samples|
      ensures Dot(Encoded(samples)[i].x, Encoded(samples)[i].x) <= 36.0
    {
      EncodedNorm(samples[i]);
    }
  }

  /** On data separable with margin g by a matrix of norm 1, training makes at most
      72/g^2 updates in all, for any number of epochs and any positive rate. */
  lemma BaselineMistakeBound(u: Weights, g: real, rate: real, samples: seq<MappingSample>, epochs: nat)
    requires rate > 0.0 && Separates(u, 1.0, g, Encoded(samples))
    ensures EpochUpdates(ZeroWeights(|u|), rate, Encoded(samples), epochs) as real * (g * g) <= 72.0
  {
    hide Within, Separates, EpochUpdates, Encoded;
    EncodedWithin(samples);
    MistakeBound(u, 1.0, g, 36.0, rate, Encoded(samples), epochs);
  }

  /** With epochs*g^2 > 72*u2 on separable data, training reports accuracy 1 on its
      training part, and more epochs would change nothing. */
  lemma BilateralFits(u: Weights, u2: real, g: real, rate: real, samples: seq<MappingSample>, epochs: nat)
    requires |samples| > 1 && |u| == ClassesTo(samples, |samples|)
    requires rate > 0.0 && Separates(u, u2, g, Encoded(TrainPart(samples))) && epochs as real * (g * g) > 72.0 * u2
    ensures Assess(TrainedWeights(samples, epochs, rate), Encoded(TrainPart(samples))).accuracy == 1.0
    ensures forall later: nat :: later >= epochs ==>
              TrainedWeights(samples, later, rate) == TrainedWeights(samples, epochs, rate)
  {
    hide Within, Separates, Epochs, Encode, Assess, Predict;
    var es := Encoded(TrainPart(samples));
    EncodedWithin(TrainPart(samples));
    GuaranteedFit(u, u2, g, 36.0, rate, es, epochs);
    PerfectAccuracy(TrainedWeights(samples, epochs, rate), es);
  }

  // ---------------------------------------------------------------- the label in the encoding

  /** No field of the sample hashes into the slots of the labels. */
  ghost predicate Unaliased(s: MappingSample, classes: nat) {
    s.classLabel < classes <= DIM && forall k :: 0 <= k < FIELDS ==> Slot(HashOf(s, k)) >= classes
  }

  lemma {:induction false} FieldsStayAbove(s: MappingSample, classes: nat, k: nat, j: nat)
    requires Unaliased(s, classes) && k <= FIELDS && j < classes
    ensures EncodeTo(s, k)[j] == 0.0
  {
    hide HashOf, Slot, Sign;
    if k > 0 { FieldsStayAbove(s, classes, k - 1, j); }
  }

  /** Without aliases the first components of an encoded sample spell out its label. */
  lemma LabelIsEncoded(s: MappingSample, classes: nat, j: nat)
    requires Unaliased(s, classes) && j < classes
    ensures Encode(s)[j] == if j == s.classLabel then 1.0 else 0.0
  {
    FieldsStayAbove(s, classes, FIELDS, j);
    hide EncodeTo, HashOf, Slot;
  }

  ghost function Unit(y: nat): (row: Row)
    requires y < DIM
    ensures forall j :: 0 <= j < DIM ==> row[j] == if j == y then 1.0 else 0.0
  {
    Zeros(DIM)[y := 1.0]
  }

  /** One unit row per class. */
  ghost function Units(classes: nat): (u: Weights)
    requires classes <= DIM
    ensures |u| == classes && forall y :: 0 <= y < classes ==> u[y] == Unit(y)
  {
    seq(classes, y requires 0 <= y < classes => Unit(y))
  }

  lemma {:induction false} DotUnit(y: nat, x: Row, n: nat)
    requires y < DIM && n <= DIM
    ensures DotTo(Unit(y), x, n) == if y < n then x[y] else 0.0
  {
    if n > 0 { DotUnit(y, x, n - 1); }
  }

  lemma {:induction false} UnitsNorm(classes: nat, n: nat)
    requires n <= classes <= DIM
    ensures FrobTo(Units(classes), Units(classes), n) == n as real
  {
    hide DotTo;
    if n > 0 {
      UnitsNorm(classes, n - 1);
      DotUnit(n - 1, Unit(n - 1), DIM);
    }
  }

  /** The unit rows read the label off every sample without aliases, with margin 1. */
  lemma UnitsSeparate(samples: seq<MappingSample>, classes: nat)
    requires 0 < classes <= DIM && forall i :: 0 <= i < |samples| ==> Unaliased(samples[i], classes)
    ensures Separates(Units(classes), classes as real, 1.0, Encoded(samples))
  {
    UnitsNorm(classes, classes);
    var u, es := Units(classes), Encoded(samples);
    hide FrobTo, DotTo, Unaliased, Encode, Unit;
    forall i | 0 <= i < |samples|
      ensures Margin(u, 1.0, es[i])
    {
      UnitsMargin(samples[i], classes);
    }
  }

  lemma UnitsMargin(s: MappingSample, classes: nat)
    requires classes <= DIM && Unaliased(s, classes)
    ensures Margin(Units(classes), 1.0, Example(Encode(s), s.classLabel))
  {
    var x := Encode(s);
    LabelIsEncoded(s, classes, s.classLabel);
    hide DotTo, Encode, Unit;
    forall r | 0 <= r < classes
      ensures Dot(Unit(r), x) == if r == s.classLabel then 1.0 else 0.0
    {
      LabelIsEncoded(s, classes, r);
      DotUnit(r, x, DIM);
    }
  }

  /** No separability is needed when no field of a training sample is hashed into a
      label slot: the label in the encoding separates the data by itself. Training
      then makes at most 72 updates per class, and after more epochs than that it
      reports accuracy 1. */
  lemma UnaliasedFits(rate: real, samples: seq<MappingSample>, epochs: nat)
    requires |samples| > 1 && rate > 0.0
    requires var classes := ClassesTo(samples, |samples|);
             classes <= DIM && forall i :: 0 <= i < |TrainPart(samples)| ==> Unaliased(TrainPart(samples)[i], classes)
    ensures var classes := ClassesTo(samples, |samples|);
            && EpochUpdates(ZeroWeights(classes), rate, Encoded(TrainPart(samples)), epochs) <= 72 * classes
            && (epochs > 72 * classes ==>
                  Assess(TrainedWeights(samples, epochs, rate), Encoded(TrainPart(samples))).accuracy == 1.0)
  {
    hide Within, Separates, EpochUpdates, Encoded, Unaliased, Assess, TrainedWeights;
    var classes, train := ClassesTo(samples, |samples|), TrainPart(samples);
    UnitsSeparate(train, classes);
    EncodedWithin(train);
    MistakeBound(Units(classes), classes as real, 1.0, 36.0, rate, Encoded(train), epochs);
    if epochs > 72 * classes { BilateralFits(Units(classes), classes as real, 1.0, rate, samples, epochs); }
  }
}
