/** The category-balanced batch sampler of the perception trainer
    (train_perception_v2.py). Random permutations are arbitrary ones. */
module Sampler {
  const CATEGORIES: nat := 12

  datatype Batch = Batch(indices: seq<nat>, labels: seq<nat>)

  predicate Distinct<T(==)>(s: seq<T>) { forall i, j :: 0 <= i < j < |s| ==> s[i] != s[j] }

  predicate IsPermutation(p: seq<nat>, n: nat) {
    |p| == n && Distinct(p) && forall i :: 0 <= i < n ==> p[i] < n
  }

  /** Some permutation of 0..n; callers know no more than that. */
  method RandPerm(n: nat) returns (p: seq<nat>)
    ensures IsPermutation(p, n)
  {
    p := seq(n, i requires 0 <= i < n => i);
  }

  // ---------------------------------------------------------------- pools

  /** Each category's indices: distinct, and labelled with the category. */
  ghost predicate Pools(labels: seq<int>, pools: seq<seq<nat>>) {
    && |pools| == CATEGORIES
    && forall c :: 0 <= c < CATEGORIES ==> Distinct(pools[c]) && Labelled(labels, pools[c], c)
  }

  ghost predicate Labelled(labels: seq<int>, pool: seq<nat>, c: int) {
    forall i :: 0 <= i < |pool| ==> pool[i] < |labels| && labels[pool[i]] == c
  }

  /** How many of the first n labels are c. */
  function CountTo(labels: seq<int>, c: int, n: nat): nat
    requires n <= |labels|
  {
    if n == 0 then 0 else CountTo(labels, c, n - 1) + (if labels[n - 1] == c then 1 else 0)
  }

  /** It is the number of indices that carry the label. */
  lemma {:induction false} CountIsCardinality(labels: seq<int>, c: int, n: nat)
    requires n <= |labels|
    ensures CountTo(labels, c, n) == |set i: nat | i < n && labels[i] == c|
  {
    if n > 0 {
      CountIsCardinality(labels, c, n - 1);
      var before := set i: nat | i < n - 1 && labels[i] == c;
      assert (set i: nat | i < n && labels[i] == c) == if labels[n - 1] == c then before + {n - 1} else before;
    }
  }

  /** All indices with a label. */
  method IndicesOf(labels: seq<int>, c: nat) returns (pool: seq<nat>)
    ensures Distinct(pool) && Labelled(labels, pool, c) && |pool| == CountTo(labels, c, |labels|)
    ensures forall i: nat :: i < |labels| && labels[i] == c ==> i in pool
  {
    pool := [];
    for x := 0 to |labels|
      invariant forall i: nat :: i < x && labels[i] == c ==> i in pool
      invariant Distinct(pool) && Labelled(labels, pool, c) && |pool| == CountTo(labels, c, x)
      invariant forall i :: 0 <= i < |pool| ==> pool[i] < x
    {
      if labels[x] == c {
        pool := pool + [x];
      }
    }
  }

  function Reorder(pool: seq<nat>, p: seq<nat>): (s: seq<nat>)
    requires IsPermutation(p, |pool|)
    ensures |s| == |pool| && forall i :: 0 <= i < |s| ==> s[i] == pool[p[i]]
  {
    seq(|pool|, i requires 0 <= i < |pool| => pool[p[i]])
  }

  lemma ReorderKeeps(labels: seq<int>, pool: seq<nat>, p: seq<nat>, c: int)
    requires Distinct(pool) && Labelled(labels, pool, c) && IsPermutation(p, |pool|)
    ensures Distinct(Reorder(pool, p)) && Labelled(labels, Reorder(pool, p), c)
  {
    var s := Reorder(pool, p);
    forall i, j | 0 <= i < j < |s|
      ensures s[i] != s[j]
    {
      assert p[i] != p[j];
    }
  }

  // ---------------------------------------------------------------- what an epoch keeps

  /** Everything drawn so far, in order. */
  function Drawn(batches: seq<Batch>): seq<nat> {
    if batches == [] then [] else Drawn(batches[..|batches| - 1]) + batches[|batches| - 1].indices
  }

  /** In how many of the chosen category lists a category occurs. */
  function Chosen(picks: seq<seq<nat>>, c: nat): nat {
    if picks == [] then 0
    else Chosen(picks[..|picks| - 1], c) + (if c in picks[|picks| - 1] then 1 else 0)
  }

  function LabelsOf(cats: seq<nat>, per: nat): (ls: seq<nat>)
  {
    if cats == [] then [] else LabelsOf(cats[..|cats| - 1], per) + seq(per, _ => cats[|cats| - 1])
  }

  /** Pointers inside the pools; no index drawn twice; every index drawn lies
      before the pointer of its category. */
  ghost predicate Used(labels: seq<int>, pools: seq<seq<nat>>, ptr: seq<nat>, drawn: seq<nat>) {
    && |ptr| == CATEGORIES && |pools| == CATEGORIES
    && (forall c :: 0 <= c < CATEGORIES ==> ptr[c] <= |pools[c]|)
    && Distinct(drawn)
    && forall k :: 0 <= k < |drawn| ==> Before(labels, pools, ptr, drawn[k])
  }

  ghost predicate Before(labels: seq<int>, pools: seq<seq<nat>>, ptr: seq<nat>, x: nat)
    requires |ptr| == |pools| == CATEGORIES
  {
    x < |labels| && 0 <= labels[x] < CATEGORIES &&
    exists i :: 0 <= i < ptr[labels[x]] && i < |pools[labels[x]]| && pools[labels[x]][i] == x
  }

  /** Drawing the next `per` indices of a category keeps all that. */
  lemma DrawKeepsUsed(labels: seq<int>, pools: seq<seq<nat>>, ptr: seq<nat>, drawn: seq<nat>, c: nat, per: nat)
    requires Pools(labels, pools) && Used(labels, pools, ptr, drawn)
    requires c < CATEGORIES && ptr[c] + per <= |pools[c]|
    ensures Used(labels, pools, ptr[c := ptr[c] + per], drawn + pools[c][ptr[c]..ptr[c] + per])
  {
    var slice, ptr' := pools[c][ptr[c]..ptr[c] + per], ptr[c := ptr[c] + per];
    forall k | 0 <= k < |slice|
      ensures Before(labels, pools, ptr', slice[k]) && slice[k] !in drawn
    {
      var x := slice[k];
      assert pools[c][ptr[c] + k] == x && labels[x] == c;
    }
    forall k | 0 <= k < |drawn|
      ensures Before(labels, pools, ptr', drawn[k])
    {
      assert Before(labels, pools, ptr, drawn[k]);
    }
    hide Before;
    assert forall i :: 0 <= i < |drawn| ==> drawn[i] in drawn;
    assert forall i, j :: 0 <= i < j < |slice| ==> slice[i] != slice[j];
  }

  /** A batch for a list of categories: `per` indices of each, labelled accordingly. */
  ghost predicate Balanced(labels: seq<int>, b: Batch, cats: seq<nat>, per: nat) {
    && Distinct(cats) && (forall k :: 0 <= k < |cats| ==> cats[k] < CATEGORIES)
    && b.labels == LabelsOf(cats, per)
    && |b.labels| == |cats| * per
    && Matching(labels, b.indices, b.labels)
  }

  /** Index by index, the label beside it is the one in the data. */
  ghost predicate Matching(labels: seq<int>, indices: seq<nat>, ls: seq<nat>) {
    |indices| == |ls| && forall t :: 0 <= t < |indices| ==> indices[t] < |labels| && labels[indices[t]] == ls[t]
  }

  lemma MatchingGrows(labels: seq<int>, indices: seq<nat>, ls: seq<nat>, slice: seq<nat>, c: nat)
    requires Matching(labels, indices, ls) && Labelled(labels, slice, c)
    ensures Matching(labels, indices + slice, ls + seq(|slice|, _ => c))
  {
  }

  /** Categories with a full share left. */
  method Available(pools: seq<seq<nat>>, ptr: seq<nat>, per: nat) returns (avail: seq<nat>)
    requires |pools| == |ptr| == CATEGORIES
    ensures Distinct(avail)
    ensures forall c: nat :: c in avail <==> c < CATEGORIES && ptr[c] + per <= |pools[c]|
  {
    avail := [];
    for c := 0 to CATEGORIES
      invariant Distinct(avail)
      invariant forall d: nat :: d in avail <==> d < c && ptr[d] + per <= |pools[d]|
    {
      if ptr[c] + per <= |pools[c]| {
        assert forall k :: 0 <= k < |avail| ==> avail[k] in avail;
        avail := avail + [c];
      }
    }
  }

  /** `want` of the available categories, in a random order. */
  method Pick(avail: seq<nat>, want: nat) returns (cats: seq<nat>)
    requires Distinct(avail) && want <= |avail|
    ensures |cats| == want && Distinct(cats) && forall k :: 0 <= k < |cats| ==> cats[k] in avail
  {
    var p := RandPerm(|avail|);
    cats := seq(want, k requires 0 <= k < want => avail[p[k]]);
    forall i, j | 0 <= i < j < |cats|
      ensures cats[i] != cats[j]
    {
      assert p[i] != p[j];
    }
  }

  ghost function Advanced(ptr: seq<nat>, cats: seq<nat>, per: nat): (r: seq<nat>)
    requires |ptr| == CATEGORIES
    ensures |r| == CATEGORIES && forall c :: 0 <= c < CATEGORIES ==> r[c] == ptr[c] + (if c in cats then per else 0)
  {
    seq(CATEGORIES, c requires 0 <= c < CATEGORIES => ptr[c] + (if c in cats then per else 0))
  }

  /** The labels of a batch come in blocks, one per category in its order. */
  lemma {:induction false} LabelBlocks(cats: seq<nat>, per: nat, k: nat, t: nat)
    requires k < |cats| && t < per
    ensures |LabelsOf(cats, per)| == |cats| * per
    ensures k * per + t < |LabelsOf(cats, per)| && LabelsOf(cats, per)[k * per + t] == cats[k]
  {
    var n := |cats| - 1;
    LabelCount(cats, per);
    LabelCount(cats[..n], per);
    assert (n - k) * per == n * per - k * per;
    NonNegative(n - k, per);
    if k < n {
      LabelBlocks(cats[..n], per, k, t);
    }
  }

  lemma {:induction false} LabelCount(cats: seq<nat>, per: nat)
    ensures |LabelsOf(cats, per)| == |cats| * per
  {
    if cats != [] {
      LabelCount(cats[..|cats| - 1], per);
      assert (|cats| - 1) * per + per == |cats| * per;
    }
  }

  lemma LabelsGrow(cats: seq<nat>, k: nat, per: nat)
    requires k < |cats|
    ensures LabelsOf(cats[..k + 1], per) == LabelsOf(cats[..k], per) + seq(per, _ => cats[k])
  {
    assert cats[..k + 1][..k] == cats[..k];
  }

  /** A batch after its first k categories. */
  ghost predicate Partway(labels: seq<int>, pools: seq<seq<nat>>, start: seq<nat>, cats: seq<nat>, k: nat, per: nat,
                          drawn: seq<nat>, indices: seq<nat>, ls: seq<nat>, ptr: seq<nat>)
    requires k <= |cats| && |start| == CATEGORIES
  {
    && ptr == Advanced(start, cats[..k], per)
    && Used(labels, pools, ptr, drawn + indices)
    && ls == LabelsOf(cats[..k], per) && |ls| == k * per
    && Matching(labels, indices, ls)
  }

  /** The next share of one category. */
  lemma ShareDrawn(labels: seq<int>, pools: seq<seq<nat>>, start: seq<nat>, cats: seq<nat>, k: nat, per: nat,
                   drawn: seq<nat>, indices: seq<nat>, ls: seq<nat>, ptr: seq<nat>)
    requires |start| == CATEGORIES && k < |cats| && Distinct(cats) && cats[k] < CATEGORIES
    requires Pools(labels, pools) && start[cats[k]] + per <= |pools[cats[k]]|
    requires Partway(labels, pools, start, cats, k, per, drawn, indices, ls, ptr)
    ensures var c := cats[k];
            && |ptr| == CATEGORIES && ptr[c] + per <= |pools[c]|
            && Partway(labels, pools, start, cats, k + 1, per, drawn, indices + pools[c][ptr[c]..ptr[c] + per],
                       ls + seq(per, _ => c), ptr[c := ptr[c] + per])
  {
    hide Used, Matching, LabelsOf;
    var c := cats[k];
    Unseen(cats, k);
    AdvancedGrows(start, cats, k, per);
    SliceIsLabelled(labels, pools, c, ptr[c], per);
    DrawKeepsUsed(labels, pools, ptr, drawn + indices, c, per);
    hide Pools, Distinct, Labelled;
    var slice := pools[c][ptr[c]..ptr[c] + per];
    assert drawn + indices + slice == drawn + (indices + slice);
    LabelsGrow(cats, k, per);
    MatchingGrows(labels, indices, ls, slice, c);
    assert (k + 1) * per == k * per + per;
  }

  lemma NothingDrawn(labels: seq<int>, pools: seq<seq<nat>>, start: seq<nat>, cats: seq<nat>, per: nat, drawn: seq<nat>)
    requires |start| == CATEGORIES && Used(labels, pools, start, drawn)
    ensures Partway(labels, pools, start, cats, 0, per, drawn, [], [], start)
  {
    hide Used;
    assert drawn + [] == drawn;
    assert cats[..0] == [];
    AdvancedByNone(start, per);
  }

  lemma AdvancedByNone(ptr: seq<nat>, per: nat)
    requires |ptr| == CATEGORIES
    ensures Advanced(ptr, [], per) == ptr
  {
  }

  /** One batch: the next share of each chosen category. */
  method DrawBatch(labels: seq<int>, pools: seq<seq<nat>>, start: seq<nat>, cats: seq<nat>, per: nat,
                   ghost drawn: seq<nat>)
    returns (batch: Batch, ptr: seq<nat>)
    requires Pools(labels, pools) && Used(labels, pools, start, drawn)
    requires Distinct(cats)
    requires forall k :: 0 <= k < |cats| ==> cats[k] < CATEGORIES && start[cats[k]] + per <= |pools[cats[k]]|
    ensures Balanced(labels, batch, cats, per)
    ensures ptr == Advanced(start, cats, per)
    ensures Used(labels, pools, ptr, drawn + batch.indices)
  {
    var indices: seq<nat>, ls: seq<nat> := [], [];
    ptr := start;
    NothingDrawn(labels, pools, start, cats, per, drawn);
    for k := 0 to |cats|
      invariant Partway(labels, pools, start, cats, k, per, drawn, indices, ls, ptr)
    {
      hide Partway;
      var c := cats[k];
      ShareDrawn(labels, pools, start, cats, k, per, drawn, indices, ls, ptr);
      indices := indices + pools[c][ptr[c]..ptr[c] + per];
      ls := ls + seq(per, _ => c);
      ptr := ptr[c := ptr[c] + per];
    }
    assert cats[..|cats|] == cats;
    batch := Batch(indices, ls);
  }

  lemma AdvancedGrows(ptr: seq<nat>, cats: seq<nat>, k: nat, per: nat)
    requires |ptr| == CATEGORIES && k < |cats| && cats[k] < CATEGORIES && cats[k] !in cats[..k]
    ensures var p := Advanced(ptr, cats[..k], per);
            Advanced(ptr, cats[..k + 1], per) == p[cats[k] := p[cats[k]] + per] && p[cats[k]] == ptr[cats[k]]
  {
    assert cats[..k + 1] == cats[..k] + [cats[k]];
  }

  lemma Unseen(cats: seq<nat>, k: nat)
    requires Distinct(cats) && k < |cats|
    ensures cats[k] !in cats[..k]
  {
  }

  lemma SliceIsLabelled(labels: seq<int>, pools: seq<seq<nat>>, c: nat, at: nat, per: nat)
    requires Pools(labels, pools) && c < CATEGORIES && at + per <= |pools[c]|
    ensures Labelled(labels, pools[c][at..at + per], c)
  {
  }

  // ---------------------------------------------------------------- how long an epoch lasts

  /** How many of the categories below k are in a list. */
  function CountBelow(cats: seq<nat>, k: nat): nat {
    if k == 0 then 0 else CountBelow(cats, k - 1) + (if k - 1 in cats then 1 else 0)
  }

  lemma {:induction false} CountBelowAppend(cats: seq<nat>, x: nat, k: nat)
    requires x !in cats
    ensures CountBelow(cats + [x], k) == CountBelow(cats, k) + (if x < k then 1 else 0)
  {
    if k > 0 { CountBelowAppend(cats, x, k - 1); }
  }

  lemma {:induction false} CountBelowAll(cats: seq<nat>, k: nat)
    requires Distinct(cats) && forall i :: 0 <= i < |cats| ==> cats[i] < k
    ensures CountBelow(cats, k) == |cats|
  {
    if cats == [] {
      NoneBelow(k);
    } else {
      var front, x := cats[..|cats| - 1], cats[|cats| - 1];
      CountBelowAll(front, k);
      assert cats == front + [x];
      CountBelowAppend(front, x, k);
    }
  }

  lemma {:induction false} NoneBelow(k: nat)
    ensures CountBelow([], k) == 0
  {
    if k > 0 { NoneBelow(k - 1); }
  }

  /** Choices of the categories below k, over all batches. */
  function ChosenBelow(picks: seq<seq<nat>>, k: nat): nat {
    if k == 0 then 0 else ChosenBelow(picks, k - 1) + Chosen(picks, k - 1)
  }

  lemma {:induction false} ChosenBelowAppend(picks: seq<seq<nat>>, cats: seq<nat>, k: nat)
    ensures ChosenBelow(picks + [cats], k) == ChosenBelow(picks, k) + CountBelow(cats, k)
  {
    if k > 0 {
      ChosenBelowAppend(picks, cats, k - 1);
      assert (picks + [cats])[..|picks|] == picks;
    }
  }

  lemma {:induction false} ChosenInAll(picks: seq<seq<nat>>, size: nat, k: nat)
    requires forall b :: 0 <= b < |picks| ==> Choice(picks[b], size, k)
    ensures ChosenBelow(picks, k) == |picks| * size
  {
    if picks == [] {
      NothingChosen(k);
    } else {
      var front, cats := picks[..|picks| - 1], picks[|picks| - 1];
      ChosenInAll(front, size, k);
      assert picks == front + [cats];
      ChosenBelowAppend(front, cats, k);
      CountBelowAll(cats, k);
      assert (|front| + 1) * size == |front| * size + size;
    }
  }

  /** `size` different categories below k. */
  ghost predicate Choice(cats: seq<nat>, size: nat, k: nat) {
    |cats| == size && Distinct(cats) && forall i :: 0 <= i < |cats| ==> cats[i] < k
  }

  lemma {:induction false} NothingChosen(k: nat)
    ensures ChosenBelow([], k) == 0
  {
    if k > 0 { NothingChosen(k - 1); }
  }

  lemma {:induction false} ChosenAtLeast(picks: seq<seq<nat>>, avail: seq<nat>, n: nat, k: nat)
    requires forall c :: 0 <= c < k && c !in avail ==> Chosen(picks, c) >= n
    ensures ChosenBelow(picks, k) + n * CountBelow(avail, k) >= n * k
  {
    if k > 0 {
      ChosenAtLeast(picks, avail, n, k - 1);
      assert n * k == n * (k - 1) + n;
      assert n * (CountBelow(avail, k - 1) + 1) == n * CountBelow(avail, k - 1) + n;
    }
  }

  /** Every pool holds n full shares. */
  ghost predicate HasShares(pools: seq<seq<nat>>, per: nat, n: nat)
    requires |pools| == CATEGORIES
  {
    forall c :: 0 <= c < CATEGORIES ==> n * per <= |pools[c]|
  }

  lemma NonNegative(a: int, b: nat)
    ensures a >= 0 ==> a * b >= 0
  {
  }

  lemma UsedUp(chosen: nat, n: nat, per: nat, size: nat)
    requires per * chosen + per > size && n * per <= size
    ensures chosen >= n
  {
    NonNegative(n - chosen - 1, per);
    assert (n - chosen - 1) * per == n * per - per * chosen - per;
  }

  lemma Shortfall(total: nat, n: nat, left: nat, size: nat)
    requires total + n * left >= n * CATEGORIES && left < size
    ensures total >= (CATEGORIES + 1 - size) * n
  {
    NonNegative(size - 1 - left, n);
    assert (size - 1 - left) * n == size * n - n - n * left;
  }

  /** A category without a full share left has been chosen as often as the smallest
      pool allows. */
  lemma DrawnOut(pools: seq<seq<nat>>, picks: seq<seq<nat>>, ends: seq<nat>, per: nat, n: nat, c: nat)
    requires |pools| == |ends| == CATEGORIES && HasShares(pools, per, n) && c < CATEGORIES
    requires ends[c] == per * Chosen(picks, c) && ends[c] + per > |pools[c]|
    ensures Chosen(picks, c) >= n
  {
    hide Chosen;
    UsedUp(Chosen(picks, c), n, per, |pools[c]|);
  }

  /** An epoch that stops early has drawn a share of every category but fewer than
      `size` as often as the smallest pool allows. */
  lemma EarlyStopIsLate(pools: seq<seq<nat>>, picks: seq<seq<nat>>, ends: seq<nat>, avail: seq<nat>,
                        per: nat, size: nat, n: nat)
    requires |pools| == |ends| == CATEGORIES && HasShares(pools, per, n)
    requires forall b :: 0 <= b < |picks| ==> Choice(picks[b], size, CATEGORIES)
    requires forall c :: 0 <= c < CATEGORIES ==> ends[c] == per * Chosen(picks, c)
    requires Distinct(avail) && |avail| < size
    requires forall c: nat :: c in avail <==> c < CATEGORIES && ends[c] + per <= |pools[c]|
    ensures |picks| * size >= (CATEGORIES + 1 - size) * n
  {
    hide Chosen, ChosenBelow, CountBelow, HasShares, Choice;
    forall c | 0 <= c < CATEGORIES && c !in avail
      ensures Chosen(picks, c) >= n
    {
      DrawnOut(pools, picks, ends, per, n, c);
    }
    assert forall i :: 0 <= i < |avail| ==> avail[i] in avail;
    ChosenAtLeast(picks, avail, n, CATEGORIES);
    ChosenInAll(picks, size, CATEGORIES);
    CountBelowAll(avail, CATEGORIES);
    Shortfall(|picks| * size, n, |avail|, size);
  }

  lemma BalancedChoice(labels: seq<int>, batch: Batch, cats: seq<nat>, per: nat, size: nat)
    requires Balanced(labels, batch, cats, per) && |cats| == size
    ensures Choice(cats, size, CATEGORIES)
  {
  }

  /** One epoch. The ghost results are the shuffled pools, the categories chosen
      for each batch and the final pointers. */
  method EpochBatches(labels: seq<int>, batchCats: nat, batchPerCat: nat)
    returns (batches: seq<Batch>, ghost pools: seq<seq<nat>>, ghost picks: seq<seq<nat>>, ghost ends: seq<nat>)
    requires batchCats > 0 && batchPerCat > 0
    ensures Pools(labels, pools) && forall c :: 0 <= c < CATEGORIES ==> |pools[c]| == CountTo(labels, c, |labels|)
    ensures |picks| == |batches|
    ensures forall b :: 0 <= b < |batches| ==>
              |picks[b]| == batchCats && Balanced(labels, batches[b], picks[b], batchPerCat)
    ensures Distinct(Drawn(batches))
    ensures Used(labels, pools, ends, Drawn(batches))
    ensures forall c :: 0 <= c < CATEGORIES ==> ends[c] == batchPerCat * Chosen(picks, c)
    ensures |pools| == |ends| == 12
    ensures var total := |pools[0]| / batchPerCat * 12 / batchCats;
            && |batches| <= total
            && (|batches| < total ==>
                  exists avail: seq<nat> :: Distinct(avail) && |avail| < batchCats &&
                    forall c: nat :: c in avail <==> c < CATEGORIES && ends[c] + batchPerCat <= |pools[c]|)
            && (|batches| < total ==>
                  forall n: nat :: HasShares(pools, batchPerCat, n) ==>
                    |batches| * batchCats >= (13 - batchCats) * n)
  {
    hide Used, Balanced, CountTo, HasShares, Choice;
    var catIndices := AllIndices(labels);
    var nPerCat := |catIndices[0]| / batchPerCat;
    var totalBatches := nPerCat * CATEGORIES / batchCats;
    var shuffled := Shuffle(labels, catIndices);
    var ptr: seq<nat> := seq(CATEGORIES, _ => 0);
    batches := [];
    pools, picks := shuffled, [];
    NothingUsed(labels, shuffled, ptr);
    var b := 0;
    while b < totalBatches
      invariant b <= totalBatches && |batches| == |picks| == b
      invariant |ptr| == CATEGORIES
      invariant forall i :: 0 <= i < b ==>
                  |picks[i]| == batchCats && Balanced(labels, batches[i], picks[i], batchPerCat)
      invariant Used(labels, shuffled, ptr, Drawn(batches))
      invariant forall c :: 0 <= c < CATEGORIES ==> ptr[c] == batchPerCat * Chosen(picks, c)
    {
      hide Pools;
      var avail := Available(shuffled, ptr, batchPerCat);
      if |avail| < batchCats {
        ends := ptr;
        UsedIsDistinct(labels, shuffled, ptr, Drawn(batches));
        forall i | 0 <= i < b
          ensures Choice(picks[i], batchCats, CATEGORIES)
        {
          BalancedChoice(labels, batches[i], picks[i], batchPerCat, batchCats);
        }
        forall n: nat | HasShares(pools, batchPerCat, n)
          ensures |batches| * batchCats >= (CATEGORIES + 1 - batchCats) * n
        {
          EarlyStopIsLate(pools, picks, ends, avail, batchPerCat, batchCats, n);
        }
        return;
      }
      var cats := Pick(avail, batchCats);
      ghost var before := ptr;
      var batch;
      batch, ptr := DrawBatch(labels, shuffled, ptr, cats, batchPerCat, Drawn(batches));
      ChosenGrows(picks, cats, before, batchPerCat);
      assert (batches + [batch])[..|batches|] == batches;
      batches := batches + [batch];
      picks := picks + [cats];
      b := b + 1;
    }
    ends := ptr;
    UsedIsDistinct(labels, shuffled, ptr, Drawn(batches));
  }

  lemma UsedIsDistinct(labels: seq<int>, pools: seq<seq<nat>>, ptr: seq<nat>, drawn: seq<nat>)
    requires Used(labels, pools, ptr, drawn)
    ensures Distinct(drawn) && |ptr| == CATEGORIES
  {
  }

  lemma ChosenGrows(picks: seq<seq<nat>>, cats: seq<nat>, ptr: seq<nat>, per: nat)
    requires |ptr| == CATEGORIES && forall c :: 0 <= c < CATEGORIES ==> ptr[c] == per * Chosen(picks, c)
    ensures forall c :: 0 <= c < CATEGORIES ==> Advanced(ptr, cats, per)[c] == per * Chosen(picks + [cats], c)
  {
    assert (picks + [cats])[..|picks|] == picks;
    forall c | 0 <= c < CATEGORIES
      ensures Advanced(ptr, cats, per)[c] == per * Chosen(picks + [cats], c)
    {
      assert per * (Chosen(picks, c) + 1) == per * Chosen(picks, c) + per;
    }
  }

  lemma NothingUsed(labels: seq<int>, pools: seq<seq<nat>>, ptr: seq<nat>)
    requires |pools| == CATEGORIES && ptr == seq(CATEGORIES, _ => 0)
    ensures Used(labels, pools, ptr, Drawn([])) && forall c :: 0 <= c < CATEGORIES ==> ptr[c] == 0
  {
  }

  method AllIndices(labels: seq<int>) returns (pools: seq<seq<nat>>)
    ensures Pools(labels, pools) && forall c :: 0 <= c < CATEGORIES ==> |pools[c]| == CountTo(labels, c, |labels|)
  {
    pools := [];
    for c := 0 to CATEGORIES
      invariant |pools| == c
      invariant forall d :: 0 <= d < c ==>
                  Distinct(pools[d]) && Labelled(labels, pools[d], d) && |pools[d]| == CountTo(labels, d, |labels|)
    {
      hide Distinct, Labelled, CountTo;
      var pool := IndicesOf(labels, c);
      pools := pools + [pool];
    }
  }

  method Shuffle(labels: seq<int>, pools: seq<seq<nat>>) returns (shuffled: seq<seq<nat>>)
    requires Pools(labels, pools)
    ensures Pools(labels, shuffled) && forall c :: 0 <= c < CATEGORIES ==> |shuffled[c]| == |pools[c]|
  {
    shuffled := [];
    for c := 0 to CATEGORIES
      invariant |shuffled| == c
      invariant forall d :: 0 <= d < c ==>
                  Distinct(shuffled[d]) && Labelled(labels, shuffled[d], d) && |shuffled[d]| == |pools[d]|
    {
      hide Distinct, Labelled;
      var p := RandPerm(|pools[c]|);
      ReorderKeeps(labels, pools[c], p, c);
      shuffled := shuffled + [Reorder(pools[c], p)];
    }
  }
}
