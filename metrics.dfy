/**
 * The integer side of evaluation: the confusion matrix of one image, computed as the source
 * does (flat bin index `n * target + pred`, `bincount`, reshape to n x n), and its accumulation
 * over the evaluation batches together with the correct-pixel and pixel counters.
 */
module Metrics {
  import opened Arith

  /** One image: its per-pixel predictions and its per-pixel targets, flattened in the same order. */
  datatype Labelled = Labelled(pred: seq<int>, target: seq<int>)

  /** Pixel sequences of equal length whose predictions are class ids (the argmax over n logits). */
  predicate Aligned(x: Labelled, n: nat) {
    |x.pred| == |x.target| && forall k :: 0 <= k < |x.pred| ==> 0 <= x.pred[k] < n
  }

  const NoPixels: Labelled := Labelled([], [])

  /** The pixels of `a` followed by the pixels of `b`. */
  function Concat(a: Labelled, b: Labelled): Labelled {
    Labelled(a.pred + b.pred, a.target + b.target)
  }

  /** The number of elements of `s` equal to `v`. */
  function CountOf(s: seq<int>, v: int): nat {
    if s == [] then 0 else (if s[0] == v then 1 else 0) + CountOf(s[1..], v)
  }

  /** The number of pixels whose target is `t` and whose prediction is `p`. */
  function PairCount(x: Labelled, t: int, p: int): nat
    requires |x.pred| == |x.target|
    decreases |x.target|
  {
    if x.target == [] then 0
    else
      (if x.target[0] == t && x.pred[0] == p then 1 else 0)
      + PairCount(Labelled(x.pred[1..], x.target[1..]), t, p)
  }

  /** The number of elements of `s` in `[0, m)`. */
  function InRangeCount(s: seq<int>, m: int): nat {
    if s == [] then 0 else (if 0 <= s[0] < m then 1 else 0) + InRangeCount(s[1..], m)
  }

  /** The number of pixels whose prediction equals their target (`(preds == labels).sum()`). */
  function Matches(x: Labelled): nat
    requires |x.pred| == |x.target|
    decreases |x.target|
  {
    if x.target == [] then 0
    else (if x.pred[0] == x.target[0] then 1 else 0) + Matches(Labelled(x.pred[1..], x.target[1..]))
  }

  // ---------------------------------------------------------------------------------------
  // confusion_matrix as written: bin indices of the valid pixels, bincount, reshape
  // ---------------------------------------------------------------------------------------

  /** `n * target[k] + pred[k]` for the pixels whose target lies in `[0, n)`, in pixel order. */
  function BinIndices(x: Labelled, n: nat): (r: seq<int>)
    requires |x.pred| == |x.target|
    ensures |r| == InRangeCount(x.target, n)
    decreases |x.target|
  {
    if x.target == [] then []
    else
      (if 0 <= x.target[0] < n then [n * x.target[0] + x.pred[0]] else [])
      + BinIndices(Labelled(x.pred[1..], x.target[1..]), n)
  }

  function MaxOf(s: seq<int>): (m: int)
    requires s != []
    ensures m in s && forall k :: 0 <= k < |s| ==> s[k] <= m
  {
    if |s| == 1 then s[0]
    else var rest := MaxOf(s[1..]); if s[0] >= rest then s[0] else rest
  }

  /**
   * `torch.bincount(inds, minlength)`: counts of 0, 1, ..., with `max(minlength, max(inds) + 1)`
   * bins, so that every index has its bin and no bin lies past the larger of the two. torch
   * raises on a negative index; callers only pass non-negative ones.
   */
  function Bincount(inds: seq<int>, minlength: nat): (r: seq<nat>)
    requires forall k :: 0 <= k < |inds| ==> inds[k] >= 0
    ensures forall v :: 0 <= v < |r| ==> r[v] == CountOf(inds, v)
    ensures |r| >= minlength
    ensures forall k :: 0 <= k < |inds| && inds[k] >= 0 ==> inds[k] < |r|
    ensures |r| > minlength ==> |r| - 1 in inds
  {
    var len: nat := if inds == [] then minlength
                    else if MaxOf(inds) + 1 > minlength then MaxOf(inds) + 1 else minlength;
    seq(len, v requires 0 <= v < len => CountOf(inds, v))
  }

  lemma RowIndexBound(n: nat, t: int, p: int)
    requires 0 <= t < n && 0 <= p < n
    ensures 0 <= n * t + p < n * n
    ensures n * t + n <= n * n
  {
    MulMonotone(n, 0, t);
    MulMonotone(n, t + 1, n);
    assert n * (t + 1) == n * t + n;
  }

  /** Different (target, prediction) pairs of classes land in different bins. */
  lemma BinIndexInjective(n: nat, t: int, p: int, t': int, p': int)
    requires 0 <= p < n && 0 <= p' < n
    requires n * t + p == n * t' + p'
    ensures t == t' && p == p'
  {
    if t < t' {
      MulGap(n, t, t');
      assert false;
    } else if t' < t {
      MulGap(n, t', t);
      assert false;
    }
  }

  lemma {:induction false} BinIndicesInRange(x: Labelled, n: nat)
    requires Aligned(x, n)
    ensures forall k :: 0 <= k < |BinIndices(x, n)| ==> 0 <= BinIndices(x, n)[k] < n * n
    decreases |x.target|
  {
    if x.target != [] {
      var rest := Labelled(x.pred[1..], x.target[1..]);
      BinIndicesInRange(rest, n);
      if 0 <= x.target[0] < n {
        RowIndexBound(n, x.target[0], x.pred[0]);
      }
    }
  }

  lemma CountOfConcat(a: seq<int>, b: seq<int>, v: int)
    ensures CountOf(a + b, v) == CountOf(a, v) + CountOf(b, v)
  {
    if a == [] {
      assert a + b == b;
    } else {
      assert (a + b)[1..] == a[1..] + b;
      CountOfConcat(a[1..], b, v);
    }
  }

  /** The bin of `(t, p)` counts exactly the pixels with target `t` and prediction `p`. */
  lemma {:induction false} BinCountsPairs(x: Labelled, n: nat, t: int, p: int)
    requires Aligned(x, n)
    requires 0 <= t < n && 0 <= p < n
    ensures CountOf(BinIndices(x, n), n * t + p) == PairCount(x, t, p)
    decreases |x.target|
  {
    if x.target != [] {
      var rest := Labelled(x.pred[1..], x.target[1..]);
      BinCountsPairs(rest, n, t, p);
      var head := if 0 <= x.target[0] < n then [n * x.target[0] + x.pred[0]] else [];
      CountOfConcat(head, BinIndices(rest, n), n * t + p);
      if 0 <= x.target[0] < n && n * x.target[0] + x.pred[0] == n * t + p {
        BinIndexInjective(n, x.target[0], x.pred[0], t, p);
      }
    }
  }

  /** Row `t` of a flat `n * n` count vector. */
  function Row(counts: seq<nat>, n: nat, t: int): (r: seq<nat>)
    requires |counts| == n * n && 0 <= t < n
    ensures |r| == n && forall p :: 0 <= p < n ==> n * t + p < |counts| && r[p] == counts[n * t + p]
  {
    RowIndexBound(n, t, 0);
    var start := n * t;
    var r := counts[start .. start + n];
    assert forall p :: 0 <= p < n ==> start + p < |counts| && r[p] == counts[start + p];
    r
  }

  /** `counts.reshape(n, n)`. */
  function Reshape(counts: seq<nat>, n: nat): (m: seq<seq<nat>>)
    requires |counts| == n * n
    ensures |m| == n && forall t :: 0 <= t < n ==> m[t] == Row(counts, n, t)
  {
    seq(n, t requires 0 <= t < n => Row(counts, n, t))
  }

  /** A square matrix of side `n`. */
  predicate IsSquare(m: seq<seq<nat>>, n: nat) {
    |m| == n && forall t :: 0 <= t < n ==> |m[t]| == n
  }

  /**
   * confusion_matrix: entry `[t][p]` is the number of pixels with target `t` and prediction `p`;
   * pixels whose target lies outside `[0, n)` (such as the ignore label 255) are not counted.
   */
  function ConfusionMatrix(x: Labelled, n: nat): (cm: seq<seq<nat>>)
    requires Aligned(x, n)
    ensures IsSquare(cm, n)
    ensures forall t, p :: 0 <= t < n && 0 <= p < n ==> cm[t][p] == PairCount(x, t, p)
  {
    var inds := BinIndices(x, n);
    BinIndicesInRange(x, n);
    assert inds != [] ==> MaxOf(inds) + 1 <= n * n;
    var counts := Bincount(inds, n * n);
    var cm := Reshape(counts, n);
    forall t, p | 0 <= t < n && 0 <= p < n ensures cm[t][p] == PairCount(x, t, p) {
      RowIndexBound(n, t, p);
      BinCountsPairs(x, n, t, p);
    }
    cm
  }

  // ---------------------------------------------------------------------------------------
  // Sums over the matrix
  // ---------------------------------------------------------------------------------------

  function Sum(s: seq<nat>): nat {
    if s == [] then 0 else Sum(s[..|s| - 1]) + s[|s| - 1]
  }

  /** The sum of all entries of a matrix. */
  function MatrixSum(m: seq<seq<nat>>): nat {
    if m == [] then 0 else MatrixSum(m[..|m| - 1]) + Sum(m[|m| - 1])
  }

  /** The sum of the diagonal entries `m[t][t]`, for `t < k`. */
  function Trace(m: seq<seq<nat>>, k: nat): nat
    requires k <= |m| && forall t :: 0 <= t < k ==> t < |m[t]|
  {
    if k == 0 then 0 else Trace(m, k - 1) + m[k - 1][k - 1]
  }

  /** `CountOf(s, 0) + ... + CountOf(s, m - 1)`. */
  function HistogramSum(s: seq<int>, m: int): nat
    decreases if m < 0 then 0 else m
  {
    if m <= 0 then 0 else HistogramSum(s, m - 1) + CountOf(s, m - 1)
  }

  lemma {:induction false} HistogramSumStep(s: seq<int>, m: int)
    requires s != []
    ensures HistogramSum(s, m) == HistogramSum(s[1..], m) + (if 0 <= s[0] < m then 1 else 0)
    decreases if m < 0 then 0 else m
  {
    if m > 0 {
      HistogramSumStep(s, m - 1);
    }
  }

  /** Summing the counts of the values `0 .. m-1` counts the elements in `[0, m)`. */
  lemma {:induction false} HistogramSumIsInRange(s: seq<int>, m: int)
    ensures HistogramSum(s, m) == InRangeCount(s, m)
    decreases |s|
  {
    if s == [] {
      EmptyHistogram(m);
    } else {
      HistogramSumStep(s, m);
      HistogramSumIsInRange(s[1..], m);
    }
  }

  lemma {:induction false} EmptyHistogram(m: int)
    ensures HistogramSum([], m) == 0
    decreases if m < 0 then 0 else m
  {
    if m > 0 {
      EmptyHistogram(m - 1);
    }
  }

  lemma {:induction false} SumOfCounts(r: seq<nat>, s: seq<int>, m: nat)
    requires m <= |r|
    requires forall v :: 0 <= v < m ==> r[v] == CountOf(s, v)
    ensures Sum(r[..m]) == HistogramSum(s, m)
  {
    if m > 0 {
      assert r[..m][..m - 1] == r[..m - 1];
      SumOfCounts(r, s, m - 1);
    }
  }

  /** The predictions of the pixels whose target is `t`. */
  function PredsWithTarget(x: Labelled, t: int): seq<int>
    requires |x.pred| == |x.target|
    decreases |x.target|
  {
    if x.target == [] then []
    else (if x.target[0] == t then [x.pred[0]] else []) + PredsWithTarget(Labelled(x.pred[1..], x.target[1..]), t)
  }

  /** The targets of the pixels predicted correctly. */
  function MatchedTargets(x: Labelled): seq<int>
    requires |x.pred| == |x.target|
    decreases |x.target|
  {
    if x.target == [] then []
    else (if x.pred[0] == x.target[0] then [x.target[0]] else []) + MatchedTargets(Labelled(x.pred[1..], x.target[1..]))
  }

  lemma {:induction false} PredsWithTargetFacts(x: Labelled, n: nat, t: int)
    requires Aligned(x, n)
    ensures forall p :: CountOf(PredsWithTarget(x, t), p) == PairCount(x, t, p)
    ensures InRangeCount(PredsWithTarget(x, t), n) == CountOf(x.target, t)
    decreases |x.target|
  {
    if x.target != [] {
      var rest := Labelled(x.pred[1..], x.target[1..]);
      PredsWithTargetFacts(rest, n, t);
      var head := if x.target[0] == t then [x.pred[0]] else [];
      forall p ensures CountOf(PredsWithTarget(x, t), p) == PairCount(x, t, p) {
        CountOfConcat(head, PredsWithTarget(rest, t), p);
      }
      InRangeConcat(head, PredsWithTarget(rest, t), n);
    }
  }

  lemma {:induction false} MatchedTargetsFacts(x: Labelled, n: nat)
    requires Aligned(x, n)
    ensures forall t :: CountOf(MatchedTargets(x), t) == PairCount(x, t, t)
    ensures InRangeCount(MatchedTargets(x), n) == Matches(x)
    decreases |x.target|
  {
    if x.target != [] {
      var rest := Labelled(x.pred[1..], x.target[1..]);
      MatchedTargetsFacts(rest, n);
      var head := if x.pred[0] == x.target[0] then [x.target[0]] else [];
      forall t ensures CountOf(MatchedTargets(x), t) == PairCount(x, t, t) {
        CountOfConcat(head, MatchedTargets(rest), t);
      }
      InRangeConcat(head, MatchedTargets(rest), n);
    }
  }

  lemma InRangeConcat(a: seq<int>, b: seq<int>, m: int)
    ensures InRangeCount(a + b, m) == InRangeCount(a, m) + InRangeCount(b, m)
  {
    if a == [] {
      assert a + b == b;
    } else {
      assert (a + b)[1..] == a[1..] + b;
      InRangeConcat(a[1..], b, m);
    }
  }

  /** Row `t` of the matrix sums to the number of pixels whose target is `t`. */
  lemma RowSum(x: Labelled, n: nat, t: int)
    requires Aligned(x, n) && 0 <= t < n
    ensures Sum(ConfusionMatrix(x, n)[t]) == CountOf(x.target, t)
  {
    var row := ConfusionMatrix(x, n)[t];
    var preds := PredsWithTarget(x, t);
    PredsWithTargetFacts(x, n, t);
    SumOfCounts(row, preds, n);
    assert row[..n] == row;
    HistogramSumIsInRange(preds, n);
  }

  lemma {:induction false} MatrixSumOfRows(m: seq<seq<nat>>, s: seq<int>, k: nat)
    requires k <= |m|
    requires forall t :: 0 <= t < k ==> Sum(m[t]) == CountOf(s, t)
    ensures MatrixSum(m[..k]) == HistogramSum(s, k)
  {
    if k > 0 {
      assert m[..k][..k - 1] == m[..k - 1];
      MatrixSumOfRows(m, s, k - 1);
    }
  }

  /** All entries together count the pixels whose target lies in `[0, n)`. */
  lemma TotalSum(x: Labelled, n: nat)
    requires Aligned(x, n)
    ensures MatrixSum(ConfusionMatrix(x, n)) == InRangeCount(x.target, n)
  {
    var cm := ConfusionMatrix(x, n);
    forall t | 0 <= t < n ensures Sum(cm[t]) == CountOf(x.target, t) {
      RowSum(x, n, t);
    }
    MatrixSumOfRows(cm, x.target, n);
    assert cm[..n] == cm;
    HistogramSumIsInRange(x.target, n);
  }

  lemma {:induction false} TraceOfCounts(m: seq<seq<nat>>, s: seq<int>, k: nat)
    requires k <= |m| && forall t :: 0 <= t < k ==> t < |m[t]|
    requires forall t :: 0 <= t < k ==> m[t][t] == CountOf(s, t)
    ensures Trace(m, k) == HistogramSum(s, k)
  {
    if k > 0 {
      TraceOfCounts(m, s, k - 1);
    }
  }

  /**
   * The diagonal sums to the number of correctly predicted pixels: a prediction is a class id,
   * so a pixel with an ignored target is never counted as correct.
   */
  lemma TraceIsMatches(x: Labelled, n: nat)
    requires Aligned(x, n)
    ensures Trace(ConfusionMatrix(x, n), n) == Matches(x)
  {
    var cm := ConfusionMatrix(x, n);
    MatchedTargetsFacts(x, n);
    TraceOfCounts(cm, MatchedTargets(x), n);
    HistogramSumIsInRange(MatchedTargets(x), n);
  }

  // ---------------------------------------------------------------------------------------
  // Accumulation over images
  // ---------------------------------------------------------------------------------------

  function ZeroMatrix(n: nat): (m: seq<seq<nat>>)
    ensures IsSquare(m, n) && forall t, p :: 0 <= t < n && 0 <= p < n ==> m[t][p] == 0
  {
    seq(n, _ => seq(n, _ => 0))
  }

  /** Entry-wise sum of two `n x n` matrices (`total_cm += cm`). */
  function MatAdd(a: seq<seq<nat>>, b: seq<seq<nat>>, n: nat): (m: seq<seq<nat>>)
    requires IsSquare(a, n) && IsSquare(b, n)
    ensures IsSquare(m, n) && forall t, p :: 0 <= t < n && 0 <= p < n ==> m[t][p] == a[t][p] + b[t][p]
  {
    seq(n, t requires 0 <= t < n => seq(n, p requires 0 <= p < n => a[t][p] + b[t][p]))
  }

  lemma ConcatAligned(a: Labelled, b: Labelled, n: nat)
    requires Aligned(a, n) && Aligned(b, n)
    ensures Aligned(Concat(a, b), n)
  {
    var c := Concat(a, b);
    forall k | 0 <= k < |c.pred| ensures 0 <= c.pred[k] < n {
      if k >= |a.pred| {
        assert c.pred[k] == b.pred[k - |a.pred|];
      }
    }
  }

  lemma {:induction false} PairCountConcat(a: Labelled, b: Labelled, t: int, p: int)
    requires |a.pred| == |a.target| && |b.pred| == |b.target|
    ensures PairCount(Concat(a, b), t, p) == PairCount(a, t, p) + PairCount(b, t, p)
    decreases |a.target|
  {
    if a.target != [] {
      var rest := Labelled(a.pred[1..], a.target[1..]);
      PairCountConcat(rest, b, t, p);
      assert Concat(a, b).pred[1..] == Concat(rest, b).pred;
      assert Concat(a, b).target[1..] == Concat(rest, b).target;
    } else {
      assert Concat(a, b) == b;
    }
  }

  lemma {:induction false} MatchesConcat(a: Labelled, b: Labelled)
    requires |a.pred| == |a.target| && |b.pred| == |b.target|
    ensures Matches(Concat(a, b)) == Matches(a) + Matches(b)
    decreases |a.target|
  {
    if a.target != [] {
      var rest := Labelled(a.pred[1..], a.target[1..]);
      MatchesConcat(rest, b);
      assert Concat(a, b).pred[1..] == Concat(rest, b).pred;
      assert Concat(a, b).target[1..] == Concat(rest, b).target;
    } else {
      assert Concat(a, b) == b;
    }
  }

  /** Accumulating per-image matrices gives the matrix of all their pixels taken together. */
  lemma ConfusionAdditive(a: Labelled, b: Labelled, n: nat)
    requires Aligned(a, n) && Aligned(b, n)
    ensures Aligned(Concat(a, b), n)
    ensures ConfusionMatrix(Concat(a, b), n) == MatAdd(ConfusionMatrix(a, n), ConfusionMatrix(b, n), n)
  {
    ConcatAligned(a, b, n);
    var lhs := ConfusionMatrix(Concat(a, b), n);
    var rhs := MatAdd(ConfusionMatrix(a, n), ConfusionMatrix(b, n), n);
    forall t | 0 <= t < n ensures lhs[t] == rhs[t] {
      forall p | 0 <= p < n ensures lhs[t][p] == rhs[t][p] {
        PairCountConcat(a, b, t, p);
      }
    }
  }

  lemma NoPixelsGiveZeroMatrix(n: nat)
    ensures Aligned(NoPixels, n)
    ensures ConfusionMatrix(NoPixels, n) == ZeroMatrix(n)
  {
    var lhs := ConfusionMatrix(NoPixels, n);
    var rhs := ZeroMatrix(n);
    forall t | 0 <= t < n ensures lhs[t] == rhs[t] {
      assert forall p :: 0 <= p < n ==> lhs[t][p] == 0;
    }
  }

  /** A pixel whose target lies outside `[0, n)` leaves the matrix unchanged. */
  lemma IgnoredTargetAddsNothing(x: Labelled, n: nat, p: int, t: int)
    requires Aligned(x, n) && 0 <= p < n
    requires t < 0 || t >= n
    ensures Aligned(Concat(x, Labelled([p], [t])), n)
    ensures ConfusionMatrix(Concat(x, Labelled([p], [t])), n) == ConfusionMatrix(x, n)
  {
    var one := Labelled([p], [t]);
    assert Aligned(one, n);
    ConfusionAdditive(x, one, n);
    var lhs := ConfusionMatrix(Concat(x, one), n);
    var cm := ConfusionMatrix(x, n);
    var cmOne := ConfusionMatrix(one, n);
    assert lhs == MatAdd(cm, cmOne, n);
    forall r | 0 <= r < n ensures lhs[r] == cm[r] {
      forall q | 0 <= q < n ensures lhs[r][q] == cm[r][q] {
        assert cmOne[r][q] == PairCount(one, r, q) == 0;
      }
    }
  }

  /** The pixels of a list of images, in order (what `zip(preds, labels)` walks over). */
  function Pixels(images: seq<Labelled>): Labelled {
    if images == [] then NoPixels else Concat(Pixels(images[..|images| - 1]), images[|images| - 1])
  }

  /** The pixels of all batches, in order. */
  function AllPixels(batches: seq<seq<Labelled>>): Labelled {
    if batches == [] then NoPixels else Concat(AllPixels(batches[..|batches| - 1]), Pixels(batches[|batches| - 1]))
  }

  lemma {:induction false} PixelsAligned(images: seq<Labelled>, n: nat)
    requires forall i :: 0 <= i < |images| ==> Aligned(images[i], n)
    ensures Aligned(Pixels(images), n)
  {
    if images != [] {
      PixelsAligned(images[..|images| - 1], n);
      ConcatAligned(Pixels(images[..|images| - 1]), images[|images| - 1], n);
    }
  }

  lemma {:induction false} AllPixelsAligned(batches: seq<seq<Labelled>>, n: nat)
    requires forall b, i :: 0 <= b < |batches| && 0 <= i < |batches[b]| ==> Aligned(batches[b][i], n)
    ensures Aligned(AllPixels(batches), n)
  {
    if batches != [] {
      AllPixelsAligned(batches[..|batches| - 1], n);
      PixelsAligned(batches[|batches| - 1], n);
      ConcatAligned(AllPixels(batches[..|batches| - 1]), Pixels(batches[|batches| - 1]), n);
    }
  }

  lemma ConcatAssociative(a: Labelled, b: Labelled, c: Labelled)
    ensures Concat(Concat(a, b), c) == Concat(a, Concat(b, c))
  {
    assert (a.pred + b.pred) + c.pred == a.pred + (b.pred + c.pred);
    assert (a.target + b.target) + c.target == a.target + (b.target + c.target);
  }

  lemma ConcatNoPixels(a: Labelled)
    ensures Concat(a, NoPixels) == a
  {
    assert a.pred + [] == a.pred && a.target + [] == a.target;
  }

  /** One image more in the inner loop: its matrix is added to the running total. */
  lemma AccumulateImage(before: Labelled, batch: seq<Labelled>, i: nat, n: nat)
    requires i < |batch| && Aligned(batch[i], n)
    requires Aligned(Pixels(batch[..i]), n) && Aligned(Concat(before, Pixels(batch[..i])), n)
    ensures Aligned(Pixels(batch[..i + 1]), n) && Aligned(Concat(before, Pixels(batch[..i + 1])), n)
    ensures ConfusionMatrix(Concat(before, Pixels(batch[..i + 1])), n)
      == MatAdd(ConfusionMatrix(Concat(before, Pixels(batch[..i])), n), ConfusionMatrix(batch[i], n), n)
  {
    assert batch[..i + 1][..i] == batch[..i];
    ConfusionAdditive(Concat(before, Pixels(batch[..i])), batch[i], n);
    ConcatAssociative(before, Pixels(batch[..i]), batch[i]);
    ConcatAligned(Pixels(batch[..i]), batch[i], n);
  }

  /** One batch more in the outer loop: its pixels follow those of the batches before. */
  lemma AccumulateBatch(batches: seq<seq<Labelled>>, b: nat, n: nat)
    requires b < |batches|
    requires forall i :: 0 <= i < |batches[b]| ==> Aligned(batches[b][i], n)
    requires Aligned(AllPixels(batches[..b]), n)
    ensures Aligned(Pixels(batches[b]), n)
    ensures AllPixels(batches[..b + 1]) == Concat(AllPixels(batches[..b]), Pixels(batches[b]))
    ensures Aligned(AllPixels(batches[..b + 1]), n)
    ensures Matches(AllPixels(batches[..b + 1])) == Matches(AllPixels(batches[..b])) + Matches(Pixels(batches[b]))
  {
    assert batches[..b + 1][..b] == batches[..b];
    PixelsAligned(batches[b], n);
    MatchesConcat(AllPixels(batches[..b]), Pixels(batches[b]));
    ConcatAligned(AllPixels(batches[..b]), Pixels(batches[b]), n);
  }

  /**
   * The accumulation loop of evaluate: `total_cm += confusion_matrix(p, t)` for every image of
   * every batch, `total_correct` and `total_pixels` advanced once per batch. The matrix ends
   * equal to the confusion matrix of all pixels together, and its trace to `total_correct`.
   */
  method Evaluate(batches: seq<seq<Labelled>>, n: nat)
    returns (totalCm: seq<seq<nat>>, totalCorrect: nat, totalPixels: nat)
    requires forall b, i :: 0 <= b < |batches| && 0 <= i < |batches[b]| ==> Aligned(batches[b][i], n)
    ensures Aligned(AllPixels(batches), n)
    ensures totalCm == ConfusionMatrix(AllPixels(batches), n)
    ensures totalCorrect == Matches(AllPixels(batches)) == Trace(totalCm, n)
    ensures totalPixels == |AllPixels(batches).target|
    ensures MatrixSum(totalCm) == InRangeCount(AllPixels(batches).target, n)
  {
    totalCm := ZeroMatrix(n);
    totalCorrect := 0;
    totalPixels := 0;
    NoPixelsGiveZeroMatrix(n);
    for b := 0 to |batches|
      invariant Aligned(AllPixels(batches[..b]), n)
      invariant totalCm == ConfusionMatrix(AllPixels(batches[..b]), n)
      invariant totalCorrect == Matches(AllPixels(batches[..b]))
      invariant totalPixels == |AllPixels(batches[..b]).target|
    {
      var batch := batches[b];
      ghost var before := AllPixels(batches[..b]);
      AccumulateBatch(batches, b, n);
      ConcatNoPixels(before);
      for i := 0 to |batch|
        invariant Aligned(Pixels(batch[..i]), n)
        invariant Aligned(Concat(before, Pixels(batch[..i])), n)
        invariant totalCm == ConfusionMatrix(Concat(before, Pixels(batch[..i])), n)
      {
        AccumulateImage(before, batch, i, n);
        totalCm := MatAdd(totalCm, ConfusionMatrix(batch[i], n), n);
      }
      assert batch[..|batch|] == batch;
      var pixels := Pixels(batch);
      totalCorrect := totalCorrect + Matches(pixels);
      totalPixels := totalPixels + |pixels.target|;
    }
    assert batches[..|batches|] == batches;
    TraceIsMatches(AllPixels(batches), n);
    TotalSum(AllPixels(batches), n);
  }
}
