/**
 * The discrete configuration of the two encoders: the feature levels requested from the Swin
 * backbone for an integer `out_index`, and the layer plan of the vanilla CNN stem.
 */
module Backbones {
  import opened Wrappers
  import opened Sorting

  function Max(a: int, b: int): int {
    if a >= b then a else b
  }

  function Min(a: int, b: int): int {
    if a <= b then a else b
  }

  // ---------------------------------------------------------------------------------------
  // Swin feature levels
  // ---------------------------------------------------------------------------------------

  predicate IntLe(a: int, b: int) {
    a <= b
  }

  lemma IntLeIsTotalPreorder()
    ensures IsTotalPreorder(IntLe)
  {
  }

  /** The distinct values of `s`, each once (the contents of `set(s)`, in some order). */
  function Distinct(s: seq<int>): (r: seq<int>)
    ensures forall x :: x in r <==> x in s
    ensures forall i, j :: 0 <= i < j < |r| ==> r[i] != r[j]
  {
    if s == [] then []
    else if s[0] in s[1..] then Distinct(s[1..])
    else [s[0]] + Distinct(s[1..])
  }

  predicate StrictlyIncreasing(s: seq<int>) {
    forall i, j :: 0 <= i < j < |s| ==> s[i] < s[j]
  }

  /** The three candidate levels: two below `max(0, out_index)`, clamped at 0, and itself. */
  function Candidates(outIndex: int): seq<int> {
    var oi := Max(0, outIndex);
    [Max(0, oi - 2), Max(0, oi - 1), oi]
  }

  /** The closed form: the last up-to-three levels ending at `oi`, clamped at 0. */
  function LevelsEndingAt(oi: nat): seq<int> {
    if oi >= 2 then [oi - 2, oi - 1, oi] else if oi == 1 then [0, 1] else [0]
  }

  /**
   * `tuple(sorted(set([max(0, oi - 2), max(0, oi - 1), oi])))` with `oi = max(0, out_index)`:
   * the closed form above.
   */
  function OutIndices(outIndex: int): (r: seq<int>)
    ensures r == LevelsEndingAt(Max(0, outIndex))
  {
    SortedCandidates(outIndex);
    Sort(Distinct(Candidates(outIndex)), IntLe)
  }

  lemma {:induction false} LevelsEndingAtProperties(outIndex: int)
    ensures var r := LevelsEndingAt(Max(0, outIndex));
      && (forall x :: x in r <==> x in Candidates(outIndex))
      && StrictlyIncreasing(r)
      && 1 <= |r| <= 3
      && (forall i :: 0 <= i < |r| ==> r[i] >= 0)
      && r[|r| - 1] == Max(0, outIndex)
  {
    var oi := Max(0, outIndex);
    if oi == 1 {
      assert Candidates(outIndex) == [0, 0, 1];
    } else if oi == 0 {
      assert Candidates(outIndex) == [0, 0, 0];
    }
  }

  /** `sorted(set(...))` of the candidates is the closed form. */
  lemma SortedCandidates(outIndex: int)
    ensures Sort(Distinct(Candidates(outIndex)), IntLe) == LevelsEndingAt(Max(0, outIndex))
  {
    var oi := Max(0, outIndex);
    var c := Candidates(outIndex);
    var expected := LevelsEndingAt(oi);
    if oi >= 2 {
      assert c[0] !in c[1..] && c[1..][0] !in c[2..];
      assert Distinct(c[2..]) == [oi];
      assert Distinct(c) == expected;
    } else if oi == 1 {
      assert c == [0, 0, 1];
      assert c[1..] == [0, 1] && c[2..] == [1];
      assert Distinct(c[2..]) == [1];
      assert Distinct(c) == expected;
    } else {
      assert c == [0, 0, 0];
      assert c[1..] == [0, 0] && c[2..] == [0];
      assert Distinct(c[2..]) == [0];
      assert Distinct(c) == expected;
    }
    IntLeIsTotalPreorder();
    SortOfSorted(expected, IntLe);
  }

  /**
   * The levels are exactly the candidates, strictly increasing, non-negative, at most three of
   * them, and end at `max(0, out_index)`.
   */
  lemma OutIndicesProperties(outIndex: int)
    ensures var r := OutIndices(outIndex);
      && (forall x :: x in r <==> x in Candidates(outIndex))
      && StrictlyIncreasing(r)
      && 1 <= |r| <= 3
      && (forall i :: 0 <= i < |r| ==> r[i] >= 0)
      && r[|r| - 1] == Max(0, outIndex)
  {
    LevelsEndingAtProperties(outIndex);
  }

  lemma OutIndicesExamples()
    ensures OutIndices(3) == [1, 2, 3]
    ensures OutIndices(1) == [0, 1]
    ensures OutIndices(0) == [0]
    ensures OutIndices(-4) == [0]
  {
  }

  // ---------------------------------------------------------------------------------------
  // Vanilla CNN stem
  // ---------------------------------------------------------------------------------------

  /** The layers the stem is assembled from, with the constructor arguments the plan fixes. */
  datatype Layer =
    | Conv2d(inChannels: int, outChannels: int, kernelSize: int, stride: int, padding: int, bias: bool)
    | GroupNorm(numGroups: int, numChannels: int)
    | SiLU

  const StemAssertMessage: string := "downsample should be one of {8,16,32}"

  predicate IsStemDownsample(downsample: int) {
    downsample == 8 || downsample == 16 || downsample == 32
  }

  function Pow2(k: nat): nat {
    if k == 0 then 1 else 2 * Pow2(k - 1)
  }

  /** `{8: 3, 16: 4, 32: 5}[downsample]`: each step halves the resolution. */
  function StemSteps(downsample: int): (steps: nat)
    requires IsStemDownsample(downsample)
    ensures 3 <= steps <= 5
    ensures Pow2(steps) == downsample
  {
    if downsample == 8 then 3 else if downsample == 16 then 4 else 5
  }

  /** The output channels of step `i`: `[64, 128, embed_dim][min(i, 2)]`. */
  function StemOutput(i: nat, embedDim: int): int {
    [64, 128, embedDim][Min(i, 2)]
  }

  /** The input channels of step `i`: the RGB image for the first step, else the step before. */
  function StemInput(i: nat, embedDim: int): int {
    if i == 0 then 3 else StemOutput(i - 1, embedDim)
  }

  /** One downsampling step: a stride-2 3x3 convolution without bias, GroupNorm(8), SiLU. */
  function StemBlock(inCh: int, outCh: int): seq<Layer> {
    [Conv2d(inCh, outCh, 3, 2, 1, false), GroupNorm(8, outCh), SiLU]
  }

  /** The three layers of step `i`. */
  function Block(layers: seq<Layer>, i: nat): seq<Layer>
    requires 3 * i + 3 <= |layers|
  {
    layers[3 * i .. 3 * i + 3]
  }

  lemma BlockOfAppend(layers: seq<Layer>, more: seq<Layer>, j: nat)
    requires 3 * j + 3 <= |layers|
    ensures Block(layers + more, j) == Block(layers, j)
  {
  }

  /**
   * The stem of the vanilla encoder: fails its assertion unless the downsample factor is 8, 16
   * or 32; otherwise `log2(downsample)` steps, step `i` mapping the previous step's channels
   * (3 for the first) to `[64, 128, embed_dim][min(i, 2)]`, the last one ending at `embed_dim`.
   */
  method BuildStem(downsample: int, embedDim: int) returns (r: Result<seq<Layer>>)
    ensures r.Failure? <==> !IsStemDownsample(downsample)
    ensures r.Failure? ==> r.error == AssertionError(StemAssertMessage)
    ensures r.Success? ==>
      && |r.value| == 3 * StemSteps(downsample)
      && Pow2(StemSteps(downsample)) == downsample
      && (forall i: nat :: i < StemSteps(downsample) ==>
            Block(r.value, i) == StemBlock(StemInput(i, embedDim), StemOutput(i, embedDim)))
      && r.value[|r.value| - 3] == Conv2d(StemInput(StemSteps(downsample) - 1, embedDim), embedDim, 3, 2, 1, false)
  {
    if !IsStemDownsample(downsample) {
      return Failure(AssertionError(StemAssertMessage));
    }
    var layers: seq<Layer> := [];
    var inCh := 3;
    var chans := [64, 128, embedDim];
    var steps := StemSteps(downsample);
    for i := 0 to steps
      invariant |layers| == 3 * i
      invariant inCh == StemInput(i, embedDim)
      invariant forall j: nat :: j < i ==>
        Block(layers, j) == StemBlock(StemInput(j, embedDim), StemOutput(j, embedDim))
    {
      var outCh := chans[Min(i, |chans| - 1)];
      var block := [Conv2d(inCh, outCh, 3, 2, 1, false), GroupNorm(8, outCh), SiLU];
      forall j: nat | j < i ensures Block(layers + block, j) == Block(layers, j) {
        BlockOfAppend(layers, block, j);
      }
      assert Block(layers + block, i) == block;
      layers := layers + block;
      inCh := outCh;
    }
    assert Block(layers, steps - 1)[0] == layers[|layers| - 3];
    return Success(layers);
  }
}
