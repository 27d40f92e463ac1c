/**
 * The FloodNet dataset index: split validation, the per-split image and label directories, and
 * the pairing of every ".jpg" image with its "<stem>_lab.png" label. The file system is an
 * explicit value: the set of existing directories, the set of existing files, and what listing
 * each directory returns.
 */
module FloodNetDataset {
  import opened Wrappers
  import opened Text
  import opened PosixPath
  import opened Sorting

  const Splits: set<string> := {"train", "val", "test"}

  /** The message of the constructor's ValueError for a split outside `Splits`. */
  function SplitMessage(split: string): string {
    "split must be one of {'train', 'val', 'test'}, got " + split
  }

  datatype FloodNetPaths = FloodNetPaths(root: string, split: string) {

    /** image_dir: `root/<split>/<split>-org-img`, or ValueError for an unknown split. */
    function ImageDir(): (r: Result<string>)
      ensures r.Success? <==> split in Splits
      ensures r.Success? ==> r.value == Join(Join(root, split), split + "-org-img")
      ensures r.Failure? ==> r.error == ValueError("Unknown split: " + split)
    {
      if split == "train" then
        assert "train" + "-org-img" == "train-org-img";
        Success(Join(Join(root, "train"), "train-org-img"))
      else if split == "val" then
        assert "val" + "-org-img" == "val-org-img";
        Success(Join(Join(root, "val"), "val-org-img"))
      else if split == "test" then
        assert "test" + "-org-img" == "test-org-img";
        Success(Join(Join(root, "test"), "test-org-img"))
      else Failure(ValueError("Unknown split: " + split))
    }

    /** label_dir: `root/<split>/<split>-label-img`, or ValueError for an unknown split. */
    function LabelDir(): (r: Result<string>)
      ensures r.Success? <==> split in Splits
      ensures r.Success? ==> r.value == Join(Join(root, split), split + "-label-img")
      ensures r.Failure? ==> r.error == ValueError("Unknown split: " + split)
    {
      if split == "train" then
        assert "train" + "-label-img" == "train-label-img";
        Success(Join(Join(root, "train"), "train-label-img"))
      else if split == "val" then
        assert "val" + "-label-img" == "val-label-img";
        Success(Join(Join(root, "val"), "val-label-img"))
      else if split == "test" then
        assert "test" + "-label-img" == "test-label-img";
        Success(Join(Join(root, "test"), "test-label-img"))
      else Failure(ValueError("Unknown split: " + split))
    }
  }

  /** Under a plain root name the directories are spelled out with '/' separators. */
  lemma DirsUnderRoot(root: string, split: string)
    requires split in Splits
    requires root != [] && root[|root| - 1] != '/'
    ensures FloodNetPaths(root, split).ImageDir() == Success(root + "/" + split + "/" + split + "-org-img")
    ensures FloodNetPaths(root, split).LabelDir() == Success(root + "/" + split + "/" + split + "-label-img")
  {
    var d := Join(root, split);
    assert d == root + "/" + split;
    assert d[|d| - 1] != '/';
    assert Join(d, split + "-org-img") == root + "/" + split + "/" + split + "-org-img";
    assert Join(d, split + "-label-img") == root + "/" + split + "/" + split + "-label-img";
  }

  /** Images and labels never share a directory. */
  lemma ImageAndLabelDirsDiffer(root: string, split: string)
    requires split in Splits
    ensures FloodNetPaths(root, split).ImageDir().value != FloodNetPaths(root, split).LabelDir().value
  {
    var d := Join(root, split);
    var img := split + "-org-img";
    var lbl := split + "-label-img";
    assert |Join(d, img)| < |Join(d, lbl)|;
  }

  datatype FileSystem = FileSystem(dirs: set<string>, files: set<string>, listing: map<string, seq<string>>) {
    /** os.listdir of a directory (in whatever order the file system returns names). */
    function ListDir(dir: string): seq<string> {
      if dir in listing then listing[dir] else []
    }
  }

  /** One dataset item: an image path and, when present, its label path. */
  datatype Sample = Sample(imagePath: string, labelPath: Option<string>)

  predicate IsJpgName(name: string) {
    EndsWith(Lower(name), ".jpg")
  }

  /**
   * The list comprehension keeping the names whose lower-case form ends in ".jpg": each such
   * name as often as it is listed, every other name never.
   */
  function JpgNames(names: seq<string>): (r: seq<string>)
    ensures forall f :: f in r <==> f in names && IsJpgName(f)
    ensures forall f :: multiset(r)[f] == if IsJpgName(f) then multiset(names)[f] else 0
  {
    if names == [] then []
    else
      assert names == [names[0]] + names[1..];
      (if IsJpgName(names[0]) then [names[0]] else []) + JpgNames(names[1..])
  }

  /** The image names of a listing: the ".jpg" names, sorted. */
  function ImageNames(listing: seq<string>): (r: seq<string>)
    ensures SortedBy(r, StrLe)
    ensures multiset(r) == multiset(JpgNames(listing))
    ensures forall f :: f in r <==> f in listing && IsJpgName(f)
    ensures forall f :: multiset(r)[f] == if IsJpgName(f) then multiset(listing)[f] else 0
  {
    StrLeIsTotalPreorder();
    SortSorted(JpgNames(listing), StrLe);
    var r := Sort(JpgNames(listing), StrLe);
    assert forall f :: f in r <==> f in multiset(JpgNames(listing));
    r
  }

  /** Any sorted arrangement of the ".jpg" names is the one `sorted` produces. */
  lemma ImageNamesUnique(listing: seq<string>, names: seq<string>)
    requires SortedBy(names, StrLe)
    requires multiset(names) == multiset(JpgNames(listing))
    ensures names == ImageNames(listing)
  {
    StrLeIsAntisymmetric();
    SortedPermutationUnique(names, ImageNames(listing), StrLe);
  }

  /**
   * The label file name of an image: "_lab.png" after the image's stem, so that putting the
   * image's extension back after the stem gives the image name.
   */
  function LabelName(imageName: string): (r: string)
    ensures EndsWith(r, "_lab.png")
    ensures r[..|r| - 8] + SplitExt(imageName).1 == imageName
  {
    var r := SplitExt(imageName).0 + "_lab.png";
    assert r[..|r| - 8] == SplitExt(imageName).0;
    r
  }

  /** A listed ".jpg" name (any letter case) loses exactly its four-character extension. */
  lemma LabelNameOfJpg(name: string)
    requires IsJpgName(name)
    requires forall k :: 0 <= k < |name| ==> name[k] != '/'
    requires exists k :: 0 <= k < |name| - 4 && name[k] != '.'
    ensures LabelName(name) == name[..|name| - 4] + "_lab.png"
  {
    JpgSplit(name);
  }

  /** A listed ".jpg" name made of dots before its extension keeps its whole name in the label name. */
  lemma AllDotsJpgLabelName(name: string)
    requires IsJpgName(name)
    requires forall k :: 0 <= k < |name| ==> name[k] != '/'
    requires forall k :: 0 <= k < |name| - 4 ==> name[k] == '.'
    ensures LabelName(name) == name + "_lab.png"
  {
    AllDotsJpgNoExtension(name);
  }

  /** A file named only ".jpg" has no extension to strip, so its label name keeps it whole. */
  lemma DotJpgLabelName()
    ensures LabelName(".jpg") == ".jpg_lab.png"
  {
    DotJpgHasNoExtension();
  }

  function MissingLabelMessage(imagePath: string, labelPath: string): string {
    "Missing label for " + imagePath + ": expected " + labelPath
  }

  /** Prefixes already collected samples to the outcome of the remaining names. */
  function Then(done: seq<Sample>, rest: Result<seq<Sample>>): Result<seq<Sample>> {
    match rest
    case Success(more) => Success(done + more)
    case Failure(e) => Failure(e)
  }

  /** The label path that the image `name` is expected to have. */
  function LabelPathOf(name: string, labelDir: string): string {
    Join(labelDir, LabelName(name))
  }

  /**
   * The pairing loop: each name gives a sample with its label when the label file exists;
   * a missing label raises FileNotFoundError in strict mode and gives an unlabelled sample otherwise.
   */
  function PairSamples(names: seq<string>, imageDir: string, labelDir: string, files: set<string>, strict: bool)
    : (r: Result<seq<Sample>>)
    ensures r.Success? ==> |r.value| == |names|
    ensures r.Failure? ==> strict && r.error.FileNotFoundError?
    decreases |names|
  {
    if names == [] then Success([])
    else
      var imagePath := Join(imageDir, names[0]);
      var labelPath := LabelPathOf(names[0], labelDir);
      var rest := PairSamples(names[1..], imageDir, labelDir, files, strict);
      if labelPath in files then Then([Sample(imagePath, Some(labelPath))], rest)
      else if strict then Failure(FileNotFoundError(MissingLabelMessage(imagePath, labelPath)))
      else Then([Sample(imagePath, None)], rest)
  }

  /** Whether the label of `names[i]` is absent from the file system. */
  predicate LabelMissing(names: seq<string>, i: int, labelDir: string, files: set<string>)
    requires 0 <= i < |names|
  {
    LabelPathOf(names[i], labelDir) !in files
  }

  /** A successful pairing has one sample per name, in order, each labelled exactly when its label exists. */
  lemma {:induction false} PairSamplesShape(
    names: seq<string>, imageDir: string, labelDir: string, files: set<string>, strict: bool)
    requires PairSamples(names, imageDir, labelDir, files, strict).Success?
    ensures var s := PairSamples(names, imageDir, labelDir, files, strict).value;
      && |s| == |names|
      && forall i :: 0 <= i < |names| ==>
           && s[i].imagePath == Join(imageDir, names[i])
           && s[i].labelPath == (if LabelMissing(names, i, labelDir, files) then None
                                 else Some(LabelPathOf(names[i], labelDir)))
    decreases |names|
  {
    if names != [] {
      PairSamplesShape(names[1..], imageDir, labelDir, files, strict);
      var s := PairSamples(names, imageDir, labelDir, files, strict).value;
      var t := PairSamples(names[1..], imageDir, labelDir, files, strict).value;
      assert s[1..] == t;
      forall i | 0 < i < |names|
        ensures s[i].imagePath == Join(imageDir, names[i])
        ensures s[i].labelPath == (if LabelMissing(names, i, labelDir, files) then None
                                   else Some(LabelPathOf(names[i], labelDir)))
      {
        assert s[i] == t[i - 1] && names[i] == names[1..][i - 1];
      }
    }
  }

  /** Pairing fails exactly in strict mode when some label is missing. */
  lemma {:induction false} PairSamplesFailure(
    names: seq<string>, imageDir: string, labelDir: string, files: set<string>, strict: bool)
    ensures var r := PairSamples(names, imageDir, labelDir, files, strict);
      r.Failure? <==> strict && exists i :: 0 <= i < |names| && LabelMissing(names, i, labelDir, files)
    decreases |names|
  {
    if names != [] {
      var tail := names[1..];
      PairSamplesFailure(tail, imageDir, labelDir, files, strict);
      forall i | 0 < i < |names| ensures LabelMissing(names, i, labelDir, files) == LabelMissing(tail, i - 1, labelDir, files) {
        assert names[i] == tail[i - 1];
      }
      if strict && (exists i :: 0 <= i < |tail| && LabelMissing(tail, i, labelDir, files)) {
        var i :| 0 <= i < |tail| && LabelMissing(tail, i, labelDir, files);
        assert LabelMissing(names, i + 1, labelDir, files);
      }
      if !strict || !(exists i :: 0 <= i < |names| && LabelMissing(names, i, labelDir, files)) {
        assert !LabelMissing(names, 0, labelDir, files) || !strict;
      }
    }
  }

  /** `i` is the first position of `names` whose label is missing. */
  predicate FirstMissing(names: seq<string>, i: int, labelDir: string, files: set<string>) {
    && 0 <= i < |names|
    && LabelMissing(names, i, labelDir, files)
    && forall j :: 0 <= j < i ==> !LabelMissing(names, j, labelDir, files)
  }

  /** The first missing label of `names[1..]` is the first of `names` when `names[0]` has its label. */
  lemma FirstMissingShift(names: seq<string>, i: int, labelDir: string, files: set<string>)
    requires names != [] && !LabelMissing(names, 0, labelDir, files)
    requires FirstMissing(names[1..], i, labelDir, files)
    ensures FirstMissing(names, i + 1, labelDir, files) && names[i + 1] == names[1..][i]
  {
    var tail := names[1..];
    forall j | 0 <= j < i + 1 ensures !LabelMissing(names, j, labelDir, files) {
      if j > 0 {
        assert names[j] == tail[j - 1] && !LabelMissing(tail, j - 1, labelDir, files);
      }
    }
    assert names[i + 1] == tail[i];
  }

  /** A failed pairing reports the first image whose label is missing, with the expected path. */
  lemma {:induction false} PairSamplesFirstMissing(
    names: seq<string>, imageDir: string, labelDir: string, files: set<string>, strict: bool)
    requires PairSamples(names, imageDir, labelDir, files, strict).Failure?
    ensures exists i ::
      && FirstMissing(names, i, labelDir, files)
      && PairSamples(names, imageDir, labelDir, files, strict).error
           == FileNotFoundError(MissingLabelMessage(Join(imageDir, names[i]), LabelPathOf(names[i], labelDir)))
    decreases |names|
  {
    var r := PairSamples(names, imageDir, labelDir, files, strict);
    if LabelMissing(names, 0, labelDir, files) {
      assert FirstMissing(names, 0, labelDir, files);
    } else {
      var tail := names[1..];
      var rest := PairSamples(tail, imageDir, labelDir, files, strict);
      assert rest.Failure? && r.error == rest.error;
      PairSamplesFirstMissing(tail, imageDir, labelDir, files, strict);
      var i :| FirstMissing(tail, i, labelDir, files)
        && rest.error == FileNotFoundError(MissingLabelMessage(Join(imageDir, tail[i]), LabelPathOf(tail[i], labelDir)));
      FirstMissingShift(names, i, labelDir, files);
    }
  }

  lemma ThenEmpty(r: Result<seq<Sample>>)
    ensures Then([], r) == r
  {
    if r.Success? {
      assert [] + r.value == r.value;
    }
  }

  lemma ThenAppend(done: seq<Sample>, s: Sample, rest: Result<seq<Sample>>)
    ensures Then(done, Then([s], rest)) == Then(done + [s], rest)
  {
    if rest.Success? {
      assert done + ([s] + rest.value) == (done + [s]) + rest.value;
    }
  }

  /** One step of the pairing loop, at position `i` of `names`. */
  lemma PairSamplesAt(names: seq<string>, i: nat, imageDir: string, labelDir: string, files: set<string>, strict: bool)
    requires i < |names|
    ensures var imagePath := Join(imageDir, names[i]);
      var labelPath := Join(labelDir, SplitExt(names[i]).0 + "_lab.png");
      var rest := PairSamples(names[i + 1..], imageDir, labelDir, files, strict);
      PairSamples(names[i..], imageDir, labelDir, files, strict) ==
        if labelPath in files then Then([Sample(imagePath, Some(labelPath))], rest)
        else if strict then Failure(FileNotFoundError(MissingLabelMessage(imagePath, labelPath)))
        else Then([Sample(imagePath, None)], rest)
  {
    assert names[i..][1..] == names[i + 1..];
    assert names[i..][0] == names[i];
  }

  /** The constructor's final check: an empty sample list raises RuntimeError. */
  function Finish(paired: Result<seq<Sample>>, imageDir: string): Result<seq<Sample>> {
    match paired
    case Failure(e) => Failure(e)
    case Success(samples) =>
      if |samples| == 0 then Failure(RuntimeError("No samples found in " + imageDir))
      else Success(samples)
  }

  /** The `split` default of the constructor. */
  const DefaultSplit: string := "train"

  /** The `strict_pairs` default of the constructor. */
  const DefaultStrictPairs: bool := true

  /**
   * The constructor's outcome: the sample list it builds, or the exception it raises. A dataset
   * that opens is non-empty; an unknown split is the only ValueError, a missing directory or
   * label the only FileNotFoundError, and an empty pairing the only RuntimeError.
   */
  function Open(root: string, split: string, strict: bool, fs: FileSystem): (r: Result<seq<Sample>>)
    ensures r.Success? ==> split in Splits && |r.value| >= 1
    ensures r.Failure? ==> (r.error.ValueError? <==> split !in Splits)
    ensures r.Failure? ==> r.error.ValueError? || r.error.FileNotFoundError? || r.error.RuntimeError?
  {
    if split !in Splits then Failure(ValueError(SplitMessage(split)))
    else
      var paths := FloodNetPaths(root, split);
      var imageDir := paths.ImageDir().value;
      var labelDir := paths.LabelDir().value;
      if imageDir !in fs.dirs then Failure(FileNotFoundError("Image directory not found: " + imageDir))
      else if labelDir !in fs.dirs then Failure(FileNotFoundError("Label directory not found: " + labelDir))
      else Finish(PairSamples(ImageNames(fs.ListDir(imageDir)), imageDir, labelDir, fs.files, strict), imageDir)
  }

  /** A split outside {train, val, test} is refused before anything else is looked at. */
  lemma OpenRejectsUnknownSplit(root: string, split: string, strict: bool, fs: FileSystem)
    requires split !in Splits
    ensures Open(root, split, strict, fs) == Failure(ValueError(SplitMessage(split)))
    ensures FloodNetPaths(root, split).ImageDir().Failure? && FloodNetPaths(root, split).LabelDir().Failure?
  {
  }

  /** A missing image directory is reported before the label directory is looked at. */
  lemma MissingImageDir(root: string, split: string, strict: bool, fs: FileSystem)
    requires split in Splits
    requires FloodNetPaths(root, split).ImageDir().value !in fs.dirs
    ensures Open(root, split, strict, fs)
      == Failure(FileNotFoundError("Image directory not found: " + FloodNetPaths(root, split).ImageDir().value))
  {
  }

  /** With the image directory present, a missing label directory raises FileNotFoundError. */
  lemma MissingLabelDir(root: string, split: string, strict: bool, fs: FileSystem)
    requires split in Splits
    requires FloodNetPaths(root, split).ImageDir().value in fs.dirs
    requires FloodNetPaths(root, split).LabelDir().value !in fs.dirs
    ensures Open(root, split, strict, fs)
      == Failure(FileNotFoundError("Label directory not found: " + FloodNetPaths(root, split).LabelDir().value))
  {
  }

  /**
   * With both directories present, an image directory that lists no ".jpg" name raises the
   * RuntimeError, in strict and in lenient mode alike.
   */
  lemma NoImagesRaisesRuntimeError(root: string, split: string, strict: bool, fs: FileSystem)
    requires split in Splits
    requires FloodNetPaths(root, split).ImageDir().value in fs.dirs
    requires FloodNetPaths(root, split).LabelDir().value in fs.dirs
    requires ImageNames(fs.ListDir(FloodNetPaths(root, split).ImageDir().value)) == []
    ensures Open(root, split, strict, fs)
      == Failure(RuntimeError("No samples found in " + FloodNetPaths(root, split).ImageDir().value))
  {
  }

  /**
   * A dataset that opens holds at least one sample, one per ".jpg" name of the image directory,
   * in sorted name order, each with the path `labelDir/<stem>_lab.png` when that file exists;
   * in strict mode every sample has its label.
   */
  lemma OpenSamples(root: string, split: string, strict: bool, fs: FileSystem)
    requires Open(root, split, strict, fs).Success?
    ensures split in Splits
    ensures var samples := Open(root, split, strict, fs).value;
      var imageDir := FloodNetPaths(root, split).ImageDir().value;
      var labelDir := FloodNetPaths(root, split).LabelDir().value;
      var names := ImageNames(fs.ListDir(imageDir));
      && |samples| >= 1
      && |samples| == |names|
      && forall i :: 0 <= i < |names| ==>
           && samples[i].imagePath == Join(imageDir, names[i])
           && (samples[i].labelPath.Some? <==> LabelPathOf(names[i], labelDir) in fs.files)
           && (samples[i].labelPath.Some? ==> samples[i].labelPath.value == LabelPathOf(names[i], labelDir))
           && (strict ==> samples[i].labelPath.Some?)
  {
    var imageDir := FloodNetPaths(root, split).ImageDir().value;
    var labelDir := FloodNetPaths(root, split).LabelDir().value;
    var names := ImageNames(fs.ListDir(imageDir));
    var paired := PairSamples(names, imageDir, labelDir, fs.files, strict);
    assert Open(root, split, strict, fs) == Finish(paired, imageDir);
    assert paired.Success? && Open(root, split, strict, fs).value == paired.value;
    PairSamplesShape(names, imageDir, labelDir, fs.files, strict);
    PairSamplesFailure(names, imageDir, labelDir, fs.files, strict);
    assert strict ==> forall i :: 0 <= i < |names| ==> !LabelMissing(names, i, labelDir, fs.files);
  }

  /**
   * Without strict pairing, once both directories exist the dataset opens exactly when the
   * image directory lists some ".jpg" name, and then it has one sample per such name.
   */
  lemma LenientOpen(root: string, split: string, fs: FileSystem)
    requires split in Splits
    requires FloodNetPaths(root, split).ImageDir().value in fs.dirs
    requires FloodNetPaths(root, split).LabelDir().value in fs.dirs
    ensures var names := ImageNames(fs.ListDir(FloodNetPaths(root, split).ImageDir().value));
      && (Open(root, split, false, fs).Success? <==> |names| >= 1)
      && (Open(root, split, false, fs).Success? ==> |Open(root, split, false, fs).value| == |names|)
  {
    var imageDir := FloodNetPaths(root, split).ImageDir().value;
    var labelDir := FloodNetPaths(root, split).LabelDir().value;
    var names := ImageNames(fs.ListDir(imageDir));
    PairSamplesFailure(names, imageDir, labelDir, fs.files, false);
    PairSamplesShape(names, imageDir, labelDir, fs.files, false);
  }

  /** With strict pairing, a ".jpg" without its label makes opening fail with FileNotFoundError. */
  lemma StrictOpenNeedsEveryLabel(root: string, split: string, fs: FileSystem, i: nat)
    requires split in Splits
    requires FloodNetPaths(root, split).ImageDir().value in fs.dirs
    requires FloodNetPaths(root, split).LabelDir().value in fs.dirs
    requires var names := ImageNames(fs.ListDir(FloodNetPaths(root, split).ImageDir().value));
      i < |names| && LabelMissing(names, i, FloodNetPaths(root, split).LabelDir().value, fs.files)
    ensures Open(root, split, true, fs).Failure?
    ensures Open(root, split, true, fs).error.FileNotFoundError?
  {
    var imageDir := FloodNetPaths(root, split).ImageDir().value;
    var labelDir := FloodNetPaths(root, split).LabelDir().value;
    var names := ImageNames(fs.ListDir(imageDir));
    PairSamplesFailure(names, imageDir, labelDir, fs.files, true);
  }

  /** The dataset object: its paths, its pairing mode, and the sample list the constructor fills. */
  class FloodNetDataset {
    const paths: FloodNetPaths
    const strictPairs: bool
    var samples: seq<Sample>

    /** What every constructed dataset satisfies: it holds at least one sample. */
    ghost predicate Valid()
      reads this
    {
      |samples| >= 1
    }

    /** The allocation step of `Create`: the object with its paths and mode, before any sample. */
    constructor (paths: FloodNetPaths, strictPairs: bool)
      ensures this.paths == paths && this.strictPairs == strictPairs && samples == []
    {
      this.paths := paths;
      this.strictPairs := strictPairs;
      samples := [];
    }

    /** __len__: the number of samples, never zero for a constructed dataset. */
    function Length(): (n: nat)
      reads this
      requires Valid()
      ensures n >= 1 && n == |samples|
    {
      |samples|
    }

    /**
     * __init__: validates the split, checks both directories, then appends one sample per
     * sorted ".jpg" name, raising on the first missing label in strict mode, and finally
     * refuses an empty sample list. `split` and `strict_pairs` default as in Python.
     */
    static method Create(root: string, fs: FileSystem, split: string := DefaultSplit, strictPairs: bool := DefaultStrictPairs)
      returns (r: Result<FloodNetDataset>)
      ensures r.Failure? <==> Open(root, split, strictPairs, fs).Failure?
      ensures r.Failure? ==> r.error == Open(root, split, strictPairs, fs).error
      ensures r.Success? ==>
        && fresh(r.value)
        && r.value.Valid()
        && r.value.samples == Open(root, split, strictPairs, fs).value
        && r.value.paths == FloodNetPaths(root, split)
        && r.value.strictPairs == strictPairs
    {
      if split !in Splits {
        return Failure(ValueError(SplitMessage(split)));
      }
      var ds := new FloodNetDataset(FloodNetPaths(root, split), strictPairs);
      var imageDir := ds.paths.ImageDir().value;
      var labelDir := ds.paths.LabelDir().value;
      if imageDir !in fs.dirs {
        return Failure(FileNotFoundError("Image directory not found: " + imageDir));
      }
      if labelDir !in fs.dirs {
        return Failure(FileNotFoundError("Label directory not found: " + labelDir));
      }
      var images := ImageNames(fs.ListDir(imageDir));
      ghost var whole := PairSamples(images, imageDir, labelDir, fs.files, strictPairs);
      assert Open(root, split, strictPairs, fs) == Finish(whole, imageDir);
      assert images[0..] == images;
      ThenEmpty(whole);
      for i := 0 to |images|
        invariant whole == Then(ds.samples, PairSamples(images[i..], imageDir, labelDir, fs.files, strictPairs))
      {
        var imageName := images[i];
        var stem := SplitExt(imageName).0;
        var labelName := stem + "_lab.png";
        var labelPath := Join(labelDir, labelName);
        var imagePath := Join(imageDir, imageName);
        PairSamplesAt(images, i, imageDir, labelDir, fs.files, strictPairs);
        ghost var rest := PairSamples(images[i + 1..], imageDir, labelDir, fs.files, strictPairs);
        if labelPath in fs.files {
          ThenAppend(ds.samples, Sample(imagePath, Some(labelPath)), rest);
          ds.samples := ds.samples + [Sample(imagePath, Some(labelPath))];
        } else if strictPairs {
          return Failure(FileNotFoundError(MissingLabelMessage(imagePath, labelPath)));
        } else {
          ThenAppend(ds.samples, Sample(imagePath, None), rest);
          ds.samples := ds.samples + [Sample(imagePath, None)];
        }
      }
      assert images[|images|..] == [];
      assert ds.samples + [] == ds.samples;
      assert whole == Success(ds.samples);
      if |ds.samples| == 0 {
        return Failure(RuntimeError("No samples found in " + imageDir));
      }
      return Success(ds);
    }
  }

  /** The shuffle default of create_dataloader: an explicit choice is kept, otherwise only "train" shuffles. */
  function ResolveShuffle(shuffle: Option<bool>, split: string): (r: bool)
    ensures shuffle.Some? ==> r == shuffle.value
    ensures shuffle.None? ==> (r <==> split == "train")
  {
    if shuffle.None? then split == "train" else shuffle.value
  }
}
