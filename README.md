# FloodNet segmentation pipeline: discrete core in Dafny

This project models the parts of the flood-segmentation training pipeline
(`ai-model/`) that are exact, discrete logic rather than tensor numerics, and proves
what they promise:

- **Dataset catalog** (`dataset_metadata.py`, module `DatasetMetadata`).
  - The two presets, FloodNet and RescueNet, with their class counts, default roots,
    class names and palettes.
  - The sorted list of dataset keys.
  - The case-insensitive lookup and its ValueError.
  - The three accessors.
- **Dataset index** (`FloodNetDataset.py`, module `FloodNetDataset`).
  - Split validation and the per-split image and label directories.
  - The filter and sort of `.jpg` names, and the derivation of each `<stem>_lab.png` label.
  - The strict and lenient pairing loop, and the empty-dataset error.
  - `__len__`.
  - The shuffle default of the data loader factory.
  - The file system is an explicit value: existing directories, existing files, and each
    directory's listing.
- **Trainer bookkeeping** (`cnn-transformer.py`, modules `Metrics`, `Backbones`,
  `Training`, `Args`).
  - The confusion matrix, computed as bin index, `bincount`, then reshape, and its
    accumulation over the evaluation batches.
  - The Swin feature-level pyramid for an integer `out_index`.
  - The layer plan of the vanilla CNN stem.
  - `steps_per_epoch` and the gradient-accumulation step rule, over one epoch and over
    all epochs.
  - The epoch label.
  - argparse's `--dataset` choices check, then the preset-driven resolution of
    `num_classes` and `root`.

Supporting modules model the parts of Python these files rely on:

- `Wrappers`: `Option`/`Result`, and the exceptions as an `Error` datatype.
- `Text`: `str.lower`, `endswith`, string ordering, `str(n)` and `{n:03d}`.
- `PosixPath`: `os.path.join` and `os.path.splitext`.
- `Sorting`: `sorted`, as an insertion sort under a total preorder.
- `Arith`: facts about division.

The pure code is written as functions with lemmas. The code that works step by step is
written as methods with loops, each proved against the functions that specify it:

- `FloodNetDataset.FloodNetDataset.Create` fills a fresh dataset object's `samples`
  field.
- `Metrics.Evaluate` accumulates `total_cm`, `total_correct` and `total_pixels`.
- `Backbones.BuildStem` extends the layer list step by step.
- `Training.RunEpoch` and `Training.Train` advance `global_step`.

An exception is a `Failure` that carries the exception class and its message.

## Model

| member | source | states |
|---|---|---|
| `DatasetMetadata.CatalogKeysAreKeys` | ai-model/dataset_metadata.py:8-67 | The key list in dictionary order holds exactly the catalog's keys, each once. |
| `DatasetMetadata.ListDatasets` | ai-model/dataset_metadata.py:70-72 | The result is sorted in string order, is a permutation of the catalog's keys, and holds a name iff it is a catalog key. |
| `DatasetMetadata.ListDatasetsValue` | ai-model/dataset_metadata.py:70-72 | list_datasets() is ["floodnet", "rescuenet"]. |
| `DatasetMetadata.GetDatasetMetadata` | ai-model/dataset_metadata.py:75-79 | Succeeds iff the lower-cased name is a catalog key, and then returns that entry. Otherwise it raises ValueError("Unknown dataset '<name>'. Available: floodnet, rescuenet"). |
| `DatasetMetadata.LookupIgnoresCase` | ai-model/dataset_metadata.py:75-79 | A name and its lower-cased form succeed or fail together, and give the same entry. |
| `DatasetMetadata.LookupFindsKey` | ai-model/dataset_metadata.py:75-79 | A name gives the entry of key k iff it lower-cases to k. |
| `DatasetMetadata.ListedNamesResolve` | ai-model/dataset_metadata.py:70-79 | Every listed name is found by the lookup. |
| `DatasetMetadata.GetId2Label` | ai-model/dataset_metadata.py:82-84 | Succeeds iff the name is known, and then returns the entry's id-to-label table. An unknown name raises the get_dataset_metadata ValueError("Unknown dataset '<name>'. Available: floodnet, rescuenet"). |
| `DatasetMetadata.GetPalette` | ai-model/dataset_metadata.py:87-92 | Succeeds iff the name is known and its entry has a palette, and then returns that palette. A known entry without a palette raises ValueError("Palette not defined for dataset '<name>'"). An unknown name raises the get_dataset_metadata ValueError("Unknown dataset '<name>'. Available: floodnet, rescuenet"). |
| `DatasetMetadata.GetNumClasses` | ai-model/dataset_metadata.py:95-100 | Succeeds iff the name is known and its entry has a class count, and then returns it. A known entry without one raises ValueError("num_classes not defined ..."). An unknown name raises the get_dataset_metadata ValueError("Unknown dataset '<name>'. Available: floodnet, rescuenet"). |
| `DatasetMetadata.FloodNetWellFormed` | ai-model/dataset_metadata.py:9-36 | FloodNet labels exactly the ids 0..9. It has 10 palette colours, each with 8-bit components, and a default root. |
| `DatasetMetadata.RescueNetWellFormed` | ai-model/dataset_metadata.py:37-66 | RescueNet labels exactly the ids 0..10. It has 11 palette colours, each with 8-bit components, and a default root. |
| `DatasetMetadata.CatalogWellFormed` | ai-model/dataset_metadata.py:8-67 | Every catalog entry is well formed in the sense above. |
| `DatasetMetadata.KnownNamesHavePaletteAndClasses` | ai-model/dataset_metadata.py:82-100 | For a known name, get_palette and get_num_classes never raise. The palette length equals the class count, and the label ids are 0..n-1. |
| `DatasetMetadata.NumClassesOfPresets` | ai-model/dataset_metadata.py:95-100 | get_num_classes gives 10 for "floodnet", 11 for "rescuenet", and 10 by default. |
| `Text.StrLe` | ai-model/dataset_metadata.py:72 | Python's `<=` on strings. A prefix of a string sorts no later than it, and a string never sorts before its own proper prefix. `Text.StrLeFirstDifference` settles strings that differ at some position. |
| `Text.StrLeFirstDifference` | ai-model/dataset_metadata.py:72 | At the first position where two strings differ, the one with the smaller code point there sorts first, and only that one. |
| `Text.StrLeTotal` | ai-model/dataset_metadata.py:72 | Any two strings are ordered one way or the other. |
| `Text.StrLeTransitive` | ai-model/dataset_metadata.py:72 | The string order is transitive. |
| `Text.Lower` | ai-model/dataset_metadata.py:76 | Lower-casing keeps the length and maps every character on its own. |
| `Text.LowerIdempotent` | ai-model/dataset_metadata.py:76 | Lower-casing twice is lower-casing once. |
| `Text.StrLeIsTotalPreorder` | ai-model/dataset_metadata.py:72 | Python's string order is total and transitive, so sorting by it is well defined. |
| `Text.StrLeAntisymmetric` | ai-model/FloodNetDataset.py:94 | Two strings each <= the other are equal. |
| `Text.StrLeIsAntisymmetric` | ai-model/FloodNetDataset.py:94 | The string order is antisymmetric, stated for all pairs at once, as `Sorting.SortedPermutationUnique` requires. |
| `Sorting.Sort` | ai-model/FloodNetDataset.py:94 | sorted() keeps every element as often as it occurs, and keeps the length. `Sorting.SortSorted` adds that the result is ordered. |
| `Sorting.SortSorted` | ai-model/FloodNetDataset.py:94 | sorted() returns a sorted permutation of its input. |
| `Sorting.SortOfSorted` | ai-model/dataset_metadata.py:72 | sorted() leaves an already sorted list unchanged. |
| `Sorting.SortedPermutationUnique` | ai-model/FloodNetDataset.py:94 | Under an antisymmetric order, two sorted sequences with the same contents are equal. So insertion sort returns exactly what sorted() returns. |
| `FloodNetDataset.FloodNetPaths.ImageDir` | ai-model/FloodNetDataset.py:25-32 | Succeeds iff the split is train, val or test, and then gives join(root, split, split + "-org-img"). Otherwise it raises ValueError("Unknown split: <split>"). |
| `FloodNetDataset.FloodNetPaths.LabelDir` | ai-model/FloodNetDataset.py:34-41 | The same for join(root, split, split + "-label-img"). |
| `FloodNetDataset.DirsUnderRoot` | ai-model/FloodNetDataset.py:25-41 | Under a root not ending in '/', the directories are root/s/s-org-img and root/s/s-label-img. |
| `FloodNetDataset.ImageAndLabelDirsDiffer` | ai-model/FloodNetDataset.py:25-41 | The image and label directories of a split are never the same path. |
| `PosixPath.Join` | ai-model/FloodNetDataset.py:23-41 | os.path.join: an absolute second part replaces the first. Otherwise the second part follows the first, with a '/' between them exactly when the first is non-empty and does not already end in '/'. |
| `PosixPath.SplitExt` | ai-model/FloodNetDataset.py:98 | os.path.splitext: stem followed by extension is the original name. The extension is empty, or a '.' followed by characters that are neither '.' nor '/'. When a ".jpg" name splits is fixed by `PosixPath.JpgSplit` and `PosixPath.AllDotsJpgNoExtension`, which between them cover every ".jpg" name without a '/'. |
| `PosixPath.JpgSplit` | ai-model/FloodNetDataset.py:94-98 | A name ending in ".jpg" in any case, with no '/' and some non-dot before the extension, splits off exactly its last four characters. |
| `PosixPath.AllDotsJpgNoExtension` | ai-model/FloodNetDataset.py:94-98 | A ".jpg" name in any case, with no '/', and only dots before the extension (".jpg", "..jpg", "...JPG") has no extension: splitext gives (name, ""). |
| `PosixPath.DotJpgHasNoExtension` | ai-model/FloodNetDataset.py:98 | splitext(".jpg") is (".jpg", ""). |
| `FloodNetDataset.JpgNames` | ai-model/FloodNetDataset.py:94 | Keeps a listed name iff its lower-cased form ends in ".jpg" (the helper `Text.EndsWith` is str.endswith), each kept name as many times as it is listed. |
| `FloodNetDataset.ImageNames` | ai-model/FloodNetDataset.py:94 | The image names are sorted, and hold each ".jpg" name of the listing exactly as often as the listing does, and nothing else. |
| `FloodNetDataset.ImageNamesUnique` | ai-model/FloodNetDataset.py:94 | Any sorted arrangement of the ".jpg" names of a listing is the image-name list. |
| `FloodNetDataset.LabelName` | ai-model/FloodNetDataset.py:98-100 | The label name ends in "_lab.png", and what comes before it, followed by the image's extension, is the image name. `FloodNetDataset.LabelNameOfJpg` gives the ".jpg" case. |
| `FloodNetDataset.LabelNameOfJpg` | ai-model/FloodNetDataset.py:98-100 | For an ordinary ".jpg" name the label name is the name without its extension, followed by "_lab.png". |
| `FloodNetDataset.AllDotsJpgLabelName` | ai-model/FloodNetDataset.py:94-100 | For such an all-dots ".jpg" name the label name is the whole name followed by "_lab.png". |
| `FloodNetDataset.DotJpgLabelName` | ai-model/FloodNetDataset.py:98-100 | The label name of ".jpg" is ".jpg_lab.png". |
| `FloodNetDataset.PairSamples` | ai-model/FloodNetDataset.py:96-109 | A successful pairing has one sample per image name. A failure happens only in strict mode and is a FileNotFoundError. `FloodNetDataset.PairSamplesShape` and `FloodNetDataset.PairSamplesFailure` give the rest. |
| `FloodNetDataset.PairSamplesShape` | ai-model/FloodNetDataset.py:96-109 | A successful pairing has one sample per name, in order. Each sample's image path is join(image_dir, name), and it has the label join(label_dir, stem + "_lab.png") iff that file exists. |
| `FloodNetDataset.PairSamplesFailure` | ai-model/FloodNetDataset.py:103-106 | Pairing fails iff it is strict and some label is missing. |
| `FloodNetDataset.PairSamplesFirstMissing` | ai-model/FloodNetDataset.py:96-106 | A failed pairing raises FileNotFoundError naming the first image whose label is missing, and the label path it expected. |
| `FloodNetDataset.Open` | ai-model/FloodNetDataset.py:77-112 | What the constructor builds or raises. A dataset that opens has a valid split and at least one sample. ValueError is raised exactly for an unknown split, and every other failure is a FileNotFoundError or a RuntimeError. The helper `FloodNetDataset.Finish` is the empty-list check of lines 111-112, and `FloodNetDataset.LabelPathOf` is the label path of lines 100-101. |
| `FloodNetDataset.OpenRejectsUnknownSplit` | ai-model/FloodNetDataset.py:77-78 | For a split other than train, val and test, the constructor raises ValueError before anything else. Both path helpers raise too. |
| `FloodNetDataset.MissingImageDir` | ai-model/FloodNetDataset.py:89-90 | With a valid split and no image directory, the constructor raises FileNotFoundError("Image directory not found: <image_dir>"). |
| `FloodNetDataset.MissingLabelDir` | ai-model/FloodNetDataset.py:91-92 | With the image directory present and no label directory, it raises FileNotFoundError("Label directory not found: <label_dir>"). |
| `FloodNetDataset.NoImagesRaisesRuntimeError` | ai-model/FloodNetDataset.py:94-112 | With both directories present and no ".jpg" name listed, it raises RuntimeError("No samples found in <image_dir>"), strict or not. |
| `FloodNetDataset.OpenSamples` | ai-model/FloodNetDataset.py:77-112 | A dataset that opens has at least one sample and one sample per sorted ".jpg" name. Each sample is labelled iff its label file exists, and in strict mode every sample is labelled. |
| `FloodNetDataset.LenientOpen` | ai-model/FloodNetDataset.py:103-112 | In lenient mode, with both directories present, opening succeeds iff some ".jpg" name is listed, and then gives one sample per name. |
| `FloodNetDataset.StrictOpenNeedsEveryLabel` | ai-model/FloodNetDataset.py:103-106 | In strict mode, one ".jpg" whose label is missing makes opening raise FileNotFoundError. |
| `FloodNetDataset.FloodNetDataset.Create` | ai-model/FloodNetDataset.py:57-112 | The constructor loop fails exactly when `FloodNetDataset.Open` fails, with the same error. On success the new object's samples are the list `Open` gives, and the object keeps its paths and strict_pairs. split and strict_pairs default to "train" and true. |
| `FloodNetDataset.FloodNetDataset.Length` | ai-model/FloodNetDataset.py:114-115 | `__len__` is the number of samples, and is at least 1. |
| `FloodNetDataset.ResolveShuffle` | ai-model/FloodNetDataset.py:212-213 | When shuffle is not given it is true exactly for the train split. An explicit value is kept. |
| `Metrics.BinIndices` | ai-model/cnn-transformer.py:376-377 | One bin index per pixel whose target lies in [0, n). `Metrics.BinIndicesInRange` bounds them and `Metrics.BinIndexInjective` separates the pairs. |
| `Metrics.Bincount` | ai-model/cnn-transformer.py:378 | Entry v is the number of occurrences of v. There are at least minlength bins, every non-negative index has its bin, and a bin past minlength exists only because its index occurs. Requires non-negative indices, which torch demands (it raises otherwise). |
| `Metrics.BinIndexInjective` | ai-model/cnn-transformer.py:377 | Two different (target, prediction) pairs of classes never share a bin index. |
| `Metrics.BinCountsPairs` | ai-model/cnn-transformer.py:376-378 | The bin of (t, p) counts exactly the pixels with target t and prediction p. |
| `Metrics.Reshape` | ai-model/cnn-transformer.py:379 | Row t of the reshaped counts is the slice [n*t, n*t+n) of the flat counts. |
| `Metrics.ConfusionMatrix` | ai-model/cnn-transformer.py:375-379 | The matrix is n by n, and entry [t][p] is the number of pixels with target t and prediction p. Targets outside [0, n) are counted nowhere. |
| `Metrics.RowSum` | ai-model/cnn-transformer.py:375-379 | Row t sums to the number of pixels whose target is t. |
| `Metrics.TotalSum` | ai-model/cnn-transformer.py:375-379 | All entries sum to the number of pixels whose target lies in [0, n). |
| `Metrics.TraceIsMatches` | ai-model/cnn-transformer.py:404-406 | The diagonal sums to the number of pixels predicted correctly. |
| `Metrics.IgnoredTargetAddsNothing` | ai-model/cnn-transformer.py:376 | A pixel with an ignored target, such as 255, leaves the matrix unchanged. |
| `Metrics.ConfusionAdditive` | ai-model/cnn-transformer.py:404-405 | The matrix of two pixel sequences concatenated is the entry-wise sum of their matrices. |
| `Metrics.NoPixelsGiveZeroMatrix` | ai-model/cnn-transformer.py:385 | The zero matrix that starts the accumulation is the matrix of no pixels. |
| `Metrics.Evaluate` | ai-model/cnn-transformer.py:383-407 | After the loop, total_cm is the confusion matrix of all pixels of all batches. total_correct is the number of correct pixels, which equals the trace. total_pixels is the pixel count, and all entries of total_cm sum to the number of pixels with a valid target. The helpers are `Metrics.ZeroMatrix` for the torch.zeros start (line 385), `Metrics.MatAdd` for `total_cm +=` (line 405) and `Metrics.Matches` for the sum of correct predictions (line 406). |
| `Backbones.OutIndices` | ai-model/cnn-transformer.py:236-238 | out_indices is the closed form: [oi-2, oi-1, oi] for oi >= 2, [0, 1] for 1, and [0] for 0, where oi = max(0, out_index). |
| `Backbones.SortedCandidates` | ai-model/cnn-transformer.py:237-238 | sorted(set(...)) of the three candidate levels equals that closed form. |
| `Backbones.OutIndicesProperties` | ai-model/cnn-transformer.py:236-238 | out_indices holds exactly the candidate levels. It is strictly increasing, non-negative and has 1 to 3 elements, and it ends at max(0, out_index). |
| `Backbones.OutIndicesExamples` | ai-model/cnn-transformer.py:236-238 | 3 gives [1, 2, 3], 1 gives [0, 1], and 0 and negative indices give [0]. |
| `Backbones.Distinct` | ai-model/cnn-transformer.py:238 | Keeps each value of the list once, and no other value. |
| `Backbones.StemSteps` | ai-model/cnn-transformer.py:308 | The step count is between 3 and 5, and 2^steps is the downsample factor. |
| `Backbones.BuildStem` | ai-model/cnn-transformer.py:304-316 | Raises AssertionError unless the downsample factor is 8, 16 or 32. Otherwise it builds 3 layers per step, with 2^steps = downsample. Step i is Conv2d(in, out, 3, stride 2, padding 1, no bias), then GroupNorm(8, out), then SiLU. Here out = [64, 128, embed_dim][min(i, 2)], and in is 3 for the first step and the previous step's out after that. The last convolution outputs embed_dim. |
| `Training.PyMod` | ai-model/cnn-transformer.py:629 | Python's %: the result has the divisor's sign and lies strictly within it, is congruent to the dividend, and is 0 exactly when the absolute divisor divides the dividend. |
| `Training.StepsPerEpoch` | ai-model/cnn-transformer.py:521 | steps_per_epoch is at least 1, and is 1 for an empty loader. Otherwise it is the least k with k * max(1, accum) >= the number of batches. |
| `Training.CeilDivBounds` | ai-model/cnn-transformer.py:521 | For positive n and a, ceil(n / a) is the least c >= 1 with c * a >= n. |
| `Training.OptimizerSteps` | ai-model/cnn-transformer.py:629 | The number of batches 1..n with step % accum == 0 is floor(n / abs(accum)). |
| `Training.OptimizerStepsWithinSchedule` | ai-model/cnn-transformer.py:521-637 | For positive accum, an epoch takes at most steps_per_epoch optimizer steps. It takes as many exactly when accum divides a non-zero batch count. The remaining n % accum batches feed no step. |
| `Training.ScheduleGap` | ai-model/cnn-transformer.py:521-629 | For positive accum and a non-empty loader, the schedule has one step more than the optimizer takes unless accum divides the batch count. |
| `Training.NegativeAccumulation` | ai-model/cnn-transformer.py:521-637 | For negative accum, the schedule counts max(1, n) steps per epoch, but the optimizer steps floor(n / abs(accum)) times. |
| `Training.RunEpoch` | ai-model/cnn-transformer.py:590-637 | One epoch adds floor(n / abs(accum)) to global_step. With accum 0 and at least one batch it raises ZeroDivisionError. |
| `Training.Train` | ai-model/cnn-transformer.py:577-637 | global_step ends at max(0, epochs) * floor(n / abs(accum)). It raises ZeroDivisionError iff some epoch runs with accum 0 and at least one batch. |
| `Training.EpochLabel` | ai-model/cnn-transformer.py:584 | A resumed label is "+" followed by as many digits as str(epoch) has. A fresh label has max(3, that many) digits. Both read back as the epoch. |
| `Training.EpochLabelWidth` | ai-model/cnn-transformer.py:585 | Fresh labels of epochs below 1000 are exactly three characters wide. |
| `Training.EpochLabelInjective` | ai-model/cnn-transformer.py:585 | Distinct epochs, or a resumed and a fresh run, never share a label. |
| `Text.ZeroPaddedRoundTrip` | ai-model/cnn-transformer.py:585 | The zero-padded decimal form of n reads back as n, whatever the width. |
| `Text.DecimalRoundTrip` | ai-model/cnn-transformer.py:585 | str(n) reads back as n. |
| `Text.Decimal` | ai-model/cnn-transformer.py:584 | str(n) is at least one digit, with no leading zero unless it is "0". `Text.DecimalRoundTrip` reads it back. |
| `Text.ZeroPadded` | ai-model/cnn-transformer.py:584 | f"{n:0wd}" is all digits, of length max(w, len(str(n))). `Text.ZeroPaddedRoundTrip` reads it back. |
| `Args.ResolveSettings` | ai-model/cnn-transformer.py:771-776 | The step after argparse. It succeeds iff the lower-cased dataset is a catalog key and some class count is available. The dataset is stored lower-cased. An explicit num_classes is kept, otherwise it is the preset's get_num_classes. An unknown dataset raises the lookup's ValueError. |
| `Args.ParseArgs` | ai-model/cnn-transformer.py:740-776 | parse_args succeeds iff --dataset is one of list_datasets(), compared exactly as typed. Otherwise argparse exits with status 2. On success the result is the resolution above. |
| `Args.ListedDatasetsResolve` | ai-model/cnn-transformer.py:741-776 | Every dataset the parser offers as a choice resolves, with the preset's class count when none is given. |
| `Args.ExplicitRootKept` | ai-model/cnn-transformer.py:774-776 | A root other than the parser default is never changed. |
| `Args.DefaultRootFollowsPreset` | ai-model/cnn-transformer.py:742-776 | A root left at the default always ends as the preset's default_root. For floodnet that is the default itself. |
| `Args.RootReplacedOnlyForOtherPresets` | ai-model/cnn-transformer.py:774-776 | The root changes only when it is the default and the dataset is not "floodnet". |
| `Args.RescueNetDefaults` | ai-model/cnn-transformer.py:740-776 | --dataset rescuenet with the other flags at their defaults gives root "RescueNet", dataset "rescuenet" and 11 classes. |
| `Args.FloodNetDefaults` | ai-model/cnn-transformer.py:740-776 | With no flags, parse_args gives root "FloodNet-Supervised_v1.0", dataset "floodnet" and 10 classes. |
| `Args.MixedCaseDatasetRefused` | ai-model/cnn-transformer.py:743-772 | --dataset RescueNet is refused by argparse with exit status 2, even though the lower-casing lookup after it would accept the name. |

## Left out

### Python semantics

- Lowering text: only ASCII letters are lowered. Python's `str.lower` also lowers other
  Unicode letters. That difference never matters for the catalog keys or for ".jpg".
- Split error message: the constructor's ValueError prints the set `{'train', 'val',
  'test'}` in Python's hash order. The model fixes one order.
- argparse usage errors: a `--dataset` outside the choices makes `Args.ParseArgs` fail
  with exit status 2. The usage text argparse prints is not modelled. The other flags are
  not parsed: the model starts from their values.
- Copies and sharing: `get_id2label` and `get_palette` return copies (`dict()` /
  `list()`), while `get_dataset_metadata` returns the catalog's own dict, so its callers
  share it. The model returns values, so neither copying nor sharing is visible. Nothing
  in the modelled code mutates a catalog entry.

### Float arithmetic and library code

- Tensor code: everything on tensors apart from integer counting. That covers the
  networks, losses, argmax, interpolation, ASPP, FPN and normalisation. The predictions
  are inputs, assumed to be class ids in [0, num_classes). That is what an argmax over
  num_classes logits gives.
- Float64 matrix: `evaluate` accumulates `total_cm` in float64. The model uses natural
  numbers, which are exact below 2^53 per entry.
- Float metrics: the IoU, mIoU and accuracy formulas that follow the accumulation.
- Learning-rate code: the warmup and cosine schedule, the layer-wise rates, and the
  schedule rebuilt after unfreezing.
- Float ceiling: `steps_per_epoch` uses float division and `math.ceil`. The model uses
  the integer ceiling, which agrees for batch counts below 2^53.
- Training.RunEpoch: models only the counting of optimizer steps. The loss,
  backward pass, scaler, EMA update and logging are numerics or I/O.
- Backbones.BuildStem: does not model the checks that PyTorch's layer constructors make,
  such as GroupNorm requiring the channel count to be divisible by 8. Those checks are
  library code.
- Swin backbone: only `out_indices` is modelled. A non-integer `out_index` is passed on
  unchanged. Building the timm model, and the channel lists it reports, are library code.

### Environment and I/O

- File system: directories are abstract inputs to the model, a set of existing
  directories, a set of existing files and a listing per directory. Image loading,
  transforms, `__getitem__` and the DataLoader are left out, as I/O.
- Training side effects: checkpoints, resuming, ONNX export, the UDP `ping`, the
  `getTime` clock, `is_jetson` probing and freezing through `requires_grad` are left
  out. They are I/O, or mutation inside library objects.
- Data loader: in `create_dataloader` only the shuffle default is modelled. The rest
  builds library objects.
