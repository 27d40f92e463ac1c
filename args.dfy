/**
 * What the training script does with its parsed command line before building the
 * configuration: the dataset preset supplies the class count unless one is given, and a root
 * left at its default is redirected to the preset's own default root.
 */
module Args {
  import opened Wrappers
  import opened Text
  import opened DatasetMetadata

  /** The `--root` default of the argument parser. */
  const DefaultRoot: string := "FloodNet-Supervised_v1.0"

  /** The parsed values of `--root`, `--dataset` and `--num-classes` (None when not given). */
  datatype ParsedArgs = ParsedArgs(root: string, dataset: string, numClasses: Option<int>)

  /** The resolved `root`, `dataset` and `num_classes` handed to the training configuration. */
  datatype Settings = Settings(root: string, dataset: string, numClasses: int)

  /** The resolution step of parse_args, after argparse itself has run. */
  function ResolveSettings(args: ParsedArgs): (r: Result<Settings>)
    ensures r.Success? <==>
      Lower(args.dataset) in Catalog && (args.numClasses.Some? || Catalog[Lower(args.dataset)].numClasses.Some?)
    ensures Lower(args.dataset) !in Catalog ==> r == Failure(ValueError(UnknownDatasetMessage(Lower(args.dataset))))
    ensures r.Success? ==> r.value.dataset == Lower(args.dataset)
    ensures r.Success? && args.numClasses.Some? ==> r.value.numClasses == args.numClasses.value
    ensures r.Success? && args.numClasses.None? ==> GetNumClasses(args.dataset) == Success(r.value.numClasses)
  {
    var key := Lower(args.dataset);
    LowerIdempotent(args.dataset);
    match GetDatasetMetadata(key)
    case Failure(e) => Failure(e)
    case Success(meta) =>
      if args.numClasses.None? && meta.numClasses.None? then Failure(KeyError("num_classes"))
      else
        var numClasses := if args.numClasses.Some? then args.numClasses.value else meta.numClasses.value;
        var root := if args.root == DefaultRoot && key != "floodnet" then meta.defaultRoot.GetOr(args.root)
                    else args.root;
        Success(Settings(root, key, numClasses))
  }

  /** Every dataset the parser offers as a choice resolves, with the preset's class count. */
  lemma ListedDatasetsResolve(args: ParsedArgs)
    requires args.dataset in ListDatasets()
    ensures ResolveSettings(args).Success?
    ensures args.numClasses.None? ==> ResolveSettings(args).value.numClasses == GetNumClasses(args.dataset).value
  {
    ListedNamesResolve(args.dataset);
    CatalogWellFormed(Lower(args.dataset));
  }

  /** A root other than the default is always kept. */
  lemma ExplicitRootKept(args: ParsedArgs)
    requires ResolveSettings(args).Success?
    requires args.root != DefaultRoot
    ensures ResolveSettings(args).value.root == args.root
  {
  }

  /**
   * A root left at the default always ends up as the preset's default root: for "floodnet" the
   * parser default already is that root, for the other presets it is replaced.
   */
  lemma DefaultRootFollowsPreset(args: ParsedArgs)
    requires ResolveSettings(args).Success?
    requires args.root == DefaultRoot
    ensures Catalog[Lower(args.dataset)].defaultRoot.Some?
    ensures ResolveSettings(args).value.root == Catalog[Lower(args.dataset)].defaultRoot.value
  {
    CatalogWellFormed(Lower(args.dataset));
  }

  /** The root is replaced only when it is the default and the dataset is not "floodnet". */
  lemma RootReplacedOnlyForOtherPresets(args: ParsedArgs)
    requires ResolveSettings(args).Success?
    requires ResolveSettings(args).value.root != args.root
    ensures args.root == DefaultRoot && Lower(args.dataset) != "floodnet"
  {
  }

  /** The exit status argparse uses for a usage error, such as a value outside `choices`. */
  const UsageErrorStatus: int := 2

  /** The `--dataset` default of the argument parser. */
  const DefaultDataset: string := "floodnet"

  /**
   * parse_args once argparse has read the flags: `--dataset` must be one of the listed presets,
   * compared exactly as typed (argparse's `choices`), and is then resolved.
   */
  function ParseArgs(args: ParsedArgs): (r: Result<Settings>)
    ensures r.Success? <==> args.dataset in ListDatasets()
    ensures r.Failure? ==> r.error == SystemExit(UsageErrorStatus)
    ensures r.Success? ==> r == ResolveSettings(args)
  {
    if args.dataset !in ListDatasets() then Failure(SystemExit(UsageErrorStatus))
    else
      ListedDatasetsResolve(args);
      ResolveSettings(args)
  }

  /** No flag given: FloodNet under the parser's default root, with 10 classes. */
  lemma FloodNetDefaults()
    ensures ParseArgs(ParsedArgs(DefaultRoot, DefaultDataset, None))
      == Success(Settings(DefaultRoot, "floodnet", 10))
  {
    ListDatasetsValue();
    assert Lower("floodnet") == "floodnet";
  }

  /** `--dataset rescuenet` with every other flag at its default. */
  lemma RescueNetDefaults()
    ensures ParseArgs(ParsedArgs(DefaultRoot, "rescuenet", None))
      == Success(Settings("RescueNet", "rescuenet", 11))
  {
    ListDatasetsValue();
    assert Lower("rescuenet") == "rescuenet";
    assert "rescuenet" != "floodnet";
  }

  /**
   * `choices` is checked before the dataset is lower-cased, so a preset spelled in another case
   * is refused by argparse even though the metadata lookup itself would accept it.
   */
  lemma MixedCaseDatasetRefused()
    ensures ParseArgs(ParsedArgs(DefaultRoot, "RescueNet", None)) == Failure(SystemExit(UsageErrorStatus))
    ensures ResolveSettings(ParsedArgs(DefaultRoot, "RescueNet", None)).Success?
  {
    ListDatasetsValue();
    assert "RescueNet" != "rescuenet" && "RescueNet" != "floodnet";
    assert Lower("RescueNet") == "rescuenet";
    assert Lower("rescuenet") == "rescuenet";
  }
}
