/**
 * The dataset catalog: a fixed table from dataset key to its class count, default root
 * directory, class names and colour palette, with a case-insensitive lookup.
 */
module DatasetMetadata {
  import opened Wrappers
  import opened Text
  import opened Sorting

  datatype Rgb = Rgb(red: int, green: int, blue: int)

  /**
   * One catalog entry. The fields the source reads with `dict.get` (and may therefore find
   * missing) are options; `id2label` is read with `[]`.
   */
  datatype DatasetMetadata = DatasetMetadata(
    numClasses: Option<int>,
    defaultRoot: Option<string>,
    id2label: map<int, string>,
    palette: Option<seq<Rgb>>)

  const FloodNet: DatasetMetadata := DatasetMetadata(
    Some(10),
    Some("FloodNet-Supervised_v1.0"),
    map[
      0 := "Background",
      1 := "Building-flooded",
      2 := "Building-non-flooded",
      3 := "Road-flooded",
      4 := "Road-non-flooded",
      5 := "Water",
      6 := "Tree",
      7 := "Vehicle",
      8 := "Pool",
      9 := "Grass"],
    Some([
      Rgb(0, 0, 0),
      Rgb(255, 0, 0),
      Rgb(255, 165, 0),
      Rgb(0, 0, 255),
      Rgb(135, 206, 235),
      Rgb(0, 255, 255),
      Rgb(34, 139, 34),
      Rgb(255, 255, 0),
      Rgb(255, 0, 255),
      Rgb(124, 252, 0)]))

  const RescueNet: DatasetMetadata := DatasetMetadata(
    Some(11),
    Some("RescueNet"),
    map[
      0 := "Background",
      1 := "Water",
      2 := "Building-No-Damage",
      3 := "Building-Minor-Damage",
      4 := "Building-Major-Damage",
      5 := "Building-Total-Destruction",
      6 := "Vehicle",
      7 := "Road-Clear",
      8 := "Road-Blocked",
      9 := "Tree",
      10 := "Pool"],
    Some([
      Rgb(0, 0, 0),
      Rgb(0, 0, 255),
      Rgb(0, 200, 0),
      Rgb(255, 255, 0),
      Rgb(255, 165, 0),
      Rgb(255, 0, 0),
      Rgb(0, 255, 255),
      Rgb(169, 169, 169),
      Rgb(238, 130, 238),
      Rgb(34, 139, 34),
      Rgb(0, 128, 255)]))

  const Catalog: map<string, DatasetMetadata> := map["floodnet" := FloodNet, "rescuenet" := RescueNet]

  /** The catalog's keys in the order the dictionary literal lists them (Python dict order). */
  const CatalogKeys: seq<string> := ["floodnet", "rescuenet"]

  lemma CatalogKeysAreKeys()
    ensures forall k :: k in CatalogKeys <==> k in Catalog
    ensures |CatalogKeys| == |Catalog.Keys|
  {
    assert Catalog.Keys == {"floodnet", "rescuenet"};
  }

  /** list_datasets: the catalog's keys, sorted. */
  function ListDatasets(): (r: seq<string>)
    ensures SortedBy(r, StrLe)
    ensures multiset(r) == multiset(CatalogKeys)
    ensures forall k :: k in r <==> k in Catalog
  {
    StrLeIsTotalPreorder();
    SortSorted(CatalogKeys, StrLe);
    CatalogKeysAreKeys();
    var r := Sort(CatalogKeys, StrLe);
    assert forall k :: k in r <==> k in multiset(CatalogKeys);
    r
  }

  lemma ListDatasetsValue()
    ensures ListDatasets() == ["floodnet", "rescuenet"]
  {
    assert StrLe("floodnet", "rescuenet");
    SortOfSorted(CatalogKeys, StrLe);
  }

  /** The message of the ValueError raised for an unknown dataset name. */
  function UnknownDatasetMessage(name: string): string {
    "Unknown dataset '" + name + "'. Available: " + JoinWith(", ", ListDatasets())
  }

  /** get_dataset_metadata: looks the lower-cased name up in the catalog. */
  function GetDatasetMetadata(name: string): (r: Result<DatasetMetadata>)
    ensures r.Success? <==> Lower(name) in Catalog
    ensures r.Success? ==> r.value == Catalog[Lower(name)]
    ensures r.Failure? ==> r.error == ValueError(UnknownDatasetMessage(name))
  {
    var key := Lower(name);
    if key !in Catalog then Failure(ValueError(UnknownDatasetMessage(name)))
    else Success(Catalog[key])
  }

  /** Case does not matter for the lookup; only the error message quotes the name as given. */
  lemma LookupIgnoresCase(name: string)
    ensures GetDatasetMetadata(name).Success? == GetDatasetMetadata(Lower(name)).Success?
    ensures GetDatasetMetadata(name).Success? ==>
      GetDatasetMetadata(name).value == GetDatasetMetadata(Lower(name)).value
  {
    LowerIdempotent(name);
  }

  /** A name resolves to the entry of key `k` exactly when it lower-cases to `k`. */
  lemma LookupFindsKey(name: string, k: string)
    requires k in Catalog
    ensures GetDatasetMetadata(name) == Success(Catalog[k]) <==> Lower(name) == k
  {
    if GetDatasetMetadata(name) == Success(Catalog[k]) && Lower(name) != k {
      assert Catalog[Lower(name)] == Catalog[k];
      assert FloodNet != RescueNet by {
        assert FloodNet.numClasses != RescueNet.numClasses;
      }
      assert false;
    }
  }

  /** Every key that list_datasets offers is found by the lookup. */
  lemma ListedNamesResolve(name: string)
    requires name in ListDatasets()
    ensures GetDatasetMetadata(name).Success?
  {
    ListDatasetsValue();
    if name == "floodnet" {
      assert Lower("floodnet") == "floodnet";
    } else {
      assert name == "rescuenet";
      assert Lower("rescuenet") == "rescuenet";
    }
  }

  /** get_id2label: a copy of the entry's class-name table. */
  function GetId2Label(name: string := "floodnet"): (r: Result<map<int, string>>)
    ensures r.Success? <==> Lower(name) in Catalog
    ensures r.Success? ==> r.value == Catalog[Lower(name)].id2label
    ensures Lower(name) !in Catalog ==> r == Failure(ValueError(UnknownDatasetMessage(name)))
  {
    match GetDatasetMetadata(name)
    case Failure(e) => Failure(e)
    case Success(meta) => Success(meta.id2label)
  }

  /** get_palette: a copy of the entry's palette; ValueError if the entry has none. */
  function GetPalette(name: string := "floodnet"): (r: Result<seq<Rgb>>)
    ensures r.Success? <==> Lower(name) in Catalog && Catalog[Lower(name)].palette.Some?
    ensures r.Success? ==> r.value == Catalog[Lower(name)].palette.value
    ensures Lower(name) !in Catalog ==> r == Failure(ValueError(UnknownDatasetMessage(name)))
    ensures Lower(name) in Catalog && Catalog[Lower(name)].palette.None? ==>
      r == Failure(ValueError("Palette not defined for dataset '" + name + "'"))
  {
    match GetDatasetMetadata(name)
    case Failure(e) => Failure(e)
    case Success(meta) =>
      if meta.palette.None? then Failure(ValueError("Palette not defined for dataset '" + name + "'"))
      else Success(meta.palette.value)
  }

  /** get_num_classes: the entry's class count; ValueError if the entry has none. */
  function GetNumClasses(name: string := "floodnet"): (r: Result<int>)
    ensures r.Success? <==> Lower(name) in Catalog && Catalog[Lower(name)].numClasses.Some?
    ensures r.Success? ==> r.value == Catalog[Lower(name)].numClasses.value
    ensures Lower(name) !in Catalog ==> r == Failure(ValueError(UnknownDatasetMessage(name)))
    ensures Lower(name) in Catalog && Catalog[Lower(name)].numClasses.None? ==>
      r == Failure(ValueError("num_classes not defined for dataset '" + name + "'"))
  {
    match GetDatasetMetadata(name)
    case Failure(e) => Failure(e)
    case Success(meta) =>
      if meta.numClasses.None? then Failure(ValueError("num_classes not defined for dataset '" + name + "'"))
      else Success(meta.numClasses.value)
  }

  /** The labelled ids are exactly 0..n-1. */
  ghost predicate IdsAreClassRange(id2label: map<int, string>, n: int) {
    forall i :: i in id2label <==> 0 <= i < n
  }

  /** What every catalog entry satisfies: ids 0..n-1 are labelled, one 8-bit colour per class. */
  ghost predicate WellFormed(meta: DatasetMetadata) {
    && meta.numClasses.Some?
    && meta.numClasses.value >= 1
    && meta.defaultRoot.Some?
    && IdsAreClassRange(meta.id2label, meta.numClasses.value)
    && meta.palette.Some?
    && |meta.palette.value| == meta.numClasses.value
    && forall c :: c in meta.palette.value ==>
         0 <= c.red < 256 && 0 <= c.green < 256 && 0 <= c.blue < 256
  }

  lemma FloodNetWellFormed()
    ensures WellFormed(FloodNet)
  {
    assert IdsAreClassRange(FloodNet.id2label, 10) by {
      forall i | 0 <= i < 10 ensures i in FloodNet.id2label {
        assert i == 0 || i == 1 || i == 2 || i == 3 || i == 4 || i == 5 || i == 6 || i == 7 || i == 8 || i == 9;
      }
    }
  }

  lemma RescueNetWellFormed()
    ensures WellFormed(RescueNet)
  {
    assert IdsAreClassRange(RescueNet.id2label, 11) by {
      forall i | 0 <= i < 11 ensures i in RescueNet.id2label {
        assert i == 0 || i == 1 || i == 2 || i == 3 || i == 4 || i == 5 || i == 6 || i == 7 || i == 8 || i == 9 || i == 10;
      }
    }
  }

  lemma CatalogWellFormed(key: string)
    requires key in Catalog
    ensures WellFormed(Catalog[key])
  {
    FloodNetWellFormed();
    RescueNetWellFormed();
  }

  /** For a known name, get_palette and get_num_classes succeed and agree on the class count. */
  lemma KnownNamesHavePaletteAndClasses(name: string)
    requires Lower(name) in Catalog
    ensures GetPalette(name).Success? && GetNumClasses(name).Success?
    ensures |GetPalette(name).value| == GetNumClasses(name).value
    ensures IdsAreClassRange(GetId2Label(name).value, GetNumClasses(name).value)
  {
    CatalogWellFormed(Lower(name));
  }

  lemma NumClassesOfPresets()
    ensures GetNumClasses("floodnet") == Success(10)
    ensures GetNumClasses("rescuenet") == Success(11)
    ensures GetNumClasses() == Success(10)
  {
    assert Lower("floodnet") == "floodnet";
    assert Lower("rescuenet") == "rescuenet";
  }
}
