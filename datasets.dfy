/** Datasets: an older copy of FedoraExports that maps each dataset id to
    the list of its bag parents. It shares findDatasetId and
    checkOneSubdirectory with FedoraExports, but its fold stores the list
    of an id without appending the bag parent to it. */
module DatasetsIndex {
  import opened Outcomes
  import opened Exports
  import opened Paths

  /** One step of the forEach as written: the id's list, looked up or new, is
      stored again unchanged, and then its size is checked. */
  function IndexStep(m: Index, f: Found): Result<Index> {
    match f.id
    case Err(e) => Err(e)
    case Ok(id) =>
      var bags := if id in m then m[id] else [];
      var m' := m[id := bags];
      if |m'[id]| > 2 then Err(TooManyBags(id)) else Ok(m')
  }

  /** The forEach over the answers, from the map m; the first failure stops it. */
  function IndexFrom(m: Index, fs: seq<Found>): Result<Index>
    decreases |fs|
  {
    if fs == [] then Ok(m)
    else
      match IndexFrom(m, fs[..|fs| - 1])
      case Err(e) => Err(e)
      case Ok(m') => IndexStep(m', fs[|fs| - 1])
  }

  /** buildIdToBagPaths on the initially empty map. */
  function BuildIndex(listing: seq<BagParent>): Result<Index> {
    IndexFrom(map[], Finds(listing))
  }

  /** With only empty lists stored, a step stores another empty list. */
  lemma StepStoresEmpty(m: Index, f: Found)
    requires forall id :: id in m ==> m[id] == []
    requires f.id.Ok?
    ensures IndexStep(m, f) == Ok(m[f.id.value := []])
  {
  }

  /** A successful build read an id from every bag parent. */
  lemma {:induction false} BuiltFromReadableIds(fs: seq<Found>)
    requires IndexFrom(map[], fs).Ok?
    ensures forall i :: 0 <= i < |fs| ==> fs[i].id.Ok?
    decreases |fs|
  {
    if fs != [] {
      var init := fs[..|fs| - 1];
      assert IndexFrom(map[], init).Ok?;
      BuiltFromReadableIds(init);
      forall i | 0 <= i < |init| ensures fs[i].id.Ok? {
        assert fs[i] == init[i];
      }
    }
  }

  /** As written: a successful build has every bag parent's id as a key,
      and no other, and every list is empty. */
  lemma {:induction false} NeverAppends(fs: seq<Found>)
    requires IndexFrom(map[], fs).Ok?
    ensures forall id :: id in IndexFrom(map[], fs).value <==> BagsOf(fs, id) != []
    ensures forall id :: id in IndexFrom(map[], fs).value ==> IndexFrom(map[], fs).value[id] == []
    decreases |fs|
  {
    if fs != [] {
      var init := fs[..|fs| - 1];
      var last := fs[|fs| - 1];
      assert IndexFrom(map[], init).Ok? && IndexFrom(map[], fs) == IndexStep(IndexFrom(map[], init).value, last);
      NeverAppends(init);
      var m := IndexFrom(map[], init).value;
      var id := last.id.value;
      StepStoresEmpty(m, last);
      assert IndexFrom(map[], fs) == Ok(m[id := []]);
      forall k ensures k in m[id := []] <==> BagsOf(fs, k) != [] {
        assert BagsOf(fs, k) == BagsOf(init, k) + (if k == id then [last.path] else []);
      }
    }
  }

  /** The build succeeds exactly when every bag parent has a readable id. */
  lemma {:induction false} BuildSucceeds(fs: seq<Found>)
    ensures IndexFrom(map[], fs).Ok? <==> forall i :: 0 <= i < |fs| ==> fs[i].id.Ok?
    decreases |fs|
  {
    if IndexFrom(map[], fs).Ok? {
      BuiltFromReadableIds(fs);
    } else if fs != [] {
      var init := fs[..|fs| - 1];
      BuildSucceeds(init);
      if IndexFrom(map[], init).Ok? {
        NeverAppends(init);
        assert fs[|fs| - 1].id.Err?;
      } else {
        var i :| 0 <= i < |init| && init[i].id.Err?;
        assert fs[i] == init[i];
      }
    }
  }

  /** Hence the "More than 2 bags" guard never fires: every failure is a
      failure of findDatasetId on some bag parent. */
  lemma {:induction false} GuardNeverFires(fs: seq<Found>)
    requires IndexFrom(map[], fs).Err?
    ensures exists i :: 0 <= i < |fs| && fs[i].id == Err(IndexFrom(map[], fs).error)
    decreases |fs|
  {
    var init := fs[..|fs| - 1];
    if IndexFrom(map[], init).Err? {
      GuardNeverFires(init);
      var i :| 0 <= i < |init| && init[i].id == Err(IndexFrom(map[], init).error);
      assert fs[i] == init[i];
    } else {
      NeverAppends(init);
      assert fs[|fs| - 1].id == Err(IndexFrom(map[], fs).error);
    }
  }

  /** Wherever FedoraExports groups the answers, Datasets finds the same ids. */
  lemma SameIdsAsFedoraExports(fs: seq<Found>)
    requires GroupFrom(map[], fs).Ok?
    ensures IndexFrom(map[], fs).Ok? && IndexFrom(map[], fs).value.Keys == GroupFrom(map[], fs).value.Keys
  {
    GroupContents(fs);
    BuildSucceeds(fs);
    NeverAppends(fs);
  }

  /** One bag parent without dataset.xml: grouped under the null id with an
      empty list here, with its own path in FedoraExports. */
  lemma LoneBagParentDropped(b: BagParent)
    requires |b.dirs| == 1 && b.datasetXml.Missing?
    ensures BuildIndex([b]) == Ok(map[None := []])
    ensures Group([b]) == Ok(map[None := [b.path]])
  {
    assert CheckOneSubdirectory(b) == Pass;
    var f := Found(b.path, Ok(None));
    assert Finds([b]) == [f];
    assert [f][..0] == [];
    var empty: Index := map[];
    assert IndexFrom(empty, [f]) == IndexStep(empty, f) == Ok(empty[None := []]);
    assert [] + [b.path] == [b.path];
    assert GroupFrom(empty, [f]) == Step(empty, f) == Ok(empty[None := [b.path]]);
  }

  /** The object built from an export directory. */
  class Datasets {
    var idToBagPaths: Index

    constructor ()
      ensures idToBagPaths == map[]
    {
      idToBagPaths := map[];
    }

    /** buildIdToBagPaths as written. */
    method BuildIdToBagPaths(listing: seq<BagParent>) returns (r: Outcome)
      modifies this
      ensures match IndexFrom(old(idToBagPaths), Finds(listing))
        case Ok(m) => r == Pass && idToBagPaths == m
        case Err(e) => r == Fail(e)
    {
      ghost var start := idToBagPaths;
      ghost var fs := Finds(listing);
      var i := 0;
      while i < |listing|
        invariant 0 <= i <= |listing|
        invariant IndexFrom(start, fs[..i]) == Ok(idToBagPaths)
      {
        assert fs[..i + 1][..i] == fs[..i];
        var bagParent := listing[i];
        var datasetId := FindDatasetId(bagParent);
        assert fs[i] == Found(bagParent.path, datasetId);
        if datasetId.Err? {
          IndexErrorsFromHere(start, fs, i + 1);
          return Fail(datasetId.error);
        }
        var id := datasetId.value;
        var bags := if id in idToBagPaths then idToBagPaths[id] else [];
        idToBagPaths := idToBagPaths[id := bags];
        if |idToBagPaths[id]| > 2 {
          IndexErrorsFromHere(start, fs, i + 1);
          return Fail(TooManyBags(id));
        }
        i := i + 1;
      }
      assert fs[..i] == fs;
      return Pass;
    }

    /** getBagsForDataset: the list of the id, null for an unknown id. */
    function GetBagsForDataset(datasetId: DatasetId): (r: Option<seq<Path>>)
      reads this
      ensures r.Some? <==> datasetId in idToBagPaths
    {
      if datasetId in idToBagPaths then Some(idToBagPaths[datasetId]) else None
    }

    /** getDatasetIds: the key set. */
    function GetDatasetIds(): (r: set<DatasetId>)
      reads this
      ensures forall id :: id in r <==> GetBagsForDataset(id).Some?
    {
      idToBagPaths.Keys
    }
  }

  lemma {:induction false} IndexErrorsFromHere(m: Index, fs: seq<Found>, i: nat)
    requires i <= |fs| && IndexFrom(m, fs[..i]).Err?
    ensures IndexFrom(m, fs) == IndexFrom(m, fs[..i])
    decreases |fs| - i
  {
    if i < |fs| {
      assert fs[..i + 1][..i] == fs[..i];
      IndexErrorsFromHere(m, fs, i + 1);
    } else {
      assert fs[..i] == fs;
    }
  }

  /** new Datasets(inputDir): the object, or the exception of the build. */
  method NewDatasets(listing: seq<BagParent>) returns (r: Result<Datasets>)
    ensures match BuildIndex(listing)
      case Ok(m) => r.Ok? && fresh(r.value) && r.value.idToBagPaths == m
      case Err(e) => r == Err(e)
  {
    var datasets := new Datasets();
    var outcome := datasets.BuildIdToBagPaths(listing);
    if outcome.Fail? {
      return Err(outcome.error);
    }
    return Ok(datasets);
  }

  /** What the getters of a built object answer: an empty list for a known
      id, null for an unknown one, and the ids found. */
  lemma Lookups(datasets: Datasets, listing: seq<BagParent>, id: DatasetId)
    requires BuildIndex(listing) == Ok(datasets.idToBagPaths)
    ensures datasets.GetBagsForDataset(id) == if BagsOf(Finds(listing), id) == [] then None else Some([])
    ensures id in datasets.GetDatasetIds() <==> exists i :: 0 <= i < |listing| && FindDatasetId(listing[i]) == Ok(id)
  {
    var fs := Finds(listing);
    NeverAppends(fs);
    if id in datasets.GetDatasetIds() {
      var i :| 0 <= i < |fs| && fs[i].id == Ok(id);
      assert FindDatasetId(listing[i]) == Ok(id);
    } else {
      forall i | 0 <= i < |listing| ensures FindDatasetId(listing[i]) != Ok(id) {
        assert fs[i].id == FindDatasetId(listing[i]);
      }
    }
  }
}
