/** FedoraExports: the bag parents of a Fedora export directory grouped by
    the dataset id in their bag's metadata/dataset.xml.

    The directory listing is a parameter: each bag parent comes with the
    names of its subdirectories (in listing order) and what reading the
    dataset.xml of its bag would give. A bag without a dataset.xml is
    grouped under the null id (None). */
module Exports {
  import opened Outcomes
  import opened DatasetMetadata
  import opened Paths

  /** metadata/dataset.xml of a bag: absent, not parseable, or its identifiers. */
  datatype DatasetXmlFile = Missing | Unreadable | Present(identifiers: seq<Identifier>)

  /** One entry of the export directory: the bag parent's path, the names of
      its subdirectories, and the dataset.xml of its (first) bag. */
  datatype BagParent = BagParent(path: Path, dirs: seq<string>, datasetXml: DatasetXmlFile)

  /** A dataset id; None is Java's null key. */
  type DatasetId = Option<string>

  /** The id as Java's string concatenation writes it. */
  function IdText(id: DatasetId): string {
    match id
    case None => "null"
    case Some(s) => s
  }

  function TooManyBags(id: DatasetId): Error {
    IllegalState("More than 2 bags found for dataset id " + IdText(id))
  }

  /** checkOneSubdirectory: a bag parent must hold exactly one directory. */
  function CheckOneSubdirectory(b: BagParent): (r: Outcome)
    ensures r.Pass? <==> |b.dirs| == 1
    ensures |b.dirs| > 1 ==> r == Fail(IllegalState("More than one dir found in " + PathText(b.path)))
    ensures |b.dirs| == 0 ==> r == Fail(IllegalState("No dirs found in " + PathText(b.path)))
  {
    if |b.dirs| > 1 then Fail(IllegalState("More than one dir found in " + PathText(b.path)))
    else if |b.dirs| == 0 then Fail(IllegalState("No dirs found in " + PathText(b.path)))
    else Pass
  }

  /** getBagDir: the first directory of the bag parent, as Files.list names
      it (the bag parent resolved against the directory's name). */
  function BagDir(b: BagParent): (r: Path)
    requires |b.dirs| > 0
    ensures FileName(r) == Some(b.dirs[0])
    ensures b.path.absolute || b.path.names != [] ==> Parent(r) == Some(b.path)
  {
    Child(b.path, b.dirs[0])
  }

  /** findDatasetId: the subdirectory check first, then null for a missing
      dataset.xml, and any failure of reading it (including no or several
      EASY2 ids) turned into one RuntimeException naming the bag. */
  function FindDatasetId(b: BagParent): Result<DatasetId> {
    match CheckOneSubdirectory(b)
    case Fail(e) => Err(e)
    case Pass =>
      match b.datasetXml
      case Missing => Ok(None)
      case Unreadable => Err(Runtime("Error while reading dataset.xml in " + PathText(BagDir(b))))
      case Present(ids) =>
        match GetDatasetId(ids)
        case Ok(id) => Ok(Some(id))
        case Err(_) => Err(Runtime("Error while reading dataset.xml in " + PathText(BagDir(b))))
  }

  /** The outcomes of findDatasetId: the subdirectory error first; null
      exactly for a missing dataset.xml; the single EASY2 id when it is
      readable; otherwise the error naming the bag directory. */
  lemma FindDatasetIdCases(b: BagParent)
    ensures CheckOneSubdirectory(b).Fail? ==> FindDatasetId(b) == Err(CheckOneSubdirectory(b).error)
    ensures FindDatasetId(b).Ok? <==>
      |b.dirs| == 1 && (b.datasetXml.Missing? || (b.datasetXml.Present? && GetDatasetId(b.datasetXml.identifiers).Ok?))
    ensures FindDatasetId(b) == Ok(None) <==> |b.dirs| == 1 && b.datasetXml.Missing?
    ensures FindDatasetId(b).Ok? && FindDatasetId(b).value.Some? ==>
      FindDatasetId(b).value.value == GetDatasetId(b.datasetXml.identifiers).value
    ensures |b.dirs| == 1 && FindDatasetId(b).Err? ==>
      FindDatasetId(b).error == Runtime("Error while reading dataset.xml in " + PathText(BagDir(b)))
  {
  }

  /** The map as buildIdToBagPaths keeps it. */
  type Index = map<DatasetId, seq<Path>>

  /** A bag parent's path, with what findDatasetId answers for it. */
  datatype Found = Found(path: Path, id: Result<DatasetId>)

  /** The answers of findDatasetId for the listing, in listing order. */
  function Finds(listing: seq<BagParent>): seq<Found> {
    seq(|listing|, i requires 0 <= i < |listing| => Found(listing[i].path, FindDatasetId(listing[i])))
  }

  /** One step of the forEach: append the bag parent to its id's list,
      store the list, and refuse a third bag. */
  function Step(m: Index, f: Found): Result<Index> {
    match f.id
    case Err(e) => Err(e)
    case Ok(id) =>
      var list := (if id in m then m[id] else []) + [f.path];
      if |list| > 2 then Err(TooManyBags(id)) else Ok(m[id := list])
  }

  /** The forEach over the answers, from the map m; the first failure stops it. */
  function GroupFrom(m: Index, fs: seq<Found>): Result<Index>
    decreases |fs|
  {
    if fs == [] then Ok(m)
    else
      match GroupFrom(m, fs[..|fs| - 1])
      case Err(e) => Err(e)
      case Ok(m') => Step(m', fs[|fs| - 1])
  }

  /** buildIdToBagPaths on the initially empty map. */
  function Group(listing: seq<BagParent>): Result<Index> {
    GroupFrom(map[], Finds(listing))
  }

  /** The paths of the bag parents with dataset id id, in listing order
      (meaningful when every bag parent has a readable id). */
  function BagsOf(fs: seq<Found>, id: DatasetId): (r: seq<Path>)
    ensures r == [] <==> forall i :: 0 <= i < |fs| ==> fs[i].id != Ok(id)
    decreases |fs|
  {
    if fs == [] then []
    else
      var last := fs[|fs| - 1];
      BagsOf(fs[..|fs| - 1], id) + (if last.id == Ok(id) then [last.path] else [])
  }

  /** On success: every bag parent had an id, the keys are exactly those ids,
      each list holds that id's bag parents in listing order, and has one or
      two elements. */
  lemma {:induction false} GroupContents(fs: seq<Found>)
    requires GroupFrom(map[], fs).Ok?
    ensures forall i :: 0 <= i < |fs| ==> fs[i].id.Ok?
    ensures forall id :: id in GroupFrom(map[], fs).value <==> BagsOf(fs, id) != []
    ensures forall id :: id in GroupFrom(map[], fs).value ==>
      GroupFrom(map[], fs).value[id] == BagsOf(fs, id) && 1 <= |GroupFrom(map[], fs).value[id]| <= 2
    decreases |fs|
  {
    if fs != [] {
      var init := fs[..|fs| - 1];
      var last := fs[|fs| - 1];
      GroupContents(init);
      var m := GroupFrom(map[], init).value;
      var id := last.id.value;
      var list := (if id in m then m[id] else []) + [last.path];
      assert GroupFrom(map[], fs) == Ok(m[id := list]);
      forall i | 0 <= i < |fs| ensures fs[i].id.Ok? {
        if i < |init| {
          assert fs[i] == init[i];
        }
      }
      forall k ensures k in m[id := list] <==> BagsOf(fs, k) != []
      {
        assert BagsOf(fs, k) == BagsOf(init, k) + (if k == id then [last.path] else []);
      }
      forall k | k in m[id := list]
        ensures m[id := list][k] == BagsOf(fs, k) && 1 <= |m[id := list][k]| <= 2
      {
        assert BagsOf(fs, k) == BagsOf(init, k) + (if k == id then [last.path] else []);
      }
    }
  }

  /** The grouping succeeds when every bag parent has a readable id and no
      id has more than two bag parents. */
  lemma {:induction false} GroupSucceeds(fs: seq<Found>)
    requires forall i :: 0 <= i < |fs| ==> fs[i].id.Ok?
    requires forall id :: |BagsOf(fs, id)| <= 2
    ensures GroupFrom(map[], fs).Ok?
    decreases |fs|
  {
    if fs != [] {
      var init := fs[..|fs| - 1];
      var last := fs[|fs| - 1];
      forall i | 0 <= i < |init| ensures init[i].id.Ok? {
        assert init[i] == fs[i];
      }
      forall id ensures |BagsOf(init, id)| <= 2 {
        assert |BagsOf(init, id)| <= |BagsOf(fs, id)|;
      }
      GroupSucceeds(init);
      GroupContents(init);
      var id := last.id.value;
      assert |BagsOf(fs, id)| == |BagsOf(init, id)| + 1;
      assert GroupFrom(map[], fs) == Step(GroupFrom(map[], init).value, last);
    }
  }

  /** So the grouping fails exactly when some bag parent has no readable id
      or some id has more than two bag parents. */
  lemma GroupFailsIff(fs: seq<Found>)
    ensures GroupFrom(map[], fs).Err? <==>
      (exists i :: 0 <= i < |fs| && fs[i].id.Err?) ||
      (exists id :: |BagsOf(fs, id)| > 2)
  {
    if GroupFrom(map[], fs).Ok? {
      GroupContents(fs);
      forall id ensures |BagsOf(fs, id)| <= 2 {
        if id !in GroupFrom(map[], fs).value {
          assert BagsOf(fs, id) == [];
        }
      }
    } else if forall i :: 0 <= i < |fs| ==> fs[i].id.Ok? {
      if forall id :: |BagsOf(fs, id)| <= 2 {
        GroupSucceeds(fs);
        assert false;
      } else {
        var id :| |BagsOf(fs, id)| > 2;
        assert exists id' :: |BagsOf(fs, id')| > 2;
        assert GroupFrom(map[], fs).Err?;
      }
    }
  }

  /** Once the fold has failed on a prefix, that failure is the result. */
  lemma {:induction false} ErrorsFromHere(m: Index, fs: seq<Found>, i: nat)
    requires i <= |fs| && GroupFrom(m, fs[..i]).Err?
    ensures GroupFrom(m, fs) == GroupFrom(m, fs[..i])
    decreases |fs| - i
  {
    if i < |fs| {
      assert fs[..i + 1][..i] == fs[..i];
      ErrorsFromHere(m, fs, i + 1);
    } else {
      assert fs[..i] == fs;
    }
  }

  /** A bag parent whose subdirectories or dataset.xml are wrong stops the
      grouping with its own error. */
  lemma BadBagParentFails(fs: seq<Found>, i: nat)
    requires i < |fs| && GroupFrom(map[], fs[..i]).Ok? && fs[i].id.Err?
    ensures GroupFrom(map[], fs) == Err(fs[i].id.error)
  {
    assert fs[..i + 1][..i] == fs[..i];
    ErrorsFromHere(map[], fs, i + 1);
  }

  /** A third bag parent for one id stops the grouping with "More than 2 bags". */
  lemma ThirdBagFails(fs: seq<Found>, i: nat, id: DatasetId)
    requires i < |fs| && GroupFrom(map[], fs[..i]).Ok?
    requires fs[i].id == Ok(id) && |BagsOf(fs[..i], id)| == 2
    ensures GroupFrom(map[], fs) == Err(TooManyBags(id))
  {
    var init := fs[..i];
    var m := GroupFrom(map[], init).value;
    GroupContents(init);
    assert id in m && |m[id]| == 2;
    assert GroupFrom(map[], fs[..i + 1]) == Step(m, fs[i]) by {
      assert fs[..i + 1][..i] == init;
    }
    ErrorsFromHere(map[], fs, i + 1);
  }

  /** The subdirectory check comes before any look at dataset.xml. */
  lemma SubdirectoriesCheckedFirst(b: BagParent, datasetXml: DatasetXmlFile)
    requires |b.dirs| != 1
    ensures FindDatasetId(b) == FindDatasetId(b.(datasetXml := datasetXml))
    ensures FindDatasetId(b).Err? && FindDatasetId(b).error.IllegalState?
  {
  }

  /** The sum of the lengths of all lists. */
  ghost function SumLengths(m: Index): nat
    decreases |m.Keys|
  {
    if m == map[] then 0
    else
      var k :| k in m;
      |m[k]| + SumLengths(m - {k})
  }

  lemma {:induction false} SumLengthsRemove(m: Index, k: DatasetId)
    requires k in m
    ensures SumLengths(m) == |m[k]| + SumLengths(m - {k})
    decreases |m.Keys|
  {
    var j :| j in m && SumLengths(m) == |m[j]| + SumLengths(m - {j});
    if j != k {
      SumLengthsRemove(m - {j}, k);
      SumLengthsRemove(m - {k}, j);
      assert m - {j} - {k} == m - {k} - {j};
    }
  }

  lemma SumLengthsUpdate(m: Index, k: DatasetId, list: seq<Path>)
    ensures SumLengths(m[k := list]) == SumLengths(m) - (if k in m then |m[k]| else 0) + |list|
  {
    SumLengthsRemove(m[k := list], k);
    assert m[k := list] - {k} == m - {k};
    if k in m {
      SumLengthsRemove(m, k);
    } else {
      assert m - {k} == m;
    }
  }

  /** Every bag parent is in exactly one list: the lengths add up to the
      number of bag parents. */
  lemma {:induction false} GroupTotal(fs: seq<Found>)
    requires GroupFrom(map[], fs).Ok?
    ensures SumLengths(GroupFrom(map[], fs).value) == |fs|
    decreases |fs|
  {
    if fs == [] {
    } else {
      var init := fs[..|fs| - 1];
      var last := fs[|fs| - 1];
      GroupTotal(init);
      var m := GroupFrom(map[], init).value;
      var id := last.id.value;
      SumLengthsUpdate(m, id, (if id in m then m[id] else []) + [last.path]);
    }
  }

  /** The object built from an export directory. */
  class FedoraExports {
    var idToBagParents: Index

    constructor ()
      ensures idToBagParents == map[]
    {
      idToBagParents := map[];
    }

    /** buildIdToBagPaths: the forEach over the listing. */
    method BuildIdToBagPaths(listing: seq<BagParent>) returns (r: Outcome)
      modifies this
      ensures match GroupFrom(old(idToBagParents), Finds(listing))
        case Ok(m) => r == Pass && idToBagParents == m
        case Err(e) => r == Fail(e)
    {
      ghost var start := idToBagParents;
      ghost var fs := Finds(listing);
      var i := 0;
      while i < |listing|
        invariant 0 <= i <= |listing|
        invariant GroupFrom(start, fs[..i]) == Ok(idToBagParents)
      {
        assert fs[..i + 1][..i] == fs[..i];
        var bagParent := listing[i];
        var datasetId := FindDatasetId(bagParent);
        assert fs[i] == Found(bagParent.path, datasetId);
        if datasetId.Err? {
          ErrorsFromHere(start, fs, i + 1);
          return Fail(datasetId.error);
        }
        var id := datasetId.value;
        var bags := if id in idToBagParents then idToBagParents[id] else [];
        bags := bags + [bagParent.path];
        idToBagParents := idToBagParents[id := bags];
        if |idToBagParents[id]| > 2 {
          ErrorsFromHere(start, fs, i + 1);
          return Fail(TooManyBags(id));
        }
        i := i + 1;
      }
      assert fs[..i] == fs;
      return Pass;
    }

    /** getBagParentsForDatasetId: the list of the id, null for an unknown id. */
    function GetBagParentsForDatasetId(datasetId: DatasetId): (r: Option<seq<Path>>)
      reads this
      ensures r.Some? <==> datasetId in idToBagParents
    {
      if datasetId in idToBagParents then Some(idToBagParents[datasetId]) else None
    }

    /** getDatasetIds: the key set. */
    function GetDatasetIds(): (r: set<DatasetId>)
      reads this
      ensures forall id :: id in r <==> GetBagParentsForDatasetId(id).Some?
    {
      idToBagParents.Keys
    }
  }

  /** new FedoraExports(inputDir): the object, or the exception of the build. */
  method NewFedoraExports(listing: seq<BagParent>) returns (r: Result<FedoraExports>)
    ensures match Group(listing)
      case Ok(m) => r.Ok? && fresh(r.value) && r.value.idToBagParents == m
      case Err(e) => r == Err(e)
  {
    var exports := new FedoraExports();
    var outcome := exports.BuildIdToBagPaths(listing);
    if outcome.Fail? {
      return Err(outcome.error);
    }
    return Ok(exports);
  }

  /** What the getters of a built object answer: the bag parents of the id in
      listing order (null when it has none), and the ids found. */
  lemma Lookups(exports: FedoraExports, listing: seq<BagParent>, id: DatasetId)
    requires Group(listing) == Ok(exports.idToBagParents)
    ensures var bags := BagsOf(Finds(listing), id);
      exports.GetBagParentsForDatasetId(id) == if bags == [] then None else Some(bags)
    ensures id in exports.GetDatasetIds() <==> exists i :: 0 <= i < |listing| && FindDatasetId(listing[i]) == Ok(id)
  {
    var fs := Finds(listing);
    GroupContents(fs);
    if id in exports.GetDatasetIds() {
      var i :| 0 <= i < |fs| && fs[i].id == Ok(id);
      assert FindDatasetId(listing[i]) == Ok(id);
    } else {
      forall i | 0 <= i < |listing| ensures FindDatasetId(listing[i]) != Ok(id) {
        assert fs[i].id == FindDatasetId(listing[i]);
      }
    }
  }
}
