/** The files.xml index of an exported bag: one <file> element per payload
    file, each with a dct:identifier child (the file id) and a filepath
    attribute, kept in document order. */
module FilesIndex {
  import opened Outcomes

  datatype FileRecord = FileRecord(id: string, filepath: string)

  /** The exception thrown when no <file> element has the requested id. */
  function NotFound(id: string): Error {
    IllegalArgument("No file with id " + id + " found in files.xml")
  }

  /** The record has id as the text of its identifier, so that the XPath
      test text() = 'id' selects it. An empty <dct:identifier/> has no text
      node, and the empty id matches no record. */
  predicate Named(r: FileRecord, id: string) {
    id != "" && r.id == id
  }

  /** The identifier texts of the records, in document order, as
      //dct:identifier/text() selects them: records with an empty
      identifier contribute nothing. */
  function Ids(rs: seq<FileRecord>): seq<string>
    decreases |rs|
  {
    if rs == [] then []
    else Ids(rs[..|rs| - 1]) + (if rs[|rs| - 1].id == "" then [] else [rs[|rs| - 1].id])
  }

  /** The position of the first record with the given id, if any. */
  function FirstIndex(rs: seq<FileRecord>, id: string): (r: Option<nat>)
    ensures r.Some? ==> r.value < |rs| && Named(rs[r.value], id)
    ensures r.Some? ==> forall j :: 0 <= j < r.value ==> !Named(rs[j], id)
    ensures r.None? ==> forall j :: 0 <= j < |rs| ==> !Named(rs[j], id)
  {
    if rs == [] then None
    else if Named(rs[0], id) then Some(0)
    else match FirstIndex(rs[1..], id)
      case None => None
      case Some(k) => Some(k + 1)
  }

  /** What getFilepathForFileId returns for the records rs. */
  function PathFor(rs: seq<FileRecord>, id: string): Result<string> {
    match FirstIndex(rs, id)
    case None => Err(NotFound(id))
    case Some(k) => Ok(rs[k].filepath)
  }

  /** The records after setFilepathForFileId(id, path). */
  function WithPath(rs: seq<FileRecord>, id: string, path: string): Result<seq<FileRecord>> {
    match FirstIndex(rs, id)
    case None => Err(NotFound(id))
    case Some(k) => Ok(rs[k := rs[k].(filepath := path)])
  }

  /** The records after removeFile(id). */
  function Without(rs: seq<FileRecord>, id: string): Result<seq<FileRecord>> {
    match FirstIndex(rs, id)
    case None => Err(NotFound(id))
    case Some(k) => Ok(rs[..k] + rs[k + 1..])
  }

  /** Two record sequences with the same identifier at every position. */
  predicate SameIds(a: seq<FileRecord>, b: seq<FileRecord>) {
    |a| == |b| && forall i :: 0 <= i < |a| ==> a[i].id == b[i].id
  }

  /** FirstIndex looks only at the identifiers. */
  lemma {:induction false} FirstIndexOfSameIds(a: seq<FileRecord>, b: seq<FileRecord>, id: string)
    requires SameIds(a, b)
    ensures FirstIndex(a, id) == FirstIndex(b, id)
  {
    if a != [] {
      assert a[0].id == b[0].id;
      assert SameIds(a[1..], b[1..]) by {
        forall i | 0 <= i < |a[1..]| ensures a[1..][i].id == b[1..][i].id {
          assert a[1..][i] == a[i + 1] && b[1..][i] == b[i + 1];
        }
      }
      FirstIndexOfSameIds(a[1..], b[1..], id);
    }
  }

  /** Records with the same identifiers list the same identifier texts. */
  lemma {:induction false} IdsOfSameIds(a: seq<FileRecord>, b: seq<FileRecord>)
    requires SameIds(a, b)
    ensures Ids(a) == Ids(b)
    decreases |a|
  {
    if a != [] {
      var n := |a| - 1;
      assert SameIds(a[..n], b[..n]) by {
        forall i | 0 <= i < n ensures a[..n][i].id == b[..n][i].id {
          assert a[..n][i] == a[i] && b[..n][i] == b[i];
        }
      }
      IdsOfSameIds(a[..n], b[..n]);
      assert a[n].id == b[n].id;
    }
  }

  /** The identifiers of a concatenation. */
  lemma {:induction false} IdsConcat(a: seq<FileRecord>, b: seq<FileRecord>)
    ensures Ids(a + b) == Ids(a) + Ids(b)
    decreases |b|
  {
    if b == [] {
      assert a + b == a;
    } else {
      var n := |b| - 1;
      var last := if b[n].id == "" then [] else [b[n].id];
      assert (a + b)[..|a + b| - 1] == a + b[..n];
      assert (a + b)[|a + b| - 1] == b[n];
      IdsConcat(a, b[..n]);
      assert Ids(a + b) == Ids(a + b[..n]) + last;
      assert Ids(b) == Ids(b[..n]) + last;
    }
  }

  /** Membership in the identifier sequence: some record is named id. */
  lemma {:induction false} InIds(rs: seq<FileRecord>, id: string)
    ensures id in Ids(rs) <==> exists j :: 0 <= j < |rs| && Named(rs[j], id)
    decreases |rs|
  {
    if rs != [] {
      var n := |rs| - 1;
      var init := rs[..n];
      InIds(init, id);
      assert Ids(rs) == Ids(init) + (if rs[n].id == "" then [] else [rs[n].id]);
      if id in Ids(init) {
        var j :| 0 <= j < |init| && Named(init[j], id);
        assert rs[j] == init[j];
      }
      if exists j :: 0 <= j < |rs| && Named(rs[j], id) {
        var j :| 0 <= j < |rs| && Named(rs[j], id);
        if j < n {
          assert init[j] == rs[j];
        }
      }
    }
  }

  /** The empty id is never listed and never found: no record with an empty
      identifier can be looked up, changed or removed. */
  lemma EmptyIdNeverFound(rs: seq<FileRecord>, path: string)
    ensures "" !in Ids(rs)
    ensures PathFor(rs, "") == Err(NotFound(""))
    ensures WithPath(rs, "", path) == Err(NotFound(""))
    ensures Without(rs, "") == Err(NotFound(""))
  {
    InIds(rs, "");
  }

  /** A record is the first with its id exactly when no earlier record has it. */
  lemma FirstIndexIs(rs: seq<FileRecord>, id: string, k: nat)
    requires k < |rs| && Named(rs[k], id)
    requires forall j :: 0 <= j < k ==> !Named(rs[j], id)
    ensures FirstIndex(rs, id) == Some(k)
  {
  }

  /** The three lookups fail, with the same exception, exactly when no record has the id. */
  lemma AbsentIdFails(rs: seq<FileRecord>, id: string, path: string)
    ensures PathFor(rs, id).Err? <==> id !in Ids(rs)
    ensures WithPath(rs, id, path).Err? <==> id !in Ids(rs)
    ensures Without(rs, id).Err? <==> id !in Ids(rs)
    ensures id !in Ids(rs) ==>
              PathFor(rs, id).error == NotFound(id) &&
              WithPath(rs, id, path).error == NotFound(id) &&
              Without(rs, id).error == NotFound(id)
  {
    InIds(rs, id);
  }

  /** The lookup returns the filepath of the first record with the id. */
  lemma PathIsFirstMatch(rs: seq<FileRecord>, id: string, k: nat)
    requires k < |rs| && Named(rs[k], id)
    requires forall j :: 0 <= j < k ==> !Named(rs[j], id)
    ensures PathFor(rs, id) == Ok(rs[k].filepath)
  {
    FirstIndexIs(rs, id, k);
  }

  /** After setting the path of an id, looking up that id returns the new path. */
  lemma SetThenGet(rs: seq<FileRecord>, id: string, path: string)
    requires id in Ids(rs)
    ensures WithPath(rs, id, path).Ok?
    ensures PathFor(WithPath(rs, id, path).value, id) == Ok(path)
  {
    InIds(rs, id);
    var rs' := WithPath(rs, id, path).value;
    assert SameIds(rs', rs);
    FirstIndexOfSameIds(rs', rs, id);
  }

  /** Setting a path changes only the filepath of the first record with the id:
      the id sequence is the same and every other id still finds its old path. */
  lemma SetKeepsOthers(rs: seq<FileRecord>, id: string, path: string, other: string)
    requires WithPath(rs, id, path).Ok?
    ensures var rs' := WithPath(rs, id, path).value;
      && |rs'| == |rs|
      && Ids(rs') == Ids(rs)
      && (forall j :: 0 <= j < |rs| && j != FirstIndex(rs, id).value ==> rs'[j] == rs[j])
      && (other != id ==> PathFor(rs', other) == PathFor(rs, other))
  {
    var rs' := WithPath(rs, id, path).value;
    assert SameIds(rs', rs);
    IdsOfSameIds(rs', rs);
    FirstIndexOfSameIds(rs', rs, other);
  }

  /** Removing drops exactly the first record with the id; the others keep their order. */
  lemma RemoveDropsFirst(rs: seq<FileRecord>, id: string)
    requires id in Ids(rs)
    ensures Without(rs, id).Ok?
    ensures var k := FirstIndex(rs, id).value;
            var rs' := Without(rs, id).value;
      && |rs'| == |rs| - 1
      && Ids(rs) == Ids(rs[..k]) + [id] + Ids(rs[k + 1..])
      && Ids(rs') == Ids(rs[..k]) + Ids(rs[k + 1..])
      && multiset(rs') + multiset{rs[k]} == multiset(rs)
      && (id in Ids(rs') <==> id in Ids(rs[k + 1..]))
  {
    InIds(rs, id);
    var k := FirstIndex(rs, id).value;
    var before, after := rs[..k], rs[k + 1..];
    assert rs == before + [rs[k]] + after;
    IdsConcat(before, after);
    IdsConcat(before + [rs[k]], after);
    IdsConcat(before, [rs[k]]);
    assert Ids([rs[k]]) == [id] by {
      assert [rs[k]][..0] == [];
    }
    InIds(before, id);
  }

  /** The record at position j once the record at position k is removed. */
  lemma RemovedAt(rs: seq<FileRecord>, k: nat, j: nat)
    requires k < |rs| && j < |rs| - 1
    ensures (rs[..k] + rs[k + 1..])[j] == if j < k then rs[j] else rs[j + 1]
  {
  }

  /** Removing a record leaves every other id's lookup unchanged. */
  lemma RemoveKeepsOthers(rs: seq<FileRecord>, id: string, other: string)
    requires Without(rs, id).Ok? && other != id
    ensures PathFor(Without(rs, id).value, other) == PathFor(rs, other)
  {
    var k := FirstIndex(rs, id).value;
    var rs' := rs[..k] + rs[k + 1..];
    var m := FirstIndex(rs, other);
    if m.None? {
      forall j | 0 <= j < |rs'| ensures !Named(rs'[j], other) {
        RemovedAt(rs, k, j);
      }
    } else {
      var n := if m.value < k then m.value else m.value - 1;
      forall j | 0 <= j < n ensures !Named(rs'[j], other) {
        RemovedAt(rs, k, j);
      }
      RemovedAt(rs, k, n);
      FirstIndexIs(rs', other, n);
    }
  }

  /** The in-memory files.xml document. */
  class FilesXml {
    var records: seq<FileRecord>

    constructor (records: seq<FileRecord>)
      ensures this.records == records
    {
      this.records := records;
    }

    /** The identifier texts of all records in document order. */
    method GetFileIds() returns (ids: seq<string>)
      ensures ids == Ids(records)
    {
      ids := [];
      var i := 0;
      while i < |records|
        invariant 0 <= i <= |records|
        invariant ids == Ids(records[..i])
      {
        ghost var next := records[..i + 1];
        assert next[..i] == records[..i] && next[i] == records[i];
        if records[i].id != "" {
          ids := ids + [records[i].id];
        }
        i := i + 1;
      }
      assert records[..i] == records;
    }

    /** The position of the first <file> element whose identifier is id. */
    method GetElementById(id: string) returns (r: Option<nat>)
      ensures r == FirstIndex(records, id)
    {
      var i := 0;
      while i < |records|
        invariant 0 <= i <= |records|
        invariant forall j :: 0 <= j < i ==> !Named(records[j], id)
      {
        if Named(records[i], id) {
          FirstIndexIs(records, id, i);
          return Some(i);
        }
        i := i + 1;
      }
      return None;
    }

    method GetFilepathForFileId(id: string) returns (r: Result<string>)
      ensures r == PathFor(records, id)
    {
      var node := GetElementById(id);
      if node.None? {
        return Err(NotFound(id));
      }
      return Ok(records[node.value].filepath);
    }

    method SetFilepathForFileId(id: string, path: string) returns (r: Outcome)
      modifies this
      ensures match WithPath(old(records), id, path)
              case Ok(rs) => r == Pass && records == rs
              case Err(e) => r == Fail(e) && records == old(records)
    {
      var node := GetElementById(id);
      if node.None? {
        return Fail(NotFound(id));
      }
      var k := node.value;
      records := records[k := records[k].(filepath := path)];
      return Pass;
    }

    method RemoveFile(id: string) returns (r: Outcome)
      modifies this
      ensures match Without(old(records), id)
              case Ok(rs) => r == Pass && records == rs
              case Err(e) => r == Fail(e) && records == old(records)
    {
      var node := GetElementById(id);
      if node.None? {
        return Fail(NotFound(id));
      }
      var k := node.value;
      records := records[..k] + records[k + 1..];
      return Pass;
    }
  }
}
