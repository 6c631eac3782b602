/** The dataset.xml (DDM) document of a bag, reduced to what the components
    read from it: the dct:identifier elements under ddm:dcmiMetadata, each
    with its xsi:type attribute (the empty string when absent) and its text. */
module DatasetMetadata {
  import opened Outcomes

  datatype Identifier = Identifier(xsiType: string, text: string)

  /** The xsi:type that marks the EASY dataset id. */
  const Easy2Type: string := "id-type:EASY2"

  const NoDatasetId: string := "No datasetId found in the dataset.xml"
  const MultipleDatasetIds: string := "Multiple datasetIds found in the dataset.xml"

  predicate IsEasy2(id: Identifier) {
    id.xsiType == Easy2Type
  }

  /** No identifier is marked EASY2. */
  predicate NoneMarked(ids: seq<Identifier>) {
    forall i :: 0 <= i < |ids| ==> !IsEasy2(ids[i])
  }

  /** At least two identifiers are marked EASY2. */
  predicate TwoMarked(ids: seq<Identifier>) {
    exists i, j :: 0 <= i < j < |ids| && IsEasy2(ids[i]) && IsEasy2(ids[j])
  }

  /** The identifier at i is the only one marked EASY2. */
  predicate OnlyMarked(ids: seq<Identifier>, i: int) {
    0 <= i < |ids| && IsEasy2(ids[i]) && forall j :: 0 <= j < |ids| && IsEasy2(ids[j]) ==> j == i
  }

  /** The texts of the identifiers whose xsi:type is exactly id-type:EASY2, in document order. */
  function Easy2Texts(ids: seq<Identifier>): (r: seq<string>)
    ensures |r| == 0 <==> NoneMarked(ids)
    ensures |r| >= 2 <==> TwoMarked(ids)
    ensures |r| == 1 ==> exists i :: 0 <= i < |ids| && IsEasy2(ids[i]) && ids[i].text == r[0]
  {
    if ids == [] then []
    else
      var rest := Easy2Texts(ids[1..]);
      assert forall i :: 1 <= i < |ids| ==> ids[i] == ids[1..][i - 1];
      if IsEasy2(ids[0]) then [ids[0].text] + rest else rest
  }

  /** The dataset id selected by the XPath
      /ddm:DDM/ddm:dcmiMetadata/dct:identifier[@xsi:type='id-type:EASY2']:
      exactly one match is required. */
  function GetDatasetId(ids: seq<Identifier>): (r: Result<string>)
    ensures r.Ok? ==> exists i :: 0 <= i < |ids| && IsEasy2(ids[i]) && ids[i].text == r.value
  {
    var matches := Easy2Texts(ids);
    if |matches| == 0 then Err(IllegalState(NoDatasetId))
    else if |matches| > 1 then Err(IllegalState(MultipleDatasetIds))
    else Ok(matches[0])
  }

  /** The selection succeeds exactly when one identifier is marked EASY2, and
      fails with one message for none and another for several. */
  lemma GetDatasetIdCases(ids: seq<Identifier>)
    ensures GetDatasetId(ids).Ok? <==> exists i :: OnlyMarked(ids, i)
    ensures GetDatasetId(ids) == Err(IllegalState(NoDatasetId)) <==> NoneMarked(ids)
    ensures GetDatasetId(ids) == Err(IllegalState(MultipleDatasetIds)) <==> TwoMarked(ids)
  {
    if |Easy2Texts(ids)| == 1 {
      var i :| 0 <= i < |ids| && IsEasy2(ids[i]);
      SingleMatchIsUnique(ids);
      assert OnlyMarked(ids, i);
    }
  }

  /** When no two identifiers are marked EASY2, a marked one is the only one. */
  lemma SingleMatchIsUnique(ids: seq<Identifier>)
    requires !TwoMarked(ids)
    ensures forall i, j :: 0 <= i < |ids| && 0 <= j < |ids| && IsEasy2(ids[i]) && IsEasy2(ids[j]) ==> i == j
  {
  }

  lemma {:induction false} Easy2TextsConcat(a: seq<Identifier>, b: seq<Identifier>)
    ensures Easy2Texts(a + b) == Easy2Texts(a) + Easy2Texts(b)
  {
    if a == [] {
      assert a + b == b;
    } else {
      assert (a + b)[0] == a[0];
      assert (a + b)[1..] == a[1..] + b;
      Easy2TextsConcat(a[1..], b);
    }
  }

  /** An identifier of any other xsi:type does not affect the selection,
      wherever it stands. */
  lemma OtherTypesIgnored(a: seq<Identifier>, x: Identifier, b: seq<Identifier>)
    requires !IsEasy2(x)
    ensures GetDatasetId(a + [x] + b) == GetDatasetId(a + b)
  {
    Easy2TextsConcat(a + [x], b);
    Easy2TextsConcat(a, [x]);
    Easy2TextsConcat(a, b);
    assert Easy2Texts([x]) == [] by {
      assert [x][1..] == [];
    }
  }
}
