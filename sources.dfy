/** Sources: the sources.csv table, which maps each EASY file id to its path
    in the Springfield directory and each EASY dataset id to its file ids.
    The parsed rows are a parameter. */
module SourcesCsv {
  import opened Outcomes

  /** One record: the easy_file_id, path_in_springfield_dir and easy_dataset_id columns. */
  datatype SourceRow = SourceRow(easyFileId: string, pathInSpringfieldDir: string, easyDatasetId: string)

  /** fileIdToSpringfieldPath after the rows: put, so a later row overwrites. */
  function PathsFrom(rows: seq<SourceRow>): map<string, string>
    decreases |rows|
  {
    if rows == [] then map[]
    else
      var last := rows[|rows| - 1];
      PathsFrom(rows[..|rows| - 1])[last.easyFileId := last.pathInSpringfieldDir]
  }

  /** datasetIdToSpringfieldFileIds after the rows: computeIfAbsent, then add. */
  function FileIdsFrom(rows: seq<SourceRow>): map<string, set<string>>
    decreases |rows|
  {
    if rows == [] then map[]
    else
      var m := FileIdsFrom(rows[..|rows| - 1]);
      var last := rows[|rows| - 1];
      m[last.easyDatasetId := (if last.easyDatasetId in m then m[last.easyDatasetId] else {}) + {last.easyFileId}]
  }

  /** The index of the last row with file id fileId, if any. */
  function LastRowOf(rows: seq<SourceRow>, fileId: string): (r: Option<nat>)
    ensures r.None? <==> forall i :: 0 <= i < |rows| ==> rows[i].easyFileId != fileId
    ensures r.Some? ==> r.value < |rows| && rows[r.value].easyFileId == fileId
    ensures r.Some? ==> forall j :: r.value < j < |rows| ==> rows[j].easyFileId != fileId
    decreases |rows|
  {
    if rows == [] then None
    else if rows[|rows| - 1].easyFileId == fileId then Some(|rows| - 1)
    else LastRowOf(rows[..|rows| - 1], fileId)
  }

  /** The file ids of the rows with dataset id datasetId. */
  function FileIdsOf(rows: seq<SourceRow>, datasetId: string): set<string> {
    set i | 0 <= i < |rows| && rows[i].easyDatasetId == datasetId :: rows[i].easyFileId
  }

  /** A file id has the path of its last row, and no path without a row. */
  lemma {:induction false} LastRowWins(rows: seq<SourceRow>, fileId: string)
    ensures fileId in PathsFrom(rows) <==> LastRowOf(rows, fileId).Some?
    ensures fileId in PathsFrom(rows) ==>
      PathsFrom(rows)[fileId] == rows[LastRowOf(rows, fileId).value].pathInSpringfieldDir
    decreases |rows|
  {
    if rows != [] {
      LastRowWins(rows[..|rows| - 1], fileId);
    }
  }

  /** A dataset id is a key exactly when some row has it, and then its set is
      the file ids of its rows. */
  lemma {:induction false} FileIdsCollected(rows: seq<SourceRow>, datasetId: string)
    ensures datasetId in FileIdsFrom(rows) <==> exists i :: 0 <= i < |rows| && rows[i].easyDatasetId == datasetId
    ensures datasetId in FileIdsFrom(rows) ==> FileIdsFrom(rows)[datasetId] == FileIdsOf(rows, datasetId)
    decreases |rows|
  {
    if rows != [] {
      var init := rows[..|rows| - 1];
      var last := rows[|rows| - 1];
      FileIdsCollected(init, datasetId);
      assert forall i :: 0 <= i < |init| ==> init[i] == rows[i];
      if last.easyDatasetId == datasetId {
        assert FileIdsOf(rows, datasetId) == FileIdsOf(init, datasetId) + {last.easyFileId};
      } else {
        assert FileIdsOf(rows, datasetId) == FileIdsOf(init, datasetId);
      }
    }
  }

  /** Every stored set is non-empty, and each file id in it has a path. */
  lemma StoredSetsAreUseful(rows: seq<SourceRow>, datasetId: string, fileId: string)
    requires datasetId in FileIdsFrom(rows)
    ensures FileIdsFrom(rows)[datasetId] != {}
    ensures fileId in FileIdsFrom(rows)[datasetId] ==> fileId in PathsFrom(rows)
  {
    FileIdsCollected(rows, datasetId);
    var i :| 0 <= i < |rows| && rows[i].easyDatasetId == datasetId;
    assert rows[i].easyFileId in FileIdsOf(rows, datasetId);
    if fileId in FileIdsFrom(rows)[datasetId] {
      var j :| 0 <= j < |rows| && rows[j].easyDatasetId == datasetId && rows[j].easyFileId == fileId;
      LastRowWins(rows, fileId);
    }
  }

  /** A file id listed under two dataset ids is in both sets, with one path:
      that of its last row. */
  lemma SharedFileId(rows: seq<SourceRow>, i: nat, j: nat)
    requires i < |rows| && j < |rows| && rows[i].easyFileId == rows[j].easyFileId
    ensures rows[i].easyDatasetId in FileIdsFrom(rows) && rows[i].easyFileId in FileIdsFrom(rows)[rows[i].easyDatasetId]
    ensures rows[j].easyDatasetId in FileIdsFrom(rows) && rows[i].easyFileId in FileIdsFrom(rows)[rows[j].easyDatasetId]
    ensures rows[i].easyFileId in PathsFrom(rows) && PathsFrom(rows)[rows[i].easyFileId] ==
      rows[LastRowOf(rows, rows[i].easyFileId).value].pathInSpringfieldDir
  {
    FileIdsCollected(rows, rows[i].easyDatasetId);
    FileIdsCollected(rows, rows[j].easyDatasetId);
    assert rows[i].easyFileId in FileIdsOf(rows, rows[i].easyDatasetId);
    assert rows[j].easyFileId in FileIdsOf(rows, rows[j].easyDatasetId);
    LastRowWins(rows, rows[i].easyFileId);
  }

  /** The object built from sources.csv. */
  class Sources {
    var fileIdToSpringfieldPath: map<string, string>
    var datasetIdToSpringfieldFileIds: map<string, set<string>>

    /** The constructor's loop over the CSV records. */
    constructor (rows: seq<SourceRow>)
      ensures fileIdToSpringfieldPath == PathsFrom(rows)
      ensures datasetIdToSpringfieldFileIds == FileIdsFrom(rows)
    {
      fileIdToSpringfieldPath := map[];
      datasetIdToSpringfieldFileIds := map[];
      new;
      var i := 0;
      while i < |rows|
        invariant 0 <= i <= |rows|
        invariant fileIdToSpringfieldPath == PathsFrom(rows[..i])
        invariant datasetIdToSpringfieldFileIds == FileIdsFrom(rows[..i])
      {
        var row := rows[i];
        ghost var next := rows[..i + 1];
        assert next[..i] == rows[..i] && next[i] == row;
        fileIdToSpringfieldPath := fileIdToSpringfieldPath[row.easyFileId := row.pathInSpringfieldDir];
        assert fileIdToSpringfieldPath == PathsFrom(next);
        var fileIds := if row.easyDatasetId in datasetIdToSpringfieldFileIds
          then datasetIdToSpringfieldFileIds[row.easyDatasetId] else {};
        datasetIdToSpringfieldFileIds := datasetIdToSpringfieldFileIds[row.easyDatasetId := fileIds + {row.easyFileId}];
        assert datasetIdToSpringfieldFileIds == FileIdsFrom(next);
        i := i + 1;
      }
      assert rows[..i] == rows;
    }

    /** getSpringfieldPathByFileId: the stored path, null when there is none. */
    function GetSpringfieldPathByFileId(fileId: string): (r: Option<string>)
      reads this
      ensures r.Some? <==> fileId in fileIdToSpringfieldPath
    {
      if fileId in fileIdToSpringfieldPath then Some(fileIdToSpringfieldPath[fileId]) else None
    }

    /** getSpringfieldFileIdsFor: the stored set, null when there is none. */
    function GetSpringfieldFileIdsFor(easyDatasetId: string): (r: Option<set<string>>)
      reads this
      ensures r.Some? <==> easyDatasetId in datasetIdToSpringfieldFileIds
    {
      if easyDatasetId in datasetIdToSpringfieldFileIds then Some(datasetIdToSpringfieldFileIds[easyDatasetId]) else None
    }

    /** hasSpringfieldFiles: containsKey. */
    function HasSpringfieldFiles(easyDatasetId: string): (r: bool)
      reads this
      ensures r <==> GetSpringfieldFileIdsFor(easyDatasetId).Some?
    {
      easyDatasetId in datasetIdToSpringfieldFileIds
    }
  }

  /** What the getters of an object built from rows answer. */
  lemma Lookups(sources: Sources, rows: seq<SourceRow>, fileId: string, datasetId: string)
    requires sources.fileIdToSpringfieldPath == PathsFrom(rows)
    requires sources.datasetIdToSpringfieldFileIds == FileIdsFrom(rows)
    ensures sources.GetSpringfieldPathByFileId(fileId) ==
      match LastRowOf(rows, fileId) case None => None case Some(i) => Some(rows[i].pathInSpringfieldDir)
    ensures sources.HasSpringfieldFiles(datasetId) <==> exists i :: 0 <= i < |rows| && rows[i].easyDatasetId == datasetId
    ensures sources.GetSpringfieldFileIdsFor(datasetId) ==
      if sources.HasSpringfieldFiles(datasetId) then Some(FileIdsOf(rows, datasetId)) else None
  {
    LastRowWins(rows, fileId);
    FileIdsCollected(rows, datasetId);
  }
}
