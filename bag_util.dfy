/** BagUtil: keeping a bag's manifests and its bag-info.txt consistent after
    the payload is edited.

    A bag (RFC 8493) has one payload manifest (manifest-<alg>.txt, section
    2.1.3) and one tag manifest (tagmanifest-<alg>.txt, section 2.2.1) per
    checksum algorithm; each maps the path of a file to its checksum. The
    paths are the bag's root resolved against a file's path as written, so
    spellings that differ only in repeated or trailing '/', such as
    "data//a.txt" and "data/a.txt", are one key. Here a bag's manifests are maps from the algorithm to those entries. The
    checksums are read from the files on disk (a FileSystem parameter) by the
    Hasher, whose digest is a parameter too. */
module BagUtil {
  import opened Outcomes
  import opened Checksums
  import opened DatasetMetadata
  import opened Paths
  import opened BagMetadata

  /** A manifest algorithm: its Java name (what toString gives the Hasher)
      and its BagIt name (used in the manifest's file name). */
  datatype Algorithm = Algorithm(name: string, bagitName: string)

  /** The file-to-checksum map of one manifest. */
  type Entries = map<Path, string>

  /** The manifests of one kind (payload or tag), one per algorithm. */
  type Manifests = map<Algorithm, Entries>

  /** The name of the payload manifest file of an algorithm. */
  function ManifestFileName(a: Algorithm): string {
    "manifest-" + a.bagitName + ".txt"
  }

  /** The files of the listed paths, resolved against the bag's root. */
  function ResolvedPaths(root: Path, paths: seq<string>): set<Path> {
    set i | 0 <= i < |paths| :: ResolveText(root, paths[i])
  }

  /** The payload manifest files of the given algorithms, resolved against the bag's root. */
  function ManifestFiles(root: Path, algorithms: set<Algorithm>): set<Path> {
    set a | a in algorithms :: ResolveText(root, ManifestFileName(a))
  }

  /** Every file in keys can be hashed under the algorithm a. */
  predicate HashableUnder(files: FileSystem, keys: set<Path>, a: Algorithm, digest: Digest) {
    forall k :: k in keys ==> GetChecksum(files, k, a.name, digest).Ok?
  }

  /** Every file in keys can be hashed under every algorithm in algorithms. */
  predicate Hashable(files: FileSystem, keys: set<Path>, algorithms: set<Algorithm>, digest: Digest) {
    forall a :: a in algorithms ==> HashableUnder(files, keys, a, digest)
  }

  /** One manifest after putting a freshly computed checksum for each file in keys. */
  function Stamp(e: Entries, keys: set<Path>, a: Algorithm, files: FileSystem, digest: Digest): Entries
    requires HashableUnder(files, keys, a, digest)
  {
    map k | k in e.Keys + keys :: if k in keys then GetChecksum(files, k, a.name, digest).value else e[k]
  }

  /** Every manifest after putting fresh checksums for the files in keys. */
  function StampAll(ms: Manifests, keys: set<Path>, files: FileSystem, digest: Digest): Manifests
    requires Hashable(files, keys, ms.Keys, digest)
  {
    map a | a in ms :: Stamp(ms[a], keys, a, files, digest)
  }

  /** Every manifest after removing the entry for key. */
  function WithoutKey(ms: Manifests, key: Path): Manifests {
    map a | a in ms :: ms[a] - {key}
  }

  /** An update that stopped at a failing checksum: the same algorithms, and
      each manifest is unchanged or fully updated. */
  ghost predicate PartlyStamped(before: Manifests, after: Manifests, keys: set<Path>, files: FileSystem, digest: Digest) {
    && after.Keys == before.Keys
    && forall a :: a in before ==>
         after[a] == before[a] ||
         (HashableUnder(files, keys, a, digest) && after[a] == Stamp(before[a], keys, a, files, digest))
  }

  /** The in-memory bag: its root directory and its manifests. */
  class Bag {
    const rootDir: Path
    var payloadManifests: Manifests
    var tagManifests: Manifests

    constructor (rootDir: Path, payloadManifests: Manifests, tagManifests: Manifests)
      ensures this.rootDir == rootDir
      ensures this.payloadManifests == payloadManifests && this.tagManifests == tagManifests
    {
      this.rootDir := rootDir;
      this.payloadManifests := payloadManifests;
      this.tagManifests := tagManifests;
    }
  }

  lemma StampOneMore(e: Entries, keys: set<Path>, k: Path, a: Algorithm, files: FileSystem, digest: Digest)
    requires HashableUnder(files, keys + {k}, a, digest)
    ensures Stamp(e, keys, a, files, digest)[k := GetChecksum(files, k, a.name, digest).value]
         == Stamp(e, keys + {k}, a, files, digest)
  {
  }

  lemma StampNothing(ms: Manifests, files: FileSystem, digest: Digest)
    ensures StampAll(ms, {}, files, digest) == ms
  {
    forall a | a in ms ensures Stamp(ms[a], {}, a, files, digest) == ms[a] {
    }
  }

  lemma StampTwice(e: Entries, keys: set<Path>, more: set<Path>, a: Algorithm, files: FileSystem, digest: Digest)
    requires HashableUnder(files, keys + more, a, digest)
    ensures Stamp(Stamp(e, keys, a, files, digest), more, a, files, digest) == Stamp(e, keys + more, a, files, digest)
  {
  }

  lemma HashableSubset(files: FileSystem, keys: set<Path>, fewer: set<Path>, algorithms: set<Algorithm>, digest: Digest)
    requires Hashable(files, keys, algorithms, digest) && fewer <= keys
    ensures Hashable(files, fewer, algorithms, digest)
  {
  }

  lemma StampAllTwice(ms: Manifests, keys: set<Path>, more: set<Path>, files: FileSystem, digest: Digest)
    requires Hashable(files, keys + more, ms.Keys, digest)
    ensures Hashable(files, keys, ms.Keys, digest)
    ensures Hashable(files, more, StampAll(ms, keys, files, digest).Keys, digest)
    ensures StampAll(StampAll(ms, keys, files, digest), more, files, digest)
         == StampAll(ms, keys + more, files, digest)
  {
    HashableSubset(files, keys + more, keys, ms.Keys, digest);
    HashableSubset(files, keys + more, more, ms.Keys, digest);
    var once := StampAll(ms, keys, files, digest);
    assert once.Keys == ms.Keys;
    forall a | a in ms
      ensures Stamp(once[a], more, a, files, digest) == Stamp(ms[a], keys + more, a, files, digest)
    {
      StampTwice(ms[a], keys, more, a, files, digest);
    }
  }

  lemma ResolvedSingle(root: Path, name: string)
    ensures ResolvedPaths(root, [name]) == {ResolveText(root, name)}
  {
    assert [name][0] == name;
  }

  /** Spellings of a path that differ only in repeated or trailing '/' are
      one file: they resolve to one key, so listing both updates one entry. */
  lemma OneKeyPerFile(root: Path, a: string, b: string)
    ensures ResolvedPaths(root, [a + "/" + b, a + "//" + b]) == {ResolveText(root, a + "/" + b)}
    ensures a != "" ==> ResolvedPaths(root, [a, a + "/"]) == {ResolveText(root, a)}
  {
    RedundantSlashIgnored(a, b);
    var two := [a + "/" + b, a + "//" + b];
    assert two[0] == a + "/" + b && two[1] == a + "//" + b;
    if a != "" {
      TrailingSlashIgnored(a);
      var other := [a, a + "/"];
      assert other[0] == a && other[1] == a + "/";
    }
  }

  /** A manifest file name is a single name when the BagIt name has no '/'. */
  lemma ManifestFileNameIsName(a: Algorithm)
    requires '/' !in a.bagitName
    ensures IsName(ManifestFileName(a))
  {
    var n := ManifestFileName(a);
    assert n == "manifest-" + (a.bagitName + ".txt");
    assert '/' !in "manifest-" && '/' !in ".txt";
  }

  /** Removing a path: no manifest keeps it, every other entry stays, and a
      path in no manifest leaves the manifests as they were. */
  lemma WithoutKeyEntries(ms: Manifests, key: Path)
    ensures WithoutKey(ms, key).Keys == ms.Keys
    ensures forall a :: a in ms ==> key !in WithoutKey(ms, key)[a]
    ensures forall a, k :: a in ms && k in ms[a] && k != key ==> k in WithoutKey(ms, key)[a] && WithoutKey(ms, key)[a][k] == ms[a][k]
    ensures (forall a :: a in ms ==> key !in ms[a]) ==> WithoutKey(ms, key) == ms
  {
    if forall a :: a in ms ==> key !in ms[a] {
      forall a | a in ms ensures ms[a] - {key} == ms[a] {
      }
    }
  }

  /** A stamped manifest holds a fresh checksum for each stamped file under
      its own algorithm, and its other entries as they were. */
  lemma StampEntries(e: Entries, keys: set<Path>, a: Algorithm, files: FileSystem, digest: Digest)
    requires HashableUnder(files, keys, a, digest)
    ensures Stamp(e, keys, a, files, digest).Keys == e.Keys + keys
    ensures forall k :: k in keys ==> Stamp(e, keys, a, files, digest)[k] == digest(files[k], ToUpper(a.name))
    ensures forall k :: k in e && k !in keys ==> Stamp(e, keys, a, files, digest)[k] == e[k]
  {
    forall k | k in keys ensures Stamp(e, keys, a, files, digest)[k] == digest(files[k], ToUpper(a.name)) {
      assert GetChecksum(files, k, a.name, digest).Ok?;
    }
  }

  /** Stamping the same files twice, with their contents unchanged, is stamping them once. */
  lemma StampAllIdempotent(ms: Manifests, keys: set<Path>, files: FileSystem, digest: Digest)
    requires Hashable(files, keys, ms.Keys, digest)
    ensures Hashable(files, keys, StampAll(ms, keys, files, digest).Keys, digest)
    ensures StampAll(StampAll(ms, keys, files, digest), keys, files, digest) == StampAll(ms, keys, files, digest)
  {
    assert keys + keys == keys;
    StampAllTwice(ms, keys, keys, files, digest);
  }

  /** After recording the payload manifests in the tag manifests, every tag
      manifest has an entry for the file of every payload manifest. */
  lemma ManifestOfManifests(tags: Manifests, root: Path, payload: set<Algorithm>, files: FileSystem, digest: Digest)
    requires Hashable(files, ManifestFiles(root, payload), tags.Keys, digest)
    ensures forall t, a :: t in tags && a in payload ==>
      ResolveText(root, ManifestFileName(a)) in StampAll(tags, ManifestFiles(root, payload), files, digest)[t]
    ensures forall t, a :: t in tags && a in payload && '/' !in a.bagitName ==>
      Child(root, ManifestFileName(a)) in StampAll(tags, ManifestFiles(root, payload), files, digest)[t]
  {
    forall t, a | t in tags && a in payload
      ensures ResolveText(root, ManifestFileName(a)) in StampAll(tags, ManifestFiles(root, payload), files, digest)[t]
      ensures '/' !in a.bagitName ==> Child(root, ManifestFileName(a)) in StampAll(tags, ManifestFiles(root, payload), files, digest)[t]
    {
      StampEntries(tags[t], ManifestFiles(root, payload), t, files, digest);
      if '/' !in a.bagitName {
        ManifestFileNameIsName(a);
        ParseName(ManifestFileName(a));
      }
    }
  }

  /** removePayloadManifestEntriesForPath: drop the root resolved against
      path from every payload manifest. */
  method RemovePayloadManifestEntriesForPath(bag: Bag, path: string)
    modifies bag
    ensures bag.payloadManifests == WithoutKey(old(bag.payloadManifests), ResolveText(bag.rootDir, path))
    ensures bag.tagManifests == old(bag.tagManifests)
  {
    var key := ResolveText(bag.rootDir, path);
    var todo := bag.payloadManifests.Keys;
    while todo != {}
      invariant todo <= bag.payloadManifests.Keys == old(bag.payloadManifests).Keys
      invariant forall a :: a in bag.payloadManifests ==>
        bag.payloadManifests[a] == if a in todo then old(bag.payloadManifests)[a] else old(bag.payloadManifests)[a] - {key}
      invariant bag.tagManifests == old(bag.tagManifests)
      decreases todo
    {
      var a :| a in todo;
      bag.payloadManifests := bag.payloadManifests[a := bag.payloadManifests[a] - {key}];
      todo := todo - {a};
    }
  }

  /** The manifests with those of the algorithms in done stamped, and the
      others as they were: the state of a loop over the algorithms. */
  function StampSome(ms: Manifests, done: set<Algorithm>, keys: set<Path>, files: FileSystem, digest: Digest): (r: Manifests)
    requires Hashable(files, keys, done, digest)
    ensures r.Keys == ms.Keys
  {
    map a | a in ms :: if a in done then Stamp(ms[a], keys, a, files, digest) else ms[a]
  }

  lemma StampSomeNone(ms: Manifests, keys: set<Path>, files: FileSystem, digest: Digest)
    ensures StampSome(ms, {}, keys, files, digest) == ms
  {
  }

  lemma StampSomeAll(ms: Manifests, keys: set<Path>, files: FileSystem, digest: Digest)
    requires Hashable(files, keys, ms.Keys, digest)
    ensures StampSome(ms, ms.Keys, keys, files, digest) == StampAll(ms, keys, files, digest)
  {
  }

  lemma StampSomeStep(ms: Manifests, done: set<Algorithm>, a: Algorithm, keys: set<Path>, files: FileSystem, digest: Digest)
    requires a in ms && Hashable(files, keys, done, digest) && HashableUnder(files, keys, a, digest)
    ensures Hashable(files, keys, done + {a}, digest)
    ensures StampSome(ms, done, keys, files, digest)[a := Stamp(ms[a], keys, a, files, digest)]
         == StampSome(ms, done + {a}, keys, files, digest)
  {
  }

  lemma StampSomePartly(ms: Manifests, done: set<Algorithm>, keys: set<Path>, files: FileSystem, digest: Digest)
    requires Hashable(files, keys, done, digest)
    ensures PartlyStamped(ms, StampSome(ms, done, keys, files, digest), keys, files, digest)
  {
  }

  lemma StampSingle(e: Entries, key: Path, a: Algorithm, files: FileSystem, digest: Digest)
    requires HashableUnder(files, {key}, a, digest)
    ensures e[key := GetChecksum(files, key, a.name, digest).value] == Stamp(e, {key}, a, files, digest)
  {
  }

  /** updatePayloadManifestsForPath: put the checksum of the file at the root
      resolved against path into every payload manifest, under that
      manifest's algorithm. */
  method UpdatePayloadManifestsForPath(bag: Bag, path: string, files: FileSystem, digest: Digest) returns (r: Outcome)
    modifies bag
    ensures var key := ResolveText(bag.rootDir, path);
      r.Pass? <==> Hashable(files, {key}, old(bag.payloadManifests).Keys, digest)
    ensures r.Pass? ==>
      bag.payloadManifests == StampAll(old(bag.payloadManifests), {ResolveText(bag.rootDir, path)}, files, digest)
    ensures r.Fail? ==>
      && PartlyStamped(old(bag.payloadManifests), bag.payloadManifests, {ResolveText(bag.rootDir, path)}, files, digest)
      && exists a :: a in old(bag.payloadManifests) &&
           GetChecksum(files, ResolveText(bag.rootDir, path), a.name, digest) == Err(r.error)
    ensures bag.tagManifests == old(bag.tagManifests)
  {
    var key := ResolveText(bag.rootDir, path);
    ghost var start := bag.payloadManifests;
    var todo := bag.payloadManifests.Keys;
    StampSomeNone(start, {key}, files, digest);
    assert start.Keys - todo == {};
    while todo != {}
      invariant todo <= start.Keys
      invariant Hashable(files, {key}, start.Keys - todo, digest)
      invariant bag.payloadManifests == StampSome(start, start.Keys - todo, {key}, files, digest)
      invariant bag.tagManifests == old(bag.tagManifests)
      decreases todo
    {
      var a :| a in todo;
      ghost var done := start.Keys - todo;
      var checksum := GetChecksum(files, key, a.name, digest);
      if checksum.Err? {
        StampSomePartly(start, done, {key}, files, digest);
        return Fail(checksum.error);
      }
      assert bag.payloadManifests[a] == start[a];
      StampSingle(start[a], key, a, files, digest);
      StampSomeStep(start, done, a, {key}, files, digest);
      bag.payloadManifests := bag.payloadManifests[a := bag.payloadManifests[a][key := checksum.value]];
      todo := todo - {a};
      assert start.Keys - todo == done + {a};
    }
    assert start.Keys - todo == start.Keys;
    StampSomeAll(start, {key}, files, digest);
    return Pass;
  }

  /** The inner loop of updateTagManifestsForPaths: put the checksum of the
      root resolved against each p, in order, into the entries of one
      manifest; a failing checksum stops it with the entries put so far. */
  method HashInto(e: Entries, root: Path, paths: seq<string>, a: Algorithm, files: FileSystem, digest: Digest)
    returns (r: Outcome, entries: Entries)
    ensures r.Pass? <==> HashableUnder(files, ResolvedPaths(root, paths), a, digest)
    ensures r.Pass? ==> entries == Stamp(e, ResolvedPaths(root, paths), a, files, digest)
    ensures r.Fail? ==>
      exists j :: 0 <= j < |paths| &&
        HashableUnder(files, ResolvedPaths(root, paths[..j]), a, digest) &&
        entries == Stamp(e, ResolvedPaths(root, paths[..j]), a, files, digest) &&
        GetChecksum(files, ResolveText(root, paths[j]), a.name, digest) == Err(r.error)
  {
    entries := e;
    var j := 0;
    while j < |paths|
      invariant 0 <= j <= |paths|
      invariant HashableUnder(files, ResolvedPaths(root, paths[..j]), a, digest)
      invariant entries == Stamp(e, ResolvedPaths(root, paths[..j]), a, files, digest)
    {
      var key := ResolveText(root, paths[j]);
      var checksum := GetChecksum(files, key, a.name, digest);
      if checksum.Err? {
        assert key in ResolvedPaths(root, paths);
        return Fail(checksum.error), entries;
      }
      assert ResolvedPaths(root, paths[..j + 1]) == ResolvedPaths(root, paths[..j]) + {key} by {
        assert paths[..j + 1] == paths[..j] + [paths[j]];
      }
      StampOneMore(e, ResolvedPaths(root, paths[..j]), key, a, files, digest);
      entries := entries[key := checksum.value];
      j := j + 1;
    }
    assert paths[..j] == paths;
    return Pass, entries;
  }

  /** updateTagManifestsForPaths: put the checksum of the root resolved
      against each p into every tag manifest, under that manifest's algorithm. */
  method UpdateTagManifestsForPaths(bag: Bag, paths: seq<string>, files: FileSystem, digest: Digest) returns (r: Outcome)
    modifies bag
    ensures var keys := ResolvedPaths(bag.rootDir, paths);
      r.Pass? <==> Hashable(files, keys, old(bag.tagManifests).Keys, digest)
    ensures r.Pass? ==>
      bag.tagManifests == StampAll(old(bag.tagManifests), ResolvedPaths(bag.rootDir, paths), files, digest)
    ensures r.Fail? ==>
      && bag.tagManifests.Keys == old(bag.tagManifests).Keys
      && exists a, i :: a in old(bag.tagManifests) && 0 <= i < |paths| &&
           GetChecksum(files, ResolveText(bag.rootDir, paths[i]), a.name, digest) == Err(r.error)
    ensures bag.payloadManifests == old(bag.payloadManifests)
  {
    var root := bag.rootDir;
    var keys := ResolvedPaths(root, paths);
    ghost var start := bag.tagManifests;
    var todo := bag.tagManifests.Keys;
    StampSomeNone(start, keys, files, digest);
    assert start.Keys - todo == {};
    while todo != {}
      invariant todo <= start.Keys
      invariant Hashable(files, keys, start.Keys - todo, digest)
      invariant bag.tagManifests == StampSome(start, start.Keys - todo, keys, files, digest)
      invariant bag.payloadManifests == old(bag.payloadManifests)
      decreases todo
    {
      var a :| a in todo;
      ghost var done := start.Keys - todo;
      assert bag.tagManifests[a] == start[a];
      var outcome, entries := HashInto(bag.tagManifests[a], root, paths, a, files, digest);
      if outcome.Fail? {
        bag.tagManifests := bag.tagManifests[a := entries];
        return Fail(outcome.error);
      }
      StampSomeStep(start, done, a, keys, files, digest);
      bag.tagManifests := bag.tagManifests[a := entries];
      todo := todo - {a};
      assert start.Keys - todo == done + {a};
    }
    assert start.Keys - todo == start.Keys;
    StampSomeAll(start, keys, files, digest);
    return Pass;
  }

  /** updatePayloadManifestChecksumsInTagManifests: record the checksum of every
      payload manifest file in every tag manifest (the manifest of manifests). */
  method UpdatePayloadManifestChecksumsInTagManifests(bag: Bag, files: FileSystem, digest: Digest) returns (r: Outcome)
    modifies bag
    ensures var keys := ManifestFiles(bag.rootDir, old(bag.payloadManifests).Keys);
      r.Pass? <==> Hashable(files, keys, old(bag.tagManifests).Keys, digest)
    ensures r.Pass? ==>
      bag.tagManifests ==
        StampAll(old(bag.tagManifests), ManifestFiles(bag.rootDir, old(bag.payloadManifests).Keys), files, digest)
    ensures r.Fail? ==> bag.tagManifests.Keys == old(bag.tagManifests).Keys
    ensures bag.payloadManifests == old(bag.payloadManifests)
  {
    var root := bag.rootDir;
    var todo := bag.payloadManifests.Keys;
    assert bag.payloadManifests.Keys - todo == {};
    assert ManifestFiles(root, {}) == {};
    StampNothing(bag.tagManifests, files, digest);
    while todo != {}
      invariant todo <= bag.payloadManifests.Keys
      invariant bag.payloadManifests == old(bag.payloadManifests)
      invariant bag.tagManifests.Keys == old(bag.tagManifests).Keys
      invariant Hashable(files, ManifestFiles(root, bag.payloadManifests.Keys - todo), old(bag.tagManifests).Keys, digest)
      invariant bag.tagManifests ==
        StampAll(old(bag.tagManifests), ManifestFiles(root, bag.payloadManifests.Keys - todo), files, digest)
      decreases todo
    {
      var a :| a in todo;
      ghost var before := bag.tagManifests;
      var name := ManifestFileName(a);
      ResolvedSingle(root, name);
      r := UpdateTagManifestsForPaths(bag, [name], files, digest);
      if r.Fail? {
        assert ResolveText(root, name) in ManifestFiles(root, old(bag.payloadManifests).Keys);
        return;
      }
      assert ManifestFiles(root, bag.payloadManifests.Keys - (todo - {a}))
          == ManifestFiles(root, bag.payloadManifests.Keys - todo) + {ResolveText(root, name)};
      StampAllTwice(old(bag.tagManifests), ManifestFiles(root, bag.payloadManifests.Keys - todo),
                    {ResolveText(root, name)}, files, digest);
      todo := todo - {a};
    }
    assert bag.payloadManifests.Keys - todo == old(bag.payloadManifests).Keys;
    return Pass;
  }

  // ---------------------------------------------------------------------
  // updateBagVersion: bag-info.txt of a new version of a bag

  const IsVersionOf: string := "Is-Version-Of"
  const CreatedKey: string := "Created"
  const BaseUrn: string := "Base-URN"
  const BaseDoi: string := "Base-DOI"
  const IdTypePrefix: string := "id-type:"

  /** String.replace(pat, ""): every occurrence of pat, scanning left to
      right without overlap, is removed. */
  function RemoveAll(s: string, pat: string): string
    requires pat != ""
    decreases |s|
  {
    if |s| < |pat| then s
    else if s[..|pat|] == pat then RemoveAll(s[|pat|..], pat)
    else [s[0]] + RemoveAll(s[1..], pat)
  }

  lemma RemoveAllLeading(pat: string, s: string)
    requires pat != ""
    ensures RemoveAll(pat + s, pat) == RemoveAll(s, pat)
  {
    assert (pat + s)[..|pat|] == pat;
    assert (pat + s)[|pat|..] == s;
  }

  /** A string without some character of pat has no occurrence to remove. */
  lemma {:induction false} RemoveAllAbsent(s: string, pat: string, c: char)
    requires pat != "" && c in pat && c !in s
    ensures RemoveAll(s, pat) == s
    decreases |s|
  {
    if |s| >= |pat| {
      assert s[..|pat|] != pat by {
        var k :| 0 <= k < |pat| && pat[k] == c;
        assert s[..|pat|][k] == s[k];
      }
      assert s == [s[0]] + s[1..];
      RemoveAllAbsent(s[1..], pat, c);
    }
  }

  /** The identifier type left once "id-type:" is removed from xsi:type. */
  function IdType(xsiType: string): string {
    RemoveAll(xsiType, IdTypePrefix)
  }

  /** "id-type:DOI" and a bare "DOI" both have type DOI (and alike for URN). */
  lemma IdTypeOfPrefixed(t: string)
    requires ':' !in t
    ensures IdType(IdTypePrefix + t) == t
    ensures IdType(t) == t
  {
    RemoveAllLeading(IdTypePrefix, t);
    RemoveAllAbsent(t, IdTypePrefix, ':');
  }

  /** The bag-info key that an identifier of this xsi:type sets, if any:
      "Base-" followed by its type when that is DOI or URN. */
  function BaseIdKey(xsiType: string): (r: Option<string>)
    ensures r == Some(BaseDoi) <==> IdType(xsiType) == "DOI"
    ensures r == Some(BaseUrn) <==> IdType(xsiType) == "URN"
    ensures r.None? <==> IdType(xsiType) != "DOI" && IdType(xsiType) != "URN"
  {
    var t := IdType(xsiType);
    if t == "DOI" then Some(BaseDoi) else if t == "URN" then Some(BaseUrn) else None
  }

  /** Only Base-DOI and Base-URN are ever set by an identifier. */
  lemma {:induction false} NoIdentifierSets(ids: seq<Identifier>, key: string)
    requires key != BaseDoi && key != BaseUrn
    ensures LastFor(ids, key).None?
    decreases |ids|
  {
    if ids != [] {
      NoIdentifierSets(ids[..|ids| - 1], key);
    }
  }

  /** The pairs after the loop over the identifier elements: each DOI or URN
      identifier replaces the pairs of its Base- key by one with its text. */
  function ApplyIdentifiers(ps: seq<Pair>, ids: seq<Identifier>): seq<Pair>
    decreases |ids|
  {
    if ids == [] then ps
    else
      var before := ApplyIdentifiers(ps, ids[..|ids| - 1]);
      var last := ids[|ids| - 1];
      match BaseIdKey(last.xsiType)
      case None => before
      case Some(k) => Drop(before, k) + [Pair(k, last.text)]
  }

  /** The index of the last identifier whose type sets key, if any. */
  function LastFor(ids: seq<Identifier>, key: string): (r: Option<nat>)
    ensures r.None? <==> forall i :: 0 <= i < |ids| ==> BaseIdKey(ids[i].xsiType) != Some(key)
    ensures r.Some? ==> r.value < |ids| && BaseIdKey(ids[r.value].xsiType) == Some(key)
    ensures r.Some? ==> forall j :: r.value < j < |ids| ==> BaseIdKey(ids[j].xsiType) != Some(key)
    decreases |ids|
  {
    if ids == [] then None
    else if BaseIdKey(ids[|ids| - 1].xsiType) == Some(key) then Some(|ids| - 1)
    else LastFor(ids[..|ids| - 1], key)
  }

  /** The values of every key after the identifier loop: a Base- key holds
      only the last matching identifier's text when there is one; no other
      key changes. */
  lemma {:induction false} ApplyIdentifiersValues(ps: seq<Pair>, ids: seq<Identifier>, key: string)
    ensures ValuesOf(ApplyIdentifiers(ps, ids), key) ==
      match LastFor(ids, key) case None => ValuesOf(ps, key) case Some(i) => [ids[i].text]
    decreases |ids|
  {
    if ids != [] {
      var before := ApplyIdentifiers(ps, ids[..|ids| - 1]);
      ApplyIdentifiersValues(ps, ids[..|ids| - 1], key);
      var last := ids[|ids| - 1];
      match BaseIdKey(last.xsiType)
      case None =>
      case Some(k) =>
        Replaced(before, k, last.text, key);
    }
  }

  /** The pairs without the old version pairs, with the new ones appended. */
  function StampVersion(ps: seq<Pair>, previousParent: Path, now: string): seq<Pair> {
    Drop(Drop(ps, IsVersionOf), CreatedKey)
      + [Pair(IsVersionOf, "urn:uuid:" + FileNameText(previousParent)), Pair(CreatedKey, now)]
  }

  /** The rewritten bag-info pairs. previousBagDir without a parent and a
      dataset.xml without a dcmiMetadata element (dcmi == None) make Java
      throw a NullPointerException; ids are the dct:identifier elements of
      dcmiMetadata in document order. */
  function UpdatedBagInfo(ps: seq<Pair>, previousBagDir: Path, now: string, dcmi: Option<seq<Identifier>>): Result<seq<Pair>> {
    match Parent(previousBagDir)
    case None => Err(NullPointer)
    case Some(parent) =>
      var stamped := StampVersion(ps, parent, now);
      if ValuesOf(stamped, BaseUrn) == [] || ValuesOf(stamped, BaseDoi) == [] then
        match dcmi
        case None => Err(NullPointer)
        case Some(ids) => Ok(ApplyIdentifiers(stamped, ids))
      else Ok(stamped)
  }

  lemma StampVersionValues(ps: seq<Pair>, previousParent: Path, now: string, key: string)
    ensures ValuesOf(StampVersion(ps, previousParent, now), key) ==
      if key == IsVersionOf then ["urn:uuid:" + FileNameText(previousParent)]
      else if key == CreatedKey then [now]
      else ValuesOf(ps, key)
  {
    var dropped := Drop(ps, IsVersionOf);
    var rest := Drop(dropped, CreatedKey);
    var version := Pair(IsVersionOf, "urn:uuid:" + FileNameText(previousParent));
    var created := Pair(CreatedKey, now);
    assert StampVersion(ps, previousParent, now) == rest + [version] + [created];
    ValuesOfAppend(rest + [version], created, key);
    ValuesOfAppend(rest, version, key);
    ValuesOfDrop(dropped, CreatedKey, key);
    ValuesOfDrop(ps, IsVersionOf, key);
    assert IsVersionOf != CreatedKey by {
      assert IsVersionOf[0] != CreatedKey[0];
    }
    if key == IsVersionOf {
      assert ValuesOf(rest, key) == [];
    } else if key == CreatedKey {
      assert ValuesOf(rest, key) == [];
    } else {
      assert ValuesOf(rest, key) == ValuesOf(ps, key);
    }
  }

  /** The rewrite fails exactly when previousBagDir has no parent, or when
      the Base- identifiers must be recomputed and there is no dcmiMetadata. */
  lemma UpdatedBagInfoFails(ps: seq<Pair>, previousBagDir: Path, now: string, dcmi: Option<seq<Identifier>>)
    ensures UpdatedBagInfo(ps, previousBagDir, now, dcmi).Err? <==>
      Parent(previousBagDir).None? ||
      ((ValuesOf(ps, BaseUrn) == [] || ValuesOf(ps, BaseDoi) == []) && dcmi.None?)
    ensures UpdatedBagInfo(ps, previousBagDir, now, dcmi).Err? ==>
      UpdatedBagInfo(ps, previousBagDir, now, dcmi).error == NullPointer
  {
    if parent :| Parent(previousBagDir) == Some(parent) {
      StampVersionValues(ps, parent, now, BaseUrn);
      StampVersionValues(ps, parent, now, BaseDoi);
    }
  }

  /** Exactly one Is-Version-Of pair, naming the previous bag's parent
      directory, and exactly one Created pair, holding now. */
  lemma OneVersionPair(ps: seq<Pair>, previousBagDir: Path, now: string, dcmi: Option<seq<Identifier>>)
    requires UpdatedBagInfo(ps, previousBagDir, now, dcmi).Ok?
    ensures var r := UpdatedBagInfo(ps, previousBagDir, now, dcmi).value;
      && ValuesOf(r, IsVersionOf) == ["urn:uuid:" + FileNameText(Parent(previousBagDir).value)]
      && ValuesOf(r, CreatedKey) == [now]
  {
    var parent := Parent(previousBagDir).value;
    var stamped := StampVersion(ps, parent, now);
    StampVersionValues(ps, parent, now, IsVersionOf);
    StampVersionValues(ps, parent, now, CreatedKey);
    if ValuesOf(stamped, BaseUrn) == [] || ValuesOf(stamped, BaseDoi) == [] {
      var ids := dcmi.value;
      ApplyIdentifiersValues(stamped, ids, IsVersionOf);
      ApplyIdentifiersValues(stamped, ids, CreatedKey);
      NoIdentifierSets(ids, IsVersionOf);
      NoIdentifierSets(ids, CreatedKey);
    }
  }

  /** With both Base-URN and Base-DOI present the identifiers are not read:
      the other pairs keep their order and the two version pairs come last. */
  lemma BaseIdsKept(ps: seq<Pair>, previousBagDir: Path, now: string, dcmi: Option<seq<Identifier>>)
    requires Parent(previousBagDir).Some?
    requires ValuesOf(ps, BaseUrn) != [] && ValuesOf(ps, BaseDoi) != []
    ensures UpdatedBagInfo(ps, previousBagDir, now, dcmi) ==
      Ok(Drop(Drop(ps, IsVersionOf), CreatedKey)
         + [Pair(IsVersionOf, "urn:uuid:" + FileNameText(Parent(previousBagDir).value)), Pair(CreatedKey, now)])
    ensures forall key :: key != IsVersionOf && key != CreatedKey ==>
      ValuesOf(UpdatedBagInfo(ps, previousBagDir, now, dcmi).value, key) == ValuesOf(ps, key)
  {
    var parent := Parent(previousBagDir).value;
    StampVersionValues(ps, parent, now, BaseUrn);
    StampVersionValues(ps, parent, now, BaseDoi);
    forall key | key != IsVersionOf && key != CreatedKey
      ensures ValuesOf(StampVersion(ps, parent, now), key) == ValuesOf(ps, key)
    {
      StampVersionValues(ps, parent, now, key);
    }
  }

  /** With Base-URN or Base-DOI missing, each of them ends up holding the text
      of the last identifier of its type, or its old values when there is
      none; keys other than those two and the version pairs are kept. */
  lemma BaseIdsRecomputed(ps: seq<Pair>, previousBagDir: Path, now: string, ids: seq<Identifier>, key: string)
    requires Parent(previousBagDir).Some?
    requires ValuesOf(ps, BaseUrn) == [] || ValuesOf(ps, BaseDoi) == []
    requires key != IsVersionOf && key != CreatedKey
    ensures UpdatedBagInfo(ps, previousBagDir, now, Some(ids)).Ok?
    ensures ValuesOf(UpdatedBagInfo(ps, previousBagDir, now, Some(ids)).value, key) ==
      if key == BaseDoi || key == BaseUrn then
        match LastFor(ids, key) case None => ValuesOf(ps, key) case Some(i) => [ids[i].text]
      else ValuesOf(ps, key)
  {
    var parent := Parent(previousBagDir).value;
    var stamped := StampVersion(ps, parent, now);
    StampVersionValues(ps, parent, now, BaseUrn);
    StampVersionValues(ps, parent, now, BaseDoi);
    StampVersionValues(ps, parent, now, key);
    ApplyIdentifiersValues(stamped, ids, key);
    if key != BaseDoi && key != BaseUrn {
      NoIdentifierSets(ids, key);
    }
  }

  /** The loop of updateBagVersion over the dct:identifier elements. */
  method ApplyIdentifierElements(bagInfo: Metadata, ids: seq<Identifier>)
    modifies bagInfo
    ensures bagInfo.pairs == ApplyIdentifiers(old(bagInfo.pairs), ids)
  {
    ghost var start := bagInfo.pairs;
    var i := 0;
    while i < |ids|
      invariant 0 <= i <= |ids|
      invariant bagInfo.pairs == ApplyIdentifiers(start, ids[..i])
    {
      assert ids[..i + 1][..i] == ids[..i];
      var idType := IdType(ids[i].xsiType);
      if idType == "DOI" || idType == "URN" {
        var key := "Base-" + idType;
        assert Some(key) == BaseIdKey(ids[i].xsiType) by {
          if idType == "DOI" {
            assert key == "Base-" + "DOI" == BaseDoi;
          } else {
            assert key == "Base-" + "URN" == BaseUrn;
          }
        }
        bagInfo.Remove(key);
        bagInfo.Add(key, ids[i].text);
      }
      i := i + 1;
    }
    assert ids[..|ids|] == ids;
  }

  /** updateBagVersion on the bag-info of the new bag. previousBagDir stands
      for the previous bag's directory, now for the formatted clock, dcmi for
      the identifiers read from the new bag's metadata/dataset.xml. */
  method UpdateBagVersion(bagInfo: Metadata, previousBagDir: Path, now: string, dcmi: Option<seq<Identifier>>)
    returns (r: Outcome)
    modifies bagInfo
    ensures match UpdatedBagInfo(old(bagInfo.pairs), previousBagDir, now, dcmi)
      case Ok(ps) => r == Pass && bagInfo.pairs == ps
      case Err(e) => r == Fail(e)
  {
    ghost var start := bagInfo.pairs;
    bagInfo.Remove(IsVersionOf);
    bagInfo.Remove(CreatedKey);
    var parent := Parent(previousBagDir);
    if parent.None? {
      return Fail(NullPointer);
    }
    var urn := "urn:uuid:" + FileNameText(parent.value);
    bagInfo.Add(IsVersionOf, urn);
    bagInfo.Add(CreatedKey, now);
    assert bagInfo.pairs == StampVersion(start, parent.value, now) by {
      assert bagInfo.pairs == Drop(Drop(start, IsVersionOf), CreatedKey) + [Pair(IsVersionOf, urn)] + [Pair(CreatedKey, now)];
    }
    if bagInfo.Get(BaseUrn) == [] || bagInfo.Get(BaseDoi) == [] {
      if dcmi.None? {
        return Fail(NullPointer);
      }
      ApplyIdentifierElements(bagInfo, dcmi.value);
    }
    return Pass;
  }
}
