# easy-convert-av-exports: the bookkeeping core, verified

easy-convert-av-exports converts the audio/video datasets that EASY
exported from Fedora. Each export is a set of BagIt bags (RFC 8493). In a
bag, zero-length placeholder files stand in for the real Springfield
media, and converting a dataset means replacing them with the real files.
Then the bag's integrity structures have to stay consistent:
- the payload and tag manifests;
- the per-file records in `metadata/files.xml`;
- the version lineage in `bag-info.txt`.

The conversion pipeline itself is only a stub in the sources. This project
models the components it is built from, one Dafny module per Java class:

| Dafny module (file) | Java class | what it does |
|---|---|---|
| `FilesIndex` (files_index.dfy) | `FilesXml` | an ordered list of `<file>` records (id, filepath) with lookup, path update and removal |
| `BagUtil` (bag_util.dfy) | `BagUtil` | payload and tag manifest maintenance, and the `bag-info.txt` rewrite of `updateBagVersion` |
| `BagMetadata` (bag_metadata.dfy) | bagit's `Metadata` | the ordered key/value list of `bag-info.txt`, as `updateBagVersion` uses it |
| `Checksums` (checksums.dfy) | `Hasher` | the checksum of a file under a case-insensitively named algorithm |
| `Exports` (fedora_exports.dfy) | `FedoraExports` | bag parents grouped by the dataset id in their `dataset.xml` |
| `DatasetsIndex` (datasets.dfy) | `Datasets` | the older copy of that grouping, as written |
| `SourcesCsv` (sources.dfy) | `Sources` | `sources.csv` folded into a file-id → path map and a dataset-id → file-ids map |
| `SubtitleFiles` (subtitles.dfy) | `Subtitles` | the `.srt`/`.vtt` files next to a Springfield file, keyed by language |
| `DatasetMetadata` (dataset_xml.dfy) | `DatasetXml` | the exactly-one selection of the EASY2 dataset id |
| `Namespaces` (namespaces.dfy) | `XmlNamespacesContext` | the fixed prefix → namespace table with forward and reverse lookups |
| `Paths` (paths.dfy) | `java.nio.file.Path` | a string parsed into a root and its name elements, `toString`, `resolve`, `getParent` and `getFileName`, as these classes use them |
| `Outcomes` (outcomes.dfy) | — | `Option` (Java's null), `Result`/`Outcome` and the exceptions with their messages |

How the model is built:
- Classes whose fields the Java code updates in place are Dafny classes:
  `FilesXml`, `Bag`, `Metadata`, `FedoraExports`, `Datasets`, `Sources`
  and `Subtitles`. `XmlNamespacesContext` is a class too, but its table is
  a constant that no method changes.
- Their loops are `while` loops. A loop over a list keeps its state equal
  to a recursive specification function of the prefix processed so far;
  a search loop keeps that nothing before the current position matches.
  A loop over the manifests of a bag, which are a set, keeps the
  manifests already handled updated and the others as they were
  (`BagUtil.StampSome`). The loops of `GetPrefix` and `GetPrefixes` run
  over the set of prefixes: no prefix scanned so far without a result is
  bound to the namespace, and the prefixes collected are exactly the
  scanned ones bound to it, each once.
- The lemmas state the promised properties about those functions.
- Exceptions are `Err`/`Fail` values that carry the exception class, and
  its exact message where the code writes one; `null` is `None`.
- The file system, directory listings, parsed XML and CSV, the checksum
  digest and the clock are parameters.
- Paths are `Paths.Path` values: a root flag and the non-empty name
  elements. A string is parsed as `java.nio` parses it, so repeated and
  trailing `/` are dropped, and spellings that differ only in those are
  one manifest key. `a/../b` and `b` stay two keys, in Java as here. As in `java.nio`, `.` and `..` are kept as names.

Where the code does something a reader might not expect, the model follows
the code:
- `updateBagVersion` derives the identifier type with
  `xsi:type.replace("id-type:", "")`. A bare `DOI` or `URN` xsi:type is
  therefore accepted too (`BagUtil.IdTypeOfPrefixed`).
- `findDatasetId` wraps every failure of `DatasetXml`, including "No
  datasetId" and "Multiple datasetIds", into one `RuntimeException` that
  names the bag directory.
- `isEmpty(bagInfo.get(k))` holds exactly when no pair has key `k`.
- `Datasets` never appends to its lists (see Findings).

## Model

| member | source | states |
|---|---|---|
| Paths.Parent | src/main/java/nl/knaw/dans/avexports/core/Subtitles.java:34 | getParent is null exactly for the root, a one-name relative path and the empty path; otherwise it is the path without its last name |
| Paths.ParsePath | src/main/java/nl/knaw/dans/avexports/core/BagUtil.java:87 | a parsed path is absolute exactly when the string starts with '/', and all its names are non-empty and free of '/' |
| Paths.PathText | src/main/java/nl/knaw/dans/avexports/core/FedoraExports.java:86 | specified by Paths.ParseText: the text, parsed again, is the path it was printed from |
| Paths.ResolveText | src/main/java/nl/knaw/dans/avexports/core/BagUtil.java:87 | the string is parsed and then resolved, as stated by Paths.ParsePath and Paths.Resolve |
| Paths.ParseText | src/main/java/nl/knaw/dans/avexports/core/FedoraExports.java:86 | printing a path and parsing the text gives the same path back |
| Paths.RedundantSlashIgnored | src/main/java/nl/knaw/dans/avexports/core/BagUtil.java:87 | a doubled '/' in a string denotes the same path as a single one |
| Paths.TrailingSlashIgnored | src/main/java/nl/knaw/dans/avexports/core/BagUtil.java:87 | a trailing '/' after a non-empty string denotes the same path |
| Paths.ParseName | src/main/java/nl/knaw/dans/avexports/core/BagUtil.java:126 | a single name parses to the one-name relative path |
| Paths.Resolve | src/main/java/nl/knaw/dans/avexports/core/BagUtil.java:87 | resolve returns an absolute other as it is; otherwise the names of other follow those of the directory under the directory's root, so an empty other gives the directory and an empty directory gives other |
| Paths.FileName | src/main/java/nl/knaw/dans/avexports/core/BagUtil.java:145 | getFileName is null exactly for the root, the empty path for the empty path, and otherwise the last name |
| Paths.Child | src/main/java/nl/knaw/dans/avexports/core/Subtitles.java:36-41 | a listed entry's path has the entry's name as file name and the listed directory as parent |
| Checksums.ToUpper | src/main/java/nl/knaw/dans/avexports/core/Hasher.java:33 | upper-casing keeps the length and maps every character to its ASCII upper case |
| Checksums.ToUpperIdempotent | src/main/java/nl/knaw/dans/avexports/core/Hasher.java:33 | upper-casing twice is upper-casing once |
| Checksums.GetChecksum | src/main/java/nl/knaw/dans/avexports/core/Hasher.java:30-49 | specified by Checksums.ChecksumIgnoresCase: the digest of the file's bytes under the upper-cased name when the file is readable and the name supported; "Error reading file for checksum calculation" for an unreadable file, checked first; "Unsupported algorithm: <name>" otherwise |
| Checksums.ChecksumIgnoresCase | src/main/java/nl/knaw/dans/avexports/core/Hasher.java:30-49 | a checksum is computed exactly when the file is readable and the name is MD5, SHA1, SHA256 or SHA512 in any case; a name and its upper case give the same checksum; an unreadable file fails with "Error reading file for checksum calculation" whatever the algorithm |
| BagMetadata.ValuesOfEmpty | src/main/java/nl/knaw/dans/avexports/core/BagUtil.java:147 | get(k) is empty exactly when no pair of bag-info has key k |
| BagMetadata.DropMembers | src/main/java/nl/knaw/dans/avexports/core/BagUtil.java:143-144 | remove(k) keeps exactly the pairs with other keys and never adds one |
| BagMetadata.ValuesOfAppend | src/main/java/nl/knaw/dans/avexports/core/BagUtil.java:145-146 | add(k, v) adds v at the end of k's values and changes no other key's values |
| BagMetadata.ValuesOfDrop | src/main/java/nl/knaw/dans/avexports/core/BagUtil.java:143-144 | after remove(k), k has no values and every other key has its old values |
| BagMetadata.Replaced | src/main/java/nl/knaw/dans/avexports/core/BagUtil.java:158-159 | remove(k) then add(k, v) leaves v as k's only value and every other key's values as they were |
| BagMetadata.Metadata.Get | src/main/java/nl/knaw/dans/avexports/core/BagUtil.java:147 | the values of a key are empty exactly when no pair has that key |
| BagMetadata.Metadata.Remove | src/main/java/nl/knaw/dans/avexports/core/BagUtil.java:143 | every pair with the key is dropped and the others keep their order |
| BagMetadata.Metadata.Add | src/main/java/nl/knaw/dans/avexports/core/BagUtil.java:145 | the new pair is appended after all existing pairs |
| DatasetMetadata.Easy2Texts | src/main/java/nl/knaw/dans/avexports/core/DatasetXml.java:45 | the selected texts are empty exactly when no identifier has xsi:type id-type:EASY2, have two or more exactly when two identifiers have it, and a single selected text belongs to an EASY2 identifier |
| DatasetMetadata.GetDatasetId | src/main/java/nl/knaw/dans/avexports/core/DatasetXml.java:44-52 | a returned id is the text of an identifier of type id-type:EASY2 |
| DatasetMetadata.GetDatasetIdCases | src/main/java/nl/knaw/dans/avexports/core/DatasetXml.java:44-52 | the selection succeeds exactly when one identifier is of type EASY2; it fails with "No datasetId found in the dataset.xml" exactly when none is, and with "Multiple datasetIds found in the dataset.xml" exactly when two or more are |
| DatasetMetadata.SingleMatchIsUnique | src/main/java/nl/knaw/dans/avexports/core/DatasetXml.java:48-51 | without two EASY2 identifiers, any EASY2 identifier is the only one |
| DatasetMetadata.OtherTypesIgnored | src/main/java/nl/knaw/dans/avexports/core/DatasetXml.java:45 | inserting an identifier of any other xsi:type anywhere leaves the result, id or error, unchanged |
| FilesIndex.FirstIndex | src/main/java/nl/knaw/dans/avexports/core/FilesXml.java:88-98 | the found position holds the id as its identifier text and no earlier record does; no position is found only when no record does, which is always the case for the empty id |
| FilesIndex.FirstIndexOfSameIds | src/main/java/nl/knaw/dans/avexports/core/FilesXml.java:91-97 | the lookup depends on the records' ids only, not on their paths |
| FilesIndex.Ids | src/main/java/nl/knaw/dans/avexports/core/FilesXml.java:50-57 | specified by FilesIndex.InIds, FilesIndex.EmptyIdNeverFound and FilesIndex.IdsConcat: the non-empty identifier texts in document order, so an id is listed exactly when some record has it |
| FilesIndex.PathFor | src/main/java/nl/knaw/dans/avexports/core/FilesXml.java:67-73 | specified by FilesIndex.PathIsFirstMatch and FilesIndex.AbsentIdFails: the filepath of the first record with the id, or the not-found error exactly when none has it |
| FilesIndex.WithPath | src/main/java/nl/knaw/dans/avexports/core/FilesXml.java:75-86 | specified by FilesIndex.SetThenGet and FilesIndex.SetKeepsOthers: only the first match's filepath changes, to the new path |
| FilesIndex.Without | src/main/java/nl/knaw/dans/avexports/core/FilesXml.java:59-65 | specified by FilesIndex.RemoveDropsFirst and FilesIndex.RemoveKeepsOthers: exactly the first match is removed and every other id keeps its path |
| FilesIndex.InIds | src/main/java/nl/knaw/dans/avexports/core/FilesXml.java:50-57 | an id is listed exactly when some record has it as a non-empty identifier text |
| FilesIndex.EmptyIdNeverFound | src/main/java/nl/knaw/dans/avexports/core/FilesXml.java:51 | an empty identifier is never listed, and the empty id is never found: get, set and remove fail with the not-found error |
| FilesIndex.AbsentIdFails | src/main/java/nl/knaw/dans/avexports/core/FilesXml.java:59-86 | get, set and remove each fail exactly when no record has the id, and then with IllegalArgumentException "No file with id <id> found in files.xml" |
| FilesIndex.PathIsFirstMatch | src/main/java/nl/knaw/dans/avexports/core/FilesXml.java:67-73 | the returned filepath is that of the first record with the id |
| FilesIndex.SetThenGet | src/main/java/nl/knaw/dans/avexports/core/FilesXml.java:75-86 | after setting the path of a present id, getting that id returns the new path |
| FilesIndex.SetKeepsOthers | src/main/java/nl/knaw/dans/avexports/core/FilesXml.java:81 | setting a path keeps the record count, the id sequence and every record except the first match, and every other id still gets its old path |
| FilesIndex.RemoveDropsFirst | src/main/java/nl/knaw/dans/avexports/core/FilesXml.java:59-65 | removing a present id drops exactly one record, the first with that id: one fewer record, the listed ids without that one occurrence in their old order, and the same multiset minus that record |
| FilesIndex.RemoveKeepsOthers | src/main/java/nl/knaw/dans/avexports/core/FilesXml.java:64 | after a removal every other id gets the path it had before |
| FilesIndex.FilesXml.constructor | src/main/java/nl/knaw/dans/avexports/core/FilesXml.java:39-42 | the object holds the records of the parsed document, in document order |
| FilesIndex.FilesXml.GetFileIds | src/main/java/nl/knaw/dans/avexports/core/FilesXml.java:50-57 | the result is the identifier texts of the records in document order, skipping records whose identifier is empty |
| FilesIndex.FilesXml.GetElementById | src/main/java/nl/knaw/dans/avexports/core/FilesXml.java:88-98 | the scan finds the first record with the id, or null when none has it |
| FilesIndex.FilesXml.GetFilepathForFileId | src/main/java/nl/knaw/dans/avexports/core/FilesXml.java:67-73 | the result is the first matching record's filepath, or the not-found error |
| FilesIndex.FilesXml.SetFilepathForFileId | src/main/java/nl/knaw/dans/avexports/core/FilesXml.java:75-86 | only the first matching record's filepath changes; on the not-found error the records are unchanged |
| FilesIndex.FilesXml.RemoveFile | src/main/java/nl/knaw/dans/avexports/core/FilesXml.java:59-65 | the first matching record is removed; on the not-found error the records are unchanged |
| BagUtil.Bag.constructor | src/main/java/nl/knaw/dans/avexports/core/BagUtil.java:55-62 | the bag holds the root directory and the manifests as read |
| BagUtil.WithoutKeyEntries | src/main/java/nl/knaw/dans/avexports/core/BagUtil.java:84-89 | afterwards no payload manifest has the removed path, every other entry is kept, the set of manifests is the same, and removing an absent path changes nothing |
| BagUtil.RemovePayloadManifestEntriesForPath | src/main/java/nl/knaw/dans/avexports/core/BagUtil.java:84-89 | the root resolved against the parsed path leaves every payload manifest and nothing else changes; the tag manifests are untouched |
| BagUtil.StampEntries | src/main/java/nl/knaw/dans/avexports/core/BagUtil.java:100 | an updated manifest maps each hashed file to the digest of its bytes under that manifest's own algorithm and keeps its other entries |
| BagUtil.UpdatePayloadManifestsForPath | src/main/java/nl/knaw/dans/avexports/core/BagUtil.java:97-102 | it succeeds exactly when the file hashes under every payload algorithm; then every payload manifest has the fresh checksum of the file at the root resolved against the path; on failure the error is that of some manifest's checksum and each manifest is either untouched or fully updated; the tag manifests never change |
| BagUtil.StampAllIdempotent | src/main/java/nl/knaw/dans/avexports/core/BagUtil.java:99-101 | updating the same paths twice with unchanged file contents equals updating them once |
| BagUtil.StampAllTwice | src/main/java/nl/knaw/dans/avexports/core/BagUtil.java:125-127 | updating one set of paths and then another equals updating their union at once |
| BagUtil.OneKeyPerFile | src/main/java/nl/knaw/dans/avexports/core/BagUtil.java:113-115 | paths that differ only in repeated or trailing '/' resolve to one manifest key, so listing both spellings updates one entry |
| BagUtil.HashInto | src/main/java/nl/knaw/dans/avexports/core/BagUtil.java:113-115 | the inner loop over the paths succeeds exactly when every listed file hashes under the manifest's algorithm, and then holds fresh checksums for them all; on a failure it stops at the first failing path with the entries of the paths before it |
| BagUtil.UpdateTagManifestsForPaths | src/main/java/nl/knaw/dans/avexports/core/BagUtil.java:110-117 | it succeeds exactly when every listed file hashes under every tag algorithm; then every tag manifest has a fresh checksum for every listed path; on failure the error is that of some listed path; the payload manifests never change |
| BagUtil.UpdatePayloadManifestChecksumsInTagManifests | src/main/java/nl/knaw/dans/avexports/core/BagUtil.java:124-128 | it succeeds exactly when every payload manifest file hashes under every tag algorithm; then every tag manifest holds fresh checksums for exactly the added manifest-&lt;alg&gt;.txt files on top of its old entries; payload manifests never change |
| BagUtil.ManifestOfManifests | src/main/java/nl/knaw/dans/avexports/core/BagUtil.java:126 | after the update every tag manifest has an entry for the root resolved against "manifest-" + bagitName + ".txt" of every payload algorithm, which is the root's child of that name when the BagIt name has no '/' |
| BagUtil.RemoveAllAbsent | src/main/java/nl/knaw/dans/avexports/core/BagUtil.java:155-156 | replace removes nothing from a string that lacks one of the pattern's characters |
| BagUtil.IdTypeOfPrefixed | src/main/java/nl/knaw/dans/avexports/core/BagUtil.java:155-156 | "id-type:T" and a bare "T" both have type T when T has no colon |
| BagUtil.BaseIdKey | src/main/java/nl/knaw/dans/avexports/core/BagUtil.java:149-158 | an identifier sets Base-DOI exactly when its type is DOI, Base-URN exactly when it is URN, and nothing otherwise |
| BagUtil.NoIdentifierSets | src/main/java/nl/knaw/dans/avexports/core/BagUtil.java:157-159 | no identifier sets a key other than Base-DOI and Base-URN |
| BagUtil.LastFor | src/main/java/nl/knaw/dans/avexports/core/BagUtil.java:153-161 | the last identifier that sets a key has that type and no later identifier sets it; none is found exactly when no identifier sets the key |
| BagUtil.ApplyIdentifiersValues | src/main/java/nl/knaw/dans/avexports/core/BagUtil.java:153-161 | after the identifier loop a key holds only the text of the last identifier that sets it, or its old values when none does |
| BagUtil.RemoveAll | src/main/java/nl/knaw/dans/avexports/core/BagUtil.java:155-156 | specified by BagUtil.RemoveAllLeading and BagUtil.RemoveAllAbsent: a leading occurrence of the pattern is removed, and a string lacking one of the pattern's characters is unchanged |
| BagUtil.IdType | src/main/java/nl/knaw/dans/avexports/core/BagUtil.java:155-156 | specified by BagUtil.IdTypeOfPrefixed: for a type T without ':', both "id-type:" + T and a bare T give T |
| BagUtil.ApplyIdentifiers | src/main/java/nl/knaw/dans/avexports/core/BagUtil.java:153-161 | specified by BagUtil.ApplyIdentifiersValues and BagUtil.NoIdentifierSets: a key ends with only the text of the last identifier that sets it (Base-DOI or Base-URN, by type), and a key that no identifier sets keeps its values |
| BagUtil.StampVersion | src/main/java/nl/knaw/dans/avexports/core/BagUtil.java:143-146 | specified by BagUtil.StampVersionValues: Is-Version-Of holds only "urn:uuid:" + the previous bag parent's name, Created only now, every other key its old values |
| BagUtil.UpdatedBagInfo | src/main/java/nl/knaw/dans/avexports/core/BagUtil.java:143-161 | specified by BagUtil.UpdatedBagInfoFails, BagUtil.OneVersionPair, BagUtil.BaseIdsKept and BagUtil.BaseIdsRecomputed: the NullPointerException cases, one version pair each, the base ids kept when both are present and recomputed from dcmiMetadata otherwise |
| BagUtil.StampVersionValues | src/main/java/nl/knaw/dans/avexports/core/BagUtil.java:143-146 | after the version stamp Is-Version-Of holds only "urn:uuid:" + the previous bag parent's name, Created holds only now, and every other key its old values |
| BagUtil.UpdatedBagInfoFails | src/main/java/nl/knaw/dans/avexports/core/BagUtil.java:145-152 | the rewrite fails, with a NullPointerException, exactly when the previous bag directory has no parent, or when Base-URN or Base-DOI is empty and dataset.xml has no dcmiMetadata |
| BagUtil.OneVersionPair | src/main/java/nl/knaw/dans/avexports/core/BagUtil.java:143-146 | a rewritten bag-info has exactly one Is-Version-Of value, "urn:uuid:" + the previous bag parent's name, and exactly one Created value, now |
| BagUtil.BaseIdsKept | src/main/java/nl/knaw/dans/avexports/core/BagUtil.java:147 | with Base-URN and Base-DOI both present the identifiers are not read: the other pairs keep their order and values and the two version pairs come last |
| BagUtil.BaseIdsRecomputed | src/main/java/nl/knaw/dans/avexports/core/BagUtil.java:147-162 | with Base-URN or Base-DOI empty, Base-DOI and Base-URN each hold only the text of the last identifier of their type (or their old values if there is none), and every other non-version key is kept |
| BagUtil.ApplyIdentifierElements | src/main/java/nl/knaw/dans/avexports/core/BagUtil.java:153-161 | the loop over the identifier elements leaves bag-info as the identifier fold specifies |
| BagUtil.UpdateBagVersion | src/main/java/nl/knaw/dans/avexports/core/BagUtil.java:136-168 | the method fails exactly when the rewrite fails, with its exception, and otherwise leaves bag-info as the rewrite specifies |
| Exports.CheckOneSubdirectory | src/main/java/nl/knaw/dans/avexports/core/FedoraExports.java:92-105 | a bag parent passes exactly when it holds one directory; more fail with "More than one dir found in ...", none with "No dirs found in ..." |
| Exports.BagDir | src/main/java/nl/knaw/dans/avexports/core/FedoraExports.java:107-114 | the bag directory is the entry named by the first directory, whose parent is the bag parent |
| Exports.FindDatasetId | src/main/java/nl/knaw/dans/avexports/core/FedoraExports.java:77-90 | specified by Exports.FindDatasetIdCases: the subdirectory check first, null exactly for a bag without dataset.xml, the EASY2 id when one is found, and otherwise "Error while reading dataset.xml in <bag dir>" |
| Exports.FindDatasetIdCases | src/main/java/nl/knaw/dans/avexports/core/FedoraExports.java:77-90 | a subdirectory error comes first; the id is null exactly when the one bag has no dataset.xml; a found id is the EASY2 selection; every other failure is "Error while reading dataset.xml in <bag dir>" |
| Exports.SubdirectoriesCheckedFirst | src/main/java/nl/knaw/dans/avexports/core/FedoraExports.java:78 | with zero or several directories the outcome does not depend on dataset.xml and is an IllegalStateException |
| Exports.Step | src/main/java/nl/knaw/dans/avexports/core/FedoraExports.java:64-71 | specified by Exports.BadBagParentFails and Exports.ThirdBagFails: a failing lookup stops with its error, a third bag parent for an id with "More than 2 bags found for dataset id <id>", and otherwise the bag parent is appended to its id's list |
| Exports.GroupFrom | src/main/java/nl/knaw/dans/avexports/core/FedoraExports.java:63-72 | specified by Exports.ErrorsFromHere and Exports.GroupContents: the forEach from a given map, whose first failure is the result |
| Exports.Group | src/main/java/nl/knaw/dans/avexports/core/FedoraExports.java:60-75 | specified by Exports.GroupContents, Exports.GroupFailsIff and Exports.GroupTotal: each id found maps to its bag parents in listing order, one or two of them, and the grouping fails exactly when a lookup fails or an id has a third bag parent |
| Exports.BagsOf | src/main/java/nl/knaw/dans/avexports/core/FedoraExports.java:63-68 | the bag parents of an id are none exactly when no bag parent has that id |
| Exports.GroupContents | src/main/java/nl/knaw/dans/avexports/core/FedoraExports.java:63-72 | on success every bag parent had an id, the keys are exactly the ids found, each list holds that id's bag parents in listing order, and has one or two elements |
| Exports.GroupSucceeds | src/main/java/nl/knaw/dans/avexports/core/FedoraExports.java:63-72 | the grouping succeeds when every bag parent has an id and no id has more than two bag parents |
| Exports.GroupFailsIff | src/main/java/nl/knaw/dans/avexports/core/FedoraExports.java:63-72 | the grouping fails exactly when some bag parent has no id or some id has more than two bag parents |
| Exports.ErrorsFromHere | src/main/java/nl/knaw/dans/avexports/core/FedoraExports.java:63-72 | the first exception of the forEach is its result |
| Exports.BadBagParentFails | src/main/java/nl/knaw/dans/avexports/core/FedoraExports.java:64 | a bag parent without an id stops the grouping with its own error |
| Exports.ThirdBagFails | src/main/java/nl/knaw/dans/avexports/core/FedoraExports.java:69-71 | a third bag parent for one id stops the grouping with IllegalStateException "More than 2 bags found for dataset id <id>" |
| Exports.GroupTotal | src/main/java/nl/knaw/dans/avexports/core/FedoraExports.java:74 | the list lengths add up to the number of bag parents |
| Exports.FedoraExports.constructor | src/main/java/nl/knaw/dans/avexports/core/FedoraExports.java:45 | the map starts empty |
| Exports.FedoraExports.BuildIdToBagPaths | src/main/java/nl/knaw/dans/avexports/core/FedoraExports.java:60-75 | the forEach ends with the map the grouping specifies, or fails with the grouping's error |
| Exports.FedoraExports.GetBagParentsForDatasetId | src/main/java/nl/knaw/dans/avexports/core/FedoraExports.java:52-54 | the list is null exactly for an id that is not a key |
| Exports.FedoraExports.GetDatasetIds | src/main/java/nl/knaw/dans/avexports/core/FedoraExports.java:56-58 | the ids are exactly those with a non-null list |
| Exports.NewFedoraExports | src/main/java/nl/knaw/dans/avexports/core/FedoraExports.java:47-50 | construction yields a fresh object with the grouped map, or throws the grouping's error |
| Exports.Lookups | src/main/java/nl/knaw/dans/avexports/core/FedoraExports.java:52-58 | a built object returns an id's bag parents in listing order, so a singleton for a one-bag dataset (null when the id has none), and its ids are exactly the distinct ids found |
| DatasetsIndex.IndexStep | src/main/java/nl/knaw/dans/avexports/core/Datasets.java:44-49 | specified by DatasetsIndex.StepStoresEmpty: the fetched list is stored again unchanged |
| DatasetsIndex.BuildIndex | src/main/java/nl/knaw/dans/avexports/core/Datasets.java:40-53 | specified by DatasetsIndex.NeverAppends, DatasetsIndex.BuildSucceeds and DatasetsIndex.GuardNeverFires: it succeeds exactly when every lookup does, with the ids found as keys and every list empty |
| DatasetsIndex.StepStoresEmpty | src/main/java/nl/knaw/dans/avexports/core/Datasets.java:45-46 | while every stored list is empty, a step stores the id with another empty list |
| DatasetsIndex.BuiltFromReadableIds | src/main/java/nl/knaw/dans/avexports/core/Datasets.java:43-50 | a successful build read an id from every bag parent |
| DatasetsIndex.NeverAppends | src/main/java/nl/knaw/dans/avexports/core/Datasets.java:43-50 | as written, a successful build has exactly the ids found as keys, and every list is empty |
| DatasetsIndex.BuildSucceeds | src/main/java/nl/knaw/dans/avexports/core/Datasets.java:43-50 | the build succeeds exactly when every bag parent has an id |
| DatasetsIndex.GuardNeverFires | src/main/java/nl/knaw/dans/avexports/core/Datasets.java:47-49 | every failure is some bag parent's findDatasetId error; "More than 2 bags" never happens |
| DatasetsIndex.SameIdsAsFedoraExports | src/main/java/nl/knaw/dans/avexports/core/Datasets.java:40-53 | whenever FedoraExports groups a listing, Datasets succeeds with the same ids |
| DatasetsIndex.LoneBagParentDropped | src/main/java/nl/knaw/dans/avexports/core/Datasets.java:45-46 | one bag parent without dataset.xml gives {null: []} here but {null: [its path]} in FedoraExports |
| DatasetsIndex.Datasets.constructor | src/main/java/nl/knaw/dans/avexports/core/Datasets.java:33 | the map starts empty |
| DatasetsIndex.Datasets.BuildIdToBagPaths | src/main/java/nl/knaw/dans/avexports/core/Datasets.java:40-53 | the forEach as written ends with the map the index fold specifies, or fails with its error |
| DatasetsIndex.Datasets.GetBagsForDataset | src/main/java/nl/knaw/dans/avexports/core/Datasets.java:94-96 | the list is null exactly for an id that is not a key |
| DatasetsIndex.Datasets.GetDatasetIds | src/main/java/nl/knaw/dans/avexports/core/Datasets.java:98-100 | the ids are exactly those with a non-null list |
| DatasetsIndex.IndexErrorsFromHere | src/main/java/nl/knaw/dans/avexports/core/Datasets.java:43-50 | the first exception of the forEach is its result |
| DatasetsIndex.NewDatasets | src/main/java/nl/knaw/dans/avexports/core/Datasets.java:35-38 | construction yields a fresh object with the built map, or throws the build's error |
| DatasetsIndex.Lookups | src/main/java/nl/knaw/dans/avexports/core/Datasets.java:94-100 | a built object returns an empty list for a known id and null for an unknown one, and its ids are exactly the distinct ids found |
| SourcesCsv.LastRowOf | src/main/java/nl/knaw/dans/avexports/core/Sources.java:45 | the last row with a file id has that id and no later row does; none is found exactly when no row has it |
| SourcesCsv.PathsFrom | src/main/java/nl/knaw/dans/avexports/core/Sources.java:44-45 | specified by SourcesCsv.LastRowWins: a file id maps to the path of its last row, and only file ids with a row are keys |
| SourcesCsv.FileIdsFrom | src/main/java/nl/knaw/dans/avexports/core/Sources.java:44-46 | specified by SourcesCsv.FileIdsCollected: a dataset id maps to the file ids of all its rows, and only dataset ids with a row are keys |
| SourcesCsv.LastRowWins | src/main/java/nl/knaw/dans/avexports/core/Sources.java:44-45 | a file id has a path exactly when some row has it, and the path is that of its last row |
| SourcesCsv.FileIdsCollected | src/main/java/nl/knaw/dans/avexports/core/Sources.java:44-46 | a dataset id is a key exactly when some row has it, and its set is the file ids of all its rows |
| SourcesCsv.StoredSetsAreUseful | src/main/java/nl/knaw/dans/avexports/core/Sources.java:45-46 | every stored set is non-empty and every file id in it has a path |
| SourcesCsv.SharedFileId | src/main/java/nl/knaw/dans/avexports/core/Sources.java:45-46 | a file id listed under two dataset ids is in both sets and keeps one path, its last row's |
| SourcesCsv.Sources.constructor | src/main/java/nl/knaw/dans/avexports/core/Sources.java:41-50 | the loop over the records leaves both maps as the row folds specify |
| SourcesCsv.Sources.GetSpringfieldPathByFileId | src/main/java/nl/knaw/dans/avexports/core/Sources.java:52-54 | the path is null exactly for a file id that is not a key |
| SourcesCsv.Sources.GetSpringfieldFileIdsFor | src/main/java/nl/knaw/dans/avexports/core/Sources.java:56-58 | the set is null exactly for a dataset id that is not a key |
| SourcesCsv.Sources.HasSpringfieldFiles | src/main/java/nl/knaw/dans/avexports/core/Sources.java:60-62 | hasSpringfieldFiles holds exactly when getSpringfieldFileIdsFor is non-null |
| SourcesCsv.Lookups | src/main/java/nl/knaw/dans/avexports/core/Sources.java:52-62 | a built object returns a file id's last-row path (null without a row), says it has files for a dataset exactly when some row names it, and returns that dataset's file ids |
| SubtitleFiles.NoLineTerminatorsAt | src/main/java/nl/knaw/dans/avexports/core/Subtitles.java:37 | "." matches the first n characters exactly when none of them is a line terminator |
| SubtitleFiles.IsSubtitleName | src/main/java/nl/knaw/dans/avexports/core/Subtitles.java:37 | specified by SubtitleFiles.SubtitleNames and SubtitleFiles.SubtitleNameParts: a name matches exactly when it ends in ".srt" or ".vtt" with no line terminator before that |
| SubtitleFiles.SubtitleNames | src/main/java/nl/knaw/dans/avexports/core/Subtitles.java:37 | a stem without line terminators followed by ".srt" or ".vtt" matches the pattern |
| SubtitleFiles.SubtitleNameParts | src/main/java/nl/knaw/dans/avexports/core/Subtitles.java:37 | a matching name ends in ".srt" or ".vtt" and has no line terminator before that |
| SubtitleFiles.FirstUnderscore | src/main/java/nl/knaw/dans/avexports/core/Subtitles.java:40 | the position found is the first '_' of the name, or its length when it has none |
| SubtitleFiles.Language | src/main/java/nl/knaw/dans/avexports/core/Subtitles.java:40 | the language is a prefix of the name without '_', followed by '_' unless it is the whole name |
| SubtitleFiles.GreatGrandParent | src/main/java/nl/knaw/dans/avexports/core/Subtitles.java:34 | the directory scanned is three levels above the file, and exists exactly when the path is long enough |
| SubtitleFiles.LastOfLanguage | src/main/java/nl/knaw/dans/avexports/core/Subtitles.java:37-41 | the last counted entry of a language has it and no later counted entry does; none is found exactly when no counted entry has it |
| SubtitleFiles.LanguageMap | src/main/java/nl/knaw/dans/avexports/core/Subtitles.java:36-42 | specified by SubtitleFiles.LastListedWins and SubtitleFiles.Languages: each language of a counted file maps to the last such file listed, and there are no other keys |
| SubtitleFiles.LastListedWins | src/main/java/nl/knaw/dans/avexports/core/Subtitles.java:38-42 | a language is a key exactly when some counted file has it, and its file is the last such file listed, inside the scanned directory |
| SubtitleFiles.Languages | src/main/java/nl/knaw/dans/avexports/core/Subtitles.java:37-41 | the keys are exactly the languages of the regular files with a subtitle name |
| SubtitleFiles.Subtitles.constructor | src/main/java/nl/knaw/dans/avexports/core/Subtitles.java:36-42 | the forEach over the listing leaves the map as the language fold specifies |
| SubtitleFiles.Subtitles.GetLanguages | src/main/java/nl/knaw/dans/avexports/core/Subtitles.java:49-51 | the languages are exactly those with a non-null subtitle file |
| SubtitleFiles.Subtitles.GetSubtitleFile | src/main/java/nl/knaw/dans/avexports/core/Subtitles.java:53-55 | the file is null exactly for a language that is not a key |
| SubtitleFiles.NewSubtitles | src/main/java/nl/knaw/dans/avexports/core/Subtitles.java:32-47 | a file without a great-grandparent throws a NullPointerException, an unlistable directory an UncheckedIOException, and otherwise the object is built from that directory's listing |
| SubtitleFiles.Lookups | src/main/java/nl/knaw/dans/avexports/core/Subtitles.java:49-55 | a built object returns the last counted file of a language (null when there is none), and its languages are those of the counted files |
| Namespaces.Table | src/main/java/nl/knaw/dans/avexports/core/XmlNamespacesContext.java:34-46 | specified by Namespaces.TableBindings: exactly the eleven prefixes, with dct and dcterms both bound to the DCTERMS namespace |
| Namespaces.TableBindings | src/main/java/nl/knaw/dans/avexports/core/XmlNamespacesContext.java:34-46 | the table has exactly the eleven prefixes, with dct and dcterms both bound to the DCTERMS namespace |
| Namespaces.DctermsHasTwoPrefixes | src/main/java/nl/knaw/dans/avexports/core/XmlNamespacesContext.java:37-40 | with distinct namespace constants, the DCTERMS namespace has exactly the prefixes dct and dcterms |
| Namespaces.XmlNamespacesContext.constructor | src/main/java/nl/knaw/dans/avexports/core/XmlNamespacesContext.java:34-46 | the context holds the fixed table, which no operation can change |
| Namespaces.XmlNamespacesContext.GetNamespaceURI | src/main/java/nl/knaw/dans/avexports/core/XmlNamespacesContext.java:48-51 | the URI is null exactly for an unknown prefix |
| Namespaces.XmlNamespacesContext.GetPrefix | src/main/java/nl/knaw/dans/avexports/core/XmlNamespacesContext.java:53-61 | a returned prefix is bound to the namespace, so looking it up gives the namespace back; null exactly when no prefix is bound to it |
| Namespaces.XmlNamespacesContext.GetPrefixes | src/main/java/nl/knaw/dans/avexports/core/XmlNamespacesContext.java:63-72 | the result holds exactly the prefixes bound to the namespace, each once |

## Left out

- File system, XML and CSV I/O.
  - Reading and writing bags, `MetadataWriter`, `FilesXml.write` and the XPath evaluation are not modelled.
  - Parsing dataset.xml, files.xml and sources.csv is not modelled either.
  - Their results are parameters: directory listings, identifier sequences, records and rows.
- CSV errors (a missing header or column) and XML parse errors beyond "unreadable dataset.xml" are not modelled.
- `Files.list` order is the order of the listing parameter. `Files.exists` and `Files.isDirectory` are fields of the listed entries.
- The `IOException` paths are not modelled: "Error while reading <bag parent>" in `checkOneSubdirectory`/`getBagDir`, and the `RuntimeException` wrapping in `updateBagVersion`.
- `getBagDir`'s "No directories found" cannot happen after `checkOneSubdirectory`, so it is not modelled.
- Logging, including the bag count that `buildIdToBagPaths` logs, is left out. `Exports.GroupTotal` states the count's value.
- The messages of `UncheckedIOException` (the wrapped `IOException`'s) and of the JVM's `NullPointerException` are not modelled: those two errors carry only their class.
- The clock: `updateBagVersion`'s formatted `now` is a parameter.
- The digests: MD5/SHA hex digests come from an external codec library, so the digest function is a parameter. Concrete hex strings are not modelled.
- The values of the namespace constants live in an interface outside this model, so they are a parameter.
- Checksums.ToUpper: only ASCII letters are upper-cased, not locale-dependent `String.toUpperCase`.
- BagMetadata.Metadata.Get: keys are compared exactly; the bagit library's own key handling is not modelled.
- Namespaces.XmlNamespacesContext.GetPrefix: HashMap iteration order is not modelled, so any bound prefix may be returned. For the same reason `GetPrefixes` fixes no order.
- FilesIndex.FilesXml.GetFileIds: the XPath `//dct:identifier/text()` reads every identifier text in the document. The model has one identifier per `<file>` record, read as one text node or none when it is empty.
- FilesIndex.FilesXml.GetElementById: the id is spliced into an XPath string literal. Ids are assumed to hold no apostrophe, which would change the query.
- Exports.FedoraExports.BuildIdToBagPaths: on a failure the contract states only the error. The map the aborted constructor leaves behind is unreachable.
- BagUtil.UpdatePayloadManifestsForPath: on a failure it states only that each manifest is untouched or fully updated, not which ones, since HashSet iteration order is not modelled.
- BagUtil.UpdateTagManifestsForPaths: on a failure it states the error and that the manifest set is the same, not the partial entries.
- BagUtil.UpdatePayloadManifestChecksumsInTagManifests: on a failure it states only that the manifest set is the same.
- `AvDatasetConverter` is left out: its loop bodies are comments only, and the method it calls does not exist in `Sources`.
- The `EasyConvertAvExports` command-line application (options, configuration, staging copies) is left out.

## Findings

| source | as written | input that shows it | evidently intended | confidence | as-written member | corrected member |
|---|---|---|---|---|---|---|
| src/main/java/nl/knaw/dans/avexports/core/Datasets.java:45-46 | the id's list is fetched and stored again, but the bag parent is never appended, so every list stays empty and the "More than 2 bags" guard is dead | one bag parent with one directory and no dataset.xml gives {null: []} | {null: [that bag parent]}, as FedoraExports.java:65-68 builds it | not executed | DatasetsIndex.LoneBagParentDropped | Exports.GroupContents |
