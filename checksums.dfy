/** The Hasher: the checksum of a file's bytes under a named algorithm.
    The digests themselves come from an external codec library, so the
    digest is a parameter of every operation that hashes. */
module Checksums {
  import opened Outcomes
  import opened Paths

  type Bytes = seq<bv8>

  /** The hex digest of some bytes under an upper-case algorithm name
      ("MD5", "SHA1", "SHA256" or "SHA512"). */
  type Digest = (Bytes, string) -> string

  /** The bytes of the files on disk, keyed by path. */
  type FileSystem = map<Path, Bytes>

  const ReadError: string := "Error reading file for checksum calculation"

  function UpperAscii(c: char): char {
    if 'a' <= c <= 'z' then (c as int - 32) as char else c
  }

  /** String.toUpperCase, on the ASCII letters. */
  function ToUpper(s: string): (r: string)
    ensures |r| == |s|
    ensures forall i :: 0 <= i < |s| ==> r[i] == UpperAscii(s[i])
  {
    if s == [] then [] else [UpperAscii(s[0])] + ToUpper(s[1..])
  }

  predicate Supported(algorithm: string) {
    ToUpper(algorithm) in {"MD5", "SHA1", "SHA256", "SHA512"}
  }

  /** Hasher(file, algorithm).getChecksum(): the file is read first, so a
      missing file fails before the algorithm name is looked at. */
  function GetChecksum(files: FileSystem, file: Path, algorithm: string, digest: Digest): Result<string> {
    if file !in files then Err(Runtime(ReadError))
    else if !Supported(algorithm) then Err(UnsupportedOperation("Unsupported algorithm: " + algorithm))
    else Ok(digest(files[file], ToUpper(algorithm)))
  }

  lemma {:induction false} ToUpperIdempotent(s: string)
    ensures ToUpper(ToUpper(s)) == ToUpper(s)
  {
    if s != [] {
      ToUpperIdempotent(s[1..]);
      assert ToUpper(s)[1..] == ToUpper(s[1..]);
    }
  }

  /** The algorithm name is matched without regard to case: a supported
      name and its upper-case form give the same checksum, and an existing
      file fails only for a name outside MD5, SHA1, SHA256 and SHA512. */
  lemma ChecksumIgnoresCase(files: FileSystem, file: Path, algorithm: string, digest: Digest)
    ensures GetChecksum(files, file, algorithm, digest).Ok? <==> file in files && Supported(algorithm)
    ensures Supported(algorithm) ==>
      GetChecksum(files, file, ToUpper(algorithm), digest) == GetChecksum(files, file, algorithm, digest)
    ensures file !in files ==> GetChecksum(files, file, algorithm, digest) == Err(Runtime(ReadError))
  {
    ToUpperIdempotent(algorithm);
  }
}
