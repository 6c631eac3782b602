/** Subtitles: the subtitle files (.srt or .vtt) next to a Springfield
    video, keyed by the language code at the start of their names.

    The directory scanned is the great-grandparent of the Springfield file;
    its listing comes from a FileSystem parameter that maps a directory to
    its entries in listing order. */
module SubtitleFiles {
  import opened Outcomes
  import opened Paths

  /** A directory entry: its file name, and whether Files.isRegularFile holds. */
  datatype DirEntry = DirEntry(name: string, isRegularFile: bool)

  /** The listable directories of the file system. */
  type FileSystem = map<Path, seq<DirEntry>>

  /** The characters that "." in a java.util.regex pattern does not match. */
  predicate LineTerminator(c: char) {
    c == '\n' || c == '\r' || c == '\U{0085}' || c == '\U{2028}' || c == '\U{2029}'
  }

  /** None of the first n characters of s is a line terminator. */
  predicate NoLineTerminatorsBefore(s: string, n: nat)
    requires n <= |s|
  {
    n == 0 || (!LineTerminator(s[n - 1]) && NoLineTerminatorsBefore(s, n - 1))
  }

  lemma {:induction false} NoLineTerminatorsAt(s: string, n: nat)
    requires n <= |s|
    ensures NoLineTerminatorsBefore(s, n) <==> forall i :: 0 <= i < n ==> !LineTerminator(s[i])
  {
    if n > 0 {
      NoLineTerminatorsAt(s, n - 1);
    }
  }

  /** The name ends in ".srt" or ".vtt". */
  predicate HasSubtitleExtension(name: string) {
    var n := |name|;
    && n >= 4 && name[n - 4] == '.'
    && ((name[n - 3] == 's' && name[n - 2] == 'r') || (name[n - 3] == 'v' && name[n - 2] == 't'))
    && name[n - 1] == 't'
  }

  /** String.matches(".*\\.(srt|vtt)"): the whole name is a run of
      non-terminator characters followed by ".srt" or ".vtt". */
  predicate IsSubtitleName(name: string) {
    HasSubtitleExtension(name) && NoLineTerminatorsBefore(name, |name| - 4)
  }

  /** Any stem without line terminators, followed by .srt or .vtt, matches;
      so do names with several extensions like "x.srt.vtt". */
  lemma SubtitleNames(stem: string, ext: string)
    requires ext == ".srt" || ext == ".vtt"
    requires forall i :: 0 <= i < |stem| ==> !LineTerminator(stem[i])
    ensures IsSubtitleName(stem + ext)
  {
    var name := stem + ext;
    assert name[|stem|..] == ext;
    NoLineTerminatorsAt(name, |stem|);
    assert forall i :: 0 <= i < |stem| ==> name[i] == stem[i];
  }

  /** A name matches only if it ends in ".srt" or ".vtt" and has no line
      terminator before that. */
  lemma SubtitleNameParts(name: string)
    requires IsSubtitleName(name)
    ensures name[|name| - 4..] == ".srt" || name[|name| - 4..] == ".vtt"
    ensures forall i :: 0 <= i < |name| - 4 ==> !LineTerminator(name[i])
  {
    NoLineTerminatorsAt(name, |name| - 4);
    assert |".srt"| == 4;
    var n := |name|;
    assert name[n - 4..][0] == '.' && name[n - 4..][3] == 't';
  }

  /** The index of the first '_' in the name, or its length. */
  function FirstUnderscore(name: string): (r: nat)
    ensures r <= |name|
    ensures forall i :: 0 <= i < r ==> name[i] != '_'
    ensures r < |name| ==> name[r] == '_'
    decreases |name|
  {
    if name == [] || name[0] == '_' then 0 else 1 + FirstUnderscore(name[1..])
  }

  /** split("_")[0]: the part of the name before its first '_', or the whole
      name. (For a subtitle name the split is never empty: it ends in ".srt"
      or ".vtt".) */
  function Language(name: string): (r: string)
    ensures |r| <= |name| && r == name[..|r|]
    ensures '_' !in r
    ensures |r| < |name| ==> name[|r|] == '_'
  {
    name[..FirstUnderscore(name)]
  }

  /** A file counts when it is regular and has a subtitle name. */
  predicate Counted(e: DirEntry) {
    e.isRegularFile && IsSubtitleName(e.name)
  }

  /** Path.getParent three times; null if any of them is null. */
  function GreatGrandParent(p: Path): (r: Option<Path>)
    ensures r.Some? <==> |p.names| >= 4 || (|p.names| == 3 && p.absolute)
    ensures r.Some? ==> r.value == Path(p.absolute, p.names[..|p.names| - 3])
  {
    match Parent(p)
    case None => None
    case Some(parent) =>
      match Parent(parent)
      case None => None
      case Some(grandParent) => Parent(grandParent)
  }

  /** languageToSubtitles after the forEach over the entries of dir: put, so
      the last counted file of a language wins. */
  function LanguageMap(dir: Path, entries: seq<DirEntry>): map<string, Path>
    decreases |entries|
  {
    if entries == [] then map[]
    else
      var m := LanguageMap(dir, entries[..|entries| - 1]);
      var last := entries[|entries| - 1];
      if Counted(last) then m[Language(last.name) := Child(dir, last.name)] else m
  }

  /** The entry is a counted file of the language. */
  predicate OfLanguage(e: DirEntry, language: string) {
    Counted(e) && Language(e.name) == language
  }

  /** The index of the last counted entry of a language, if any. */
  function LastOfLanguage(entries: seq<DirEntry>, language: string): (r: Option<nat>)
    ensures r.None? <==> forall i :: 0 <= i < |entries| ==> !OfLanguage(entries[i], language)
    ensures r.Some? ==> r.value < |entries| && OfLanguage(entries[r.value], language)
    ensures r.Some? ==> forall j :: r.value < j < |entries| ==> !OfLanguage(entries[j], language)
    decreases |entries|
  {
    if entries == [] then None
    else if OfLanguage(entries[|entries| - 1], language) then Some(|entries| - 1)
    else
      var init := entries[..|entries| - 1];
      assert forall i :: 0 <= i < |init| ==> init[i] == entries[i];
      LastOfLanguage(init, language)
  }

  /** A language is a key exactly when some counted file has it, and its file
      is the last such file listed, inside dir. */
  lemma {:induction false} LastListedWins(dir: Path, entries: seq<DirEntry>, language: string)
    ensures language in LanguageMap(dir, entries) <==> LastOfLanguage(entries, language).Some?
    ensures language in LanguageMap(dir, entries) ==>
      LanguageMap(dir, entries)[language] == Child(dir, entries[LastOfLanguage(entries, language).value].name)
    decreases |entries|
  {
    if entries != [] {
      LastListedWins(dir, entries[..|entries| - 1], language);
    }
  }

  /** The languages are exactly those of the counted files. */
  lemma Languages(dir: Path, entries: seq<DirEntry>)
    ensures LanguageMap(dir, entries).Keys ==
      set i | 0 <= i < |entries| && Counted(entries[i]) :: Language(entries[i].name)
  {
    forall l ensures l in LanguageMap(dir, entries) <==>
      exists i :: 0 <= i < |entries| && OfLanguage(entries[i], l)
    {
      LastListedWins(dir, entries, l);
    }
  }

  /** The object for one Springfield file. */
  class Subtitles {
    const springfieldFile: Path
    var languageToSubtitles: map<string, Path>

    /** The constructor's forEach over the listing of dir. */
    constructor (springfieldFile: Path, dir: Path, entries: seq<DirEntry>)
      ensures this.springfieldFile == springfieldFile
      ensures languageToSubtitles == LanguageMap(dir, entries)
    {
      this.springfieldFile := springfieldFile;
      languageToSubtitles := map[];
      new;
      var i := 0;
      while i < |entries|
        invariant 0 <= i <= |entries|
        invariant languageToSubtitles == LanguageMap(dir, entries[..i])
      {
        var p := entries[i];
        ghost var next := entries[..i + 1];
        assert next[..i] == entries[..i] && next[i] == p;
        if p.isRegularFile && IsSubtitleName(p.name) {
          languageToSubtitles := languageToSubtitles[Language(p.name) := Child(dir, p.name)];
        }
        assert languageToSubtitles == LanguageMap(dir, next);
        i := i + 1;
      }
      assert entries[..i] == entries;
    }

    /** getLanguages: the key set. */
    function GetLanguages(): (r: set<string>)
      reads this
      ensures forall l :: l in r <==> GetSubtitleFile(l).Some?
    {
      languageToSubtitles.Keys
    }

    /** getSubtitleFile: the file of the language, null when there is none. */
    function GetSubtitleFile(language: string): (r: Option<Path>)
      reads this
      ensures r.Some? <==> language in languageToSubtitles
    {
      if language in languageToSubtitles then Some(languageToSubtitles[language]) else None
    }
  }

  /** new Subtitles(springfieldFile): a NullPointerException when the file has
      no great-grandparent, an UncheckedIOException when that directory
      cannot be listed. */
  method NewSubtitles(springfieldFile: Path, fs: FileSystem) returns (r: Result<Subtitles>)
    ensures GreatGrandParent(springfieldFile).None? ==> r == Err(NullPointer)
    ensures GreatGrandParent(springfieldFile).Some? && GreatGrandParent(springfieldFile).value !in fs ==> r == Err(UncheckedIO)
    ensures r.Ok? ==>
      var dir := GreatGrandParent(springfieldFile).value;
      && dir in fs && fresh(r.value) && r.value.springfieldFile == springfieldFile
      && r.value.languageToSubtitles == LanguageMap(dir, fs[dir])
    ensures r.Ok? <==> GreatGrandParent(springfieldFile).Some? && GreatGrandParent(springfieldFile).value in fs
  {
    var dir := GreatGrandParent(springfieldFile);
    if dir.None? {
      return Err(NullPointer);
    }
    if dir.value !in fs {
      return Err(UncheckedIO);
    }
    var subtitles := new Subtitles(springfieldFile, dir.value, fs[dir.value]);
    return Ok(subtitles);
  }

  /** What the getters of a built object answer: every language has a file,
      the file is a counted entry of dir with that language, and a language
      no counted file has gets null. */
  lemma Lookups(subtitles: Subtitles, dir: Path, entries: seq<DirEntry>, language: string)
    requires subtitles.languageToSubtitles == LanguageMap(dir, entries)
    ensures subtitles.GetSubtitleFile(language) ==
      match LastOfLanguage(entries, language)
      case None => None
      case Some(i) => Some(Child(dir, entries[i].name))
    ensures language in subtitles.GetLanguages() <==>
      exists i :: 0 <= i < |entries| && OfLanguage(entries[i], language)
  {
    LastListedWins(dir, entries, language);
  }
}
