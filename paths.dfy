/** File-system paths as java.nio.file.Path (on Unix) sees them: an optional
    root followed by a sequence of non-empty name elements. Parsing a string
    drops the empty names that repeated and trailing '/' make, so spellings
    that differ only in those become the same, equal Path; "." and ".." are
    kept as names, since neither parsing nor resolve normalises them. */
module Paths {
  import opened Outcomes

  /** "/a/b" is Path(true, ["a", "b"]), "a/b" is Path(false, ["a", "b"]),
      "/" is Path(true, []) and the empty path "" is Path(false, []). */
  datatype Path = Path(absolute: bool, names: seq<string>)

  /** A name element: non-empty and without '/'. */
  predicate IsName(n: string) {
    n != "" && '/' !in n
  }

  /** Every name of the path is a name element, as for every parsed path. */
  predicate WellFormed(p: Path) {
    forall i :: 0 <= i < |p.names| ==> IsName(p.names[i])
  }

  /** The name being read, as a list of at most one name. */
  function Flush(current: string): seq<string> {
    if current == "" then [] else [current]
  }

  /** The names of s, read from left to right after the partial name
      current: every '/' ends a name and empty names are dropped. */
  function Names(s: string, current: string): seq<string>
    decreases |s|
  {
    if s == [] then Flush(current)
    else if s[0] == '/' then Flush(current) + Names(s[1..], "")
    else Names(s[1..], current + [s[0]])
  }

  /** FileSystem.getPath(s): the path a string denotes. */
  function ParsePath(s: string): (r: Path)
    ensures r.absolute <==> |s| > 0 && s[0] == '/'
    ensures WellFormed(r)
  {
    NamesAreNames(s, "");
    Path(|s| > 0 && s[0] == '/', Names(s, ""))
  }

  lemma {:induction false} NamesAreNames(s: string, current: string)
    requires '/' !in current
    ensures forall i :: 0 <= i < |Names(s, current)| ==> IsName(Names(s, current)[i])
    decreases |s|
  {
    if s != [] {
      if s[0] == '/' {
        NamesAreNames(s[1..], "");
      } else {
        NamesAreNames(s[1..], current + [s[0]]);
      }
    }
  }

  /** The names joined with '/'. */
  function Join(names: seq<string>): string
    decreases |names|
  {
    if names == [] then ""
    else if |names| == 1 then names[0]
    else names[0] + "/" + Join(names[1..])
  }

  /** Path.toString: the root, then the names joined with '/'. */
  function PathText(p: Path): string {
    (if p.absolute then "/" else "") + Join(p.names)
  }

  /** Reading a name without '/' only extends the partial name. */
  lemma {:induction false} NamesThroughName(n: string, rest: string, current: string)
    requires '/' !in n
    ensures Names(n + rest, current) == Names(rest, current + n)
    decreases |n|
  {
    if n == [] {
      assert n + rest == rest && current + n == current;
    } else {
      assert (n + rest)[0] == n[0];
      assert (n + rest)[1..] == n[1..] + rest;
      assert current + n == (current + [n[0]]) + n[1..];
      NamesThroughName(n[1..], rest, current + [n[0]]);
    }
  }

  /** The names of joined name elements are those elements. */
  lemma {:induction false} NamesOfJoin(names: seq<string>)
    requires forall i :: 0 <= i < |names| ==> IsName(names[i])
    ensures Names(Join(names), "") == names
    ensures |Join(names)| > 0 ==> Join(names)[0] != '/'
    decreases |names|
  {
    if names != [] {
      var n := names[0];
      assert IsName(n) && n[0] in n;
      if |names| == 1 {
        NamesThroughName(n, "", "");
        assert n + "" == n && "" + n == n;
      } else {
        var rest := Join(names[1..]);
        NamesOfJoin(names[1..]);
        assert Join(names) == n + ("/" + rest);
        NamesThroughName(n, "/" + rest, "");
        assert "" + n == n;
        assert ("/" + rest)[1..] == rest;
        assert names == [n] + names[1..];
      }
    }
  }

  /** Printing a path and parsing the text gives the path back. */
  lemma ParseText(p: Path)
    requires WellFormed(p)
    ensures ParsePath(PathText(p)) == p
  {
    NamesOfJoin(p.names);
    if p.absolute {
      var s := "/" + Join(p.names);
      assert s[1..] == Join(p.names);
      assert Names(s, "") == Names(Join(p.names), "");
    } else {
      assert PathText(p) == Join(p.names);
    }
  }

  /** A doubled '/' denotes the same path as a single one. */
  lemma RedundantSlashIgnored(a: string, b: string)
    ensures ParsePath(a + "//" + b) == ParsePath(a + "/" + b)
  {
    DoubleSlashNames(a, b, "");
    if a == [] {
      assert (a + "//" + b)[0] == '/' == (a + "/" + b)[0];
    } else {
      assert (a + "//" + b)[0] == a[0] == (a + "/" + b)[0];
    }
  }

  lemma {:induction false} DoubleSlashNames(a: string, b: string, current: string)
    ensures Names(a + "//" + b, current) == Names(a + "/" + b, current)
    decreases |a|
  {
    if a == [] {
      assert a + "//" + b == "/" + ("/" + b);
      assert a + "/" + b == "/" + b;
      assert ("/" + ("/" + b))[1..] == "/" + b;
      assert ("/" + b)[1..] == b;
    } else {
      assert (a + "//" + b)[1..] == a[1..] + "//" + b;
      assert (a + "/" + b)[1..] == a[1..] + "/" + b;
      if a[0] == '/' {
        DoubleSlashNames(a[1..], b, "");
      } else {
        DoubleSlashNames(a[1..], b, current + [a[0]]);
      }
    }
  }

  /** A trailing '/' after a non-empty string denotes the same path. */
  lemma TrailingSlashIgnored(s: string)
    requires s != ""
    ensures ParsePath(s + "/") == ParsePath(s)
  {
    TrailingSlashNames(s, "");
    assert (s + "/")[0] == s[0];
  }

  lemma {:induction false} TrailingSlashNames(s: string, current: string)
    ensures Names(s + "/", current) == Names(s, current)
    decreases |s|
  {
    if s == [] {
      assert s + "/" == "/";
      assert "/"[1..] == "";
    } else {
      assert (s + "/")[1..] == s[1..] + "/";
      if s[0] == '/' {
        TrailingSlashNames(s[1..], "");
      } else {
        TrailingSlashNames(s[1..], current + [s[0]]);
      }
    }
  }

  /** A single name element parses to the one-name relative path. */
  lemma ParseName(n: string)
    requires IsName(n)
    ensures ParsePath(n) == Path(false, [n])
  {
    NamesThroughName(n, "", "");
    assert n + "" == n && "" + n == n;
  }

  /** Path.getParent: the path without its last name; the root for a
      one-name absolute path; null for the root, for a one-name relative
      path and for the empty path. */
  function Parent(p: Path): (r: Option<Path>)
    ensures r.Some? <==> (|p.names| >= 2 || (|p.names| == 1 && p.absolute))
    ensures r.Some? ==> r.value.absolute == p.absolute && r.value.names + [p.names[|p.names| - 1]] == p.names
  {
    if |p.names| == 0 || (|p.names| == 1 && !p.absolute) then None
    else Some(Path(p.absolute, p.names[..|p.names| - 1]))
  }

  /** Path.getFileName: the last name element; null for the root; the empty
      path is its own file name. */
  function FileName(p: Path): (r: Option<string>)
    ensures r.None? <==> p.absolute && p.names == []
    ensures p.names != [] ==> r == Some(p.names[|p.names| - 1])
    ensures !p.absolute && p.names == [] ==> r == Some("")
  {
    if p.names != [] then Some(p.names[|p.names| - 1])
    else if p.absolute then None
    else Some("")
  }

  /** String concatenation of a possibly null file name, as Java's "+" writes null. */
  function FileNameText(p: Path): string {
    match FileName(p)
    case None => "null"
    case Some(n) => n
  }

  /** Path.resolve(other): an absolute other wins; otherwise its names follow
      those of dir (so an empty other gives dir, and an empty dir gives other). */
  function Resolve(dir: Path, other: Path): (r: Path)
    ensures other.absolute ==> r == other
    ensures !other.absolute ==> r.absolute == dir.absolute && r.names == dir.names + other.names
    ensures other.names == [] && !other.absolute ==> r == dir
    ensures dir == Path(false, []) ==> r == other
    ensures WellFormed(dir) && WellFormed(other) ==> WellFormed(r)
  {
    if other.absolute then other
    else
      assert other.names == [] ==> dir.names + other.names == dir.names;
      assert dir.names == [] ==> dir.names + other.names == other.names;
      Path(dir.absolute, dir.names + other.names)
  }

  /** Path.resolve(String): the string is parsed first. */
  function ResolveText(dir: Path, other: string): Path {
    Resolve(dir, ParsePath(other))
  }

  /** dir.resolve(name) for a single name, as Files.list and getBagDir make
      the paths of a directory's entries. */
  function Child(dir: Path, name: string): (r: Path)
    ensures FileName(r) == Some(name)
    ensures dir.absolute || dir.names != [] ==> Parent(r) == Some(dir)
  {
    var r := Resolve(dir, Path(false, [name]));
    assert r.names[..|dir.names|] == dir.names;
    r
  }
}
