/**
  The parts of a path that `pathlib` gives both scripts. A path string is read
  as pathlib reads it: an anchor ("", "/" or "//") and the components between
  the slashes, where empty components and "." are dropped. From that come the
  string form of `Path(p)`, joining with `/`, the final component
  (`Path.name`), its extension (`Path.suffix`) and the rest (`Path.stem`).
  The extension starts at the last dot of the name, unless that dot opens the
  name (".gitkeep") or ends it ("notes.").
 */
module Paths {

  /** Position of the last occurrence of c in s, or -1 when there is none. */
  function LastIndexOf(s: string, c: char): (r: int)
    ensures -1 <= r < |s|
    ensures r >= 0 ==> s[r] == c
    ensures forall k :: r < k < |s| ==> s[k] != c
  {
    LastIndexBelow(s, c, |s|)
  }

  /** Position of the last occurrence of c among the first n characters of
      s, or -1 when there is none. */
  function LastIndexBelow(s: string, c: char, n: nat): (r: int)
    requires n <= |s|
    ensures -1 <= r < n
    ensures r >= 0 ==> s[r] == c
    ensures forall k :: r < k < n ==> s[k] != c
  {
    if n == 0 then -1
    else if s[n - 1] == c then n - 1
    else LastIndexBelow(s, c, n - 1)
  }

  // ---------------------------------------------------------------------
  // Reading a path
  // ---------------------------------------------------------------------

  /** A component pathlib keeps: non-empty, not ".", without a slash. */
  predicate IsPart(c: string) {
    c != "" && c != "." && forall k :: 0 <= k < |c| ==> c[k] != '/'
  }

  /** The pieces of s between its slashes, empty ones included: `s.split('/')`. */
  function Segments(s: string): (r: seq<string>)
    ensures |r| >= 1
  {
    if s == [] then [""] else Step(Segments(s[..|s| - 1]), s[|s| - 1])
  }

  /** The pieces after one more character: a slash opens a new piece, any
      other character extends the last one. */
  function Step(segments: seq<string>, c: char): (r: seq<string>)
    requires |segments| >= 1
    ensures |r| >= 1
  {
    if c == '/' then segments + [""]
    else segments[..|segments| - 1] + [segments[|segments| - 1] + [c]]
  }

  /** The pieces that are components, in order. */
  function Keep(segments: seq<string>): seq<string> {
    if segments == [] then []
    else
      var last := segments[|segments| - 1];
      Keep(segments[..|segments| - 1]) + (if IsPart(last) then [last] else [])
  }

  /** The components of the path, in order. */
  function Parts(path: string): seq<string> {
    Keep(Segments(path))
  }

  /** The anchor: "/" for an absolute path, "//" when it starts with exactly
      two slashes, and "" for a relative one. */
  function Anchor(path: string): (a: string)
    ensures IsAnchor(a)
  {
    if |path| == 0 || path[0] != '/' then ""
    else if |path| >= 2 && path[1] == '/' && (|path| == 2 || path[2] != '/') then "//"
    else "/"
  }

  predicate IsAnchor(a: string) {
    a == "" || a == "/" || a == "//"
  }

  /** `'/'.join(parts)`. */
  function JoinParts(parts: seq<string>): string {
    if parts == [] then ""
    else if |parts| == 1 then parts[0]
    else JoinParts(parts[..|parts| - 1]) + "/" + parts[|parts| - 1]
  }

  /** `str()` of the path with this anchor and these components; "." for
      the empty relative path. */
  function PathString(anchor: string, parts: seq<string>): string {
    if anchor == "" && parts == [] then "." else anchor + JoinParts(parts)
  }

  /** `str(Path(path))`. */
  function Normalize(path: string): string {
    PathString(Anchor(path), Parts(path))
  }

  /** `str(Path(dir) / name)`, for a name that is not absolute. */
  function Join(dir: string, name: string): string {
    PathString(Anchor(dir), Parts(dir) + Parts(name))
  }

  /** A `pathlib` path object: its anchor and its components. */
  datatype Path = Path(anchor: string, parts: seq<string>)

  /** `Path(s)`. */
  function ParsePath(s: string): Path {
    Path(Anchor(s), Parts(s))
  }

  /** `str(p)`. */
  function PathStr(p: Path): string {
    PathString(p.anchor, p.parts)
  }

  /** `p / name`, for a name that is a single component. */
  function Child(p: Path, name: string): Path {
    Path(p.anchor, p.parts + [name])
  }

  /** A path object as `Path(s)` builds it. */
  predicate WellFormed(p: Path) {
    IsAnchor(p.anchor) && forall k :: 0 <= k < |p.parts| ==> IsPart(p.parts[k])
  }

  // ---------------------------------------------------------------------
  // Facts about reading and writing paths
  // ---------------------------------------------------------------------

  /** Only components are kept. */
  lemma {:induction false} KeepParts(segments: seq<string>)
    ensures forall k :: 0 <= k < |Keep(segments)| ==> IsPart(Keep(segments)[k])
    decreases |segments|
  {
    if segments != [] {
      KeepParts(segments[..|segments| - 1]);
    }
  }

  /** Every component of a path is a component in the sense of IsPart. */
  lemma PartsAreParts(path: string)
    ensures forall k :: 0 <= k < |Parts(path)| ==> IsPart(Parts(path)[k])
  {
    KeepParts(Segments(path));
  }

  /** Filtering a concatenation filters each half. */
  lemma {:induction false} KeepAppend(x: seq<string>, y: seq<string>)
    ensures Keep(x + y) == Keep(x) + Keep(y)
    decreases |y|
  {
    if y == [] {
      assert x + y == x;
    } else {
      var n := |y| - 1;
      var xy := x + y;
      assert xy[..|xy| - 1] == x + y[..n];
      assert xy[|xy| - 1] == y[n];
      KeepAppend(x, y[..n]);
    }
  }

  /** A character after a non-empty list of pieces only changes the end. */
  lemma StepAppend(x: seq<string>, y: seq<string>, c: char)
    requires |y| >= 1
    ensures Step(x + y, c) == x + Step(y, c)
  {
    if c != '/' {
      assert (x + y)[..|x + y| - 1] == x + y[..|y| - 1];
    }
  }

  /** One more character is one more step. */
  lemma SegmentsSnoc(s: string, c: char)
    ensures Segments(s + [c]) == Step(Segments(s), c)
  {
    assert (s + [c])[..|s|] == s;
  }

  /** Splitting at a slash splits the pieces there. */
  lemma {:induction false} SegmentsSlash(a: string, b: string)
    ensures Segments(a + "/" + b) == Segments(a) + Segments(b)
    decreases |b|
  {
    if b == [] {
      SegmentsSnoc(a, '/');
      assert a + "/" + b == a + ['/'];
    } else {
      var n := |b| - 1;
      var b', c := b[..n], b[n];
      assert b == b' + [c];
      assert a + "/" + b == (a + "/" + b') + [c];
      SegmentsSnoc(a + "/" + b', c);
      SegmentsSnoc(b', c);
      SegmentsSlash(a, b');
      StepAppend(Segments(a), Segments(b'), c);
    }
  }

  /** A string without a slash is a single piece. */
  lemma {:induction false} SegmentsPlain(c: string)
    requires forall k :: 0 <= k < |c| ==> c[k] != '/'
    ensures Segments(c) == [c]
    decreases |c|
  {
    if c != [] {
      var n := |c| - 1;
      SegmentsPlain(c[..n]);
      assert c[..n] + [c[n]] == c;
    }
  }

  /** The components of `a/b` are those of a followed by those of b. */
  lemma PartsSlash(a: string, b: string)
    ensures Parts(a + "/" + b) == Parts(a) + Parts(b)
  {
    SegmentsSlash(a, b);
    KeepAppend(Segments(a), Segments(b));
  }

  /** A component is its own path. */
  lemma PartsOfPart(c: string)
    requires IsPart(c)
    ensures Parts(c) == [c]
  {
    SegmentsPlain(c);
    assert Keep([c]) == Keep([]) + [c];
  }

  /** Joined components start with the first component. */
  lemma {:induction false} JoinPartsStart(parts: seq<string>)
    requires parts != [] && parts[0] != []
    ensures JoinParts(parts) != [] && JoinParts(parts)[0] == parts[0][0]
    decreases |parts|
  {
    if |parts| > 1 {
      var init := parts[..|parts| - 1];
      JoinPartsStart(init);
      var j := JoinParts(init);
      assert JoinParts(parts) == j + ("/" + parts[|parts| - 1]);
    }
  }

  /** Joining components with slashes and reading them back gives the same
      components. */
  lemma {:induction false} PartsJoin(parts: seq<string>)
    requires forall k :: 0 <= k < |parts| ==> IsPart(parts[k])
    ensures Parts(JoinParts(parts)) == parts
    decreases |parts|
  {
    if |parts| == 1 {
      PartsOfPart(parts[0]);
    } else if |parts| > 1 {
      var init := parts[..|parts| - 1];
      assert forall k :: 0 <= k < |init| ==> init[k] == parts[k];
      PartsJoin(init);
      PartsJoinStep(parts);
    }
  }

  /** When all components but the last read back as themselves, all of
      them do. */
  lemma PartsJoinStep(parts: seq<string>)
    requires |parts| > 1 && IsPart(parts[|parts| - 1])
    requires Parts(JoinParts(parts[..|parts| - 1])) == parts[..|parts| - 1]
    ensures Parts(JoinParts(parts)) == parts
  {
    var init, last := parts[..|parts| - 1], parts[|parts| - 1];
    var j := JoinParts(init);
    assert JoinParts(parts) == j + "/" + last;
    PartsSlash(j, last);
    PartsOfPart(last);
    SplitLast(parts);
  }

  /** A non-empty sequence is its front followed by its last element. */
  lemma SplitLast<T>(s: seq<T>)
    requires s != []
    ensures s[..|s| - 1] + [s[|s| - 1]] == s
  {
  }

  /** Slashes in front of a path do not change its components. */
  lemma PartsAfterSlash(s: string)
    ensures Parts("/" + s) == Parts(s)
  {
    PartsSlash("", s);
    assert "" + "/" + s == "/" + s;
  }

  /** An anchor in front of a path that does not start with a slash is read
      back as that anchor. */
  lemma AnchorOf(anchor: string, j: string)
    requires IsAnchor(anchor) && (anchor != "" || j != [])
    requires j != [] ==> j[0] != '/'
    ensures Anchor(anchor + j) == anchor
  {
    var s := anchor + j;
    if anchor == "" {
      assert s == j;
    } else if anchor == "/" {
      assert j != [] ==> s[1] == j[0];
    } else {
      assert j != [] ==> s[2] == j[0];
    }
  }

  /** An anchor in front of a path does not change its components. */
  lemma PartsUnderAnchor(anchor: string, j: string)
    requires IsAnchor(anchor)
    ensures Parts(anchor + j) == Parts(j)
  {
    if anchor == "" {
      assert anchor + j == j;
    } else if anchor == "/" {
      PartsAfterSlash(j);
    } else {
      assert anchor + j == "/" + ("/" + j);
      PartsAfterSlash(j);
      PartsAfterSlash("/" + j);
    }
  }

  /** A path string is read back as the anchor and components it was built
      from. */
  lemma ParsePathString(anchor: string, parts: seq<string>)
    requires IsAnchor(anchor)
    requires forall k :: 0 <= k < |parts| ==> IsPart(parts[k])
    ensures Anchor(PathString(anchor, parts)) == anchor
    ensures Parts(PathString(anchor, parts)) == parts
  {
    if anchor == "" && parts == [] {
      DotHasNoParts();
    } else {
      var j := JoinParts(parts);
      PartsJoin(parts);
      if parts != [] {
        JoinPartsStart(parts);
      }
      AnchorOf(anchor, j);
      PartsUnderAnchor(anchor, j);
    }
  }

  /** "." has no components. */
  lemma DotHasNoParts()
    ensures Parts(".") == [] && Parts("") == []
  {
    SegmentsPlain(".");
    assert Keep(["."]) == Keep([]) + [];
  }

  /** `Path(s)` is a well-formed path object. */
  lemma ParseWellFormed(s: string)
    ensures WellFormed(ParsePath(s))
  {
    PartsAreParts(s);
  }

  /** `Path(str(p))` is p again: the printed form of a path object is read
      back as that object. */
  lemma ParseStr(p: Path)
    requires WellFormed(p)
    ensures ParsePath(PathStr(p)) == p
  {
    ParsePathString(p.anchor, p.parts);
  }

  /** `str(Path(dir) / name)` for a component name is `Join(dir, name)`. */
  lemma ChildJoin(dir: string, name: string)
    requires IsPart(name)
    ensures PathStr(Child(ParsePath(dir), name)) == Join(dir, name)
  {
    PartsOfPart(name);
  }

  /** `Path(path)` names the same path as path, and it is already in the form
      pathlib prints: normalizing twice changes nothing. */
  lemma NormalizeFacts(path: string)
    ensures Anchor(Normalize(path)) == Anchor(path)
    ensures Parts(Normalize(path)) == Parts(path)
    ensures Normalize(Normalize(path)) == Normalize(path)
  {
    PartsAreParts(path);
    ParsePathString(Anchor(path), Parts(path));
  }

  /** `Path(dir) / name` keeps the anchor of dir and appends the components of
      name; the result is in normal form. */
  lemma JoinFacts(dir: string, name: string)
    ensures Anchor(Join(dir, name)) == Anchor(dir)
    ensures Parts(Join(dir, name)) == Parts(dir) + Parts(name)
    ensures Normalize(Join(dir, name)) == Join(dir, name)
  {
    var parts := Parts(dir) + Parts(name);
    PartsAreParts(dir);
    PartsAreParts(name);
    assert forall k :: 0 <= k < |parts| ==> IsPart(parts[k]);
    ParsePathString(Anchor(dir), parts);
  }

  /** Below a directory in normal form that has a component, such as
      `data/organized`, joining adds one slash and the name. */
  lemma JoinNormal(dir: string, name: string)
    requires Normalize(dir) == dir && Parts(dir) != []
    requires IsPart(name)
    ensures Join(dir, name) == dir + "/" + name
  {
    var anchor, parts := Anchor(dir), Parts(dir);
    PartsOfPart(name);
    var n := |parts|;
    var all := parts + [name];
    assert all[..n] == parts && all[n] == name;
    assert JoinParts(all) == JoinParts(parts) + "/" + name;
  }

  /** A trailing slash on a directory that keeps its anchor, such as
      `data/organized/`, does not change what is joined below it. */
  lemma JoinDirSlash(dir: string, name: string)
    requires Anchor(dir + "/") == Anchor(dir)
    ensures Join(dir + "/", name) == Join(dir, name)
  {
    PartsTrailingSlash(dir);
  }

  /** Adding a slash keeps the anchor of a path that starts with a component
      or is longer than any anchor. */
  lemma AnchorTrailing(dir: string)
    requires |dir| >= 3 || (dir != [] && dir[0] != '/')
    ensures Anchor(dir + "/") == Anchor(dir)
  {
    var s := dir + "/";
    assert s[0] == dir[0];
    assert |dir| >= 2 ==> s[1] == dir[1];
    assert |dir| >= 3 ==> s[2] == dir[2];
  }

  /** Below the empty directory, the current one, joining gives the bare
      name: no leading slash. */
  lemma JoinEmpty(name: string)
    requires IsPart(name)
    ensures Join("", name) == name
  {
    PartsOfPart(name);
    DotHasNoParts();
    assert Parts("") + Parts(name) == [name];
  }

  // ---------------------------------------------------------------------
  // Name, suffix and stem
  // ---------------------------------------------------------------------

  /** `Path(path).name`: the last component, or "" when there is none. */
  function FileName(path: string): (name: string)
    ensures name == [] || IsPart(name)
  {
    var parts := Parts(path);
    PartsAreParts(path);
    if parts == [] then "" else parts[|parts| - 1]
  }

  /** The name of `dir / name` is name. */
  lemma FileNameJoin(dir: string, name: string)
    requires IsPart(name)
    ensures FileName(Join(dir, name)) == name
  {
    JoinFacts(dir, name);
    PartsOfPart(name);
  }

  /** A path that ends in a component after its last slash has that
      component as its name. */
  lemma FileNameLast(path: string)
    ensures IsPart(path[LastIndexOf(path, '/') + 1..]) ==> FileName(path) == path[LastIndexOf(path, '/') + 1..]
  {
    var i := LastIndexOf(path, '/');
    var last := path[i + 1..];
    if IsPart(last) {
      PartsOfPart(last);
      if i >= 0 {
        assert path == path[..i] + "/" + last;
        PartsSlash(path[..i], last);
      } else {
        assert path == last;
      }
    }
  }

  /** A trailing slash does not change the components of a path. */
  lemma PartsTrailingSlash(path: string)
    ensures Parts(path + "/") == Parts(path)
  {
    var s, none := path + "/" + "", Parts("");
    PartsSlash(path, "");
    DotHasNoParts();
    assert none == [];
    assert Parts(s) == Parts(path) + none;
    assert s == path + "/";
  }

  /** A trailing "/." does not change the components of a path. */
  lemma PartsTrailingDot(path: string)
    ensures Parts(path + "/.") == Parts(path)
  {
    var s, none := path + "/" + ".", Parts(".");
    PartsSlash(path, ".");
    DotHasNoParts();
    assert none == [];
    assert Parts(s) == Parts(path) + none;
    assert s == path + "/.";
  }

  /** A trailing slash does not change the name of a path. */
  lemma FileNameTrailing(path: string)
    ensures FileName(path + "/") == FileName(path)
  {
    PartsTrailingSlash(path);
  }

  /** `Path("sub.json/").name` is `sub.json`. */
  lemma FileNameExample()
    ensures FileName("sub.json/") == "sub.json"
  {
    PartsOfPart("sub.json");
    PartsSlash("sub.json", "");
    assert "sub.json/" == "sub.json" + "/" + "";
  }

  /** `Path.suffix`: the name from its last dot on, when that dot is neither
      the first nor the last character of the name, and "" otherwise. */
  function Suffix(name: string): (r: string)
    ensures |r| <= |name|
  {
    var i := LastIndexOf(name, '.');
    if 0 < i < |name| - 1 then seq(|name| - i, k requires 0 <= k < |name| - i => name[i + k]) else ""
  }

  /** `Path.stem`: the name without its extension. */
  function Stem(name: string): (r: string)
    ensures |r| <= |name|
  {
    var i := LastIndexOf(name, '.');
    if 0 < i < |name| - 1 then name[..i] else name
  }

  /** The extension is "" or a dot followed by at least one dot-free
      character; it ends the name and is shorter than the name; it is
      non-empty exactly when the last dot is neither the first nor the last
      character. */
  lemma SuffixFacts(name: string)
    ensures var r := Suffix(name);
      && (r == [] || (|r| >= 2 && r[0] == '.' && '.' !in r[1..]))
      && r == name[|name| - |r|..]
      && (r != [] ==> |r| < |name|)
      && (r == [] <==> !(0 < LastIndexOf(name, '.') < |name| - 1))
  {
    var i := LastIndexOf(name, '.');
    if 0 < i < |name| - 1 {
      assert forall k :: 1 <= k < |name| - i ==> name[i..][k] == name[i + k];
    }
  }

  /** The stem and the extension put back together give the name; the stem
      is a prefix of the name, and it is non-empty when there is an
      extension. */
  lemma StemSuffixSplit(name: string)
    ensures Stem(name) + Suffix(name) == name
    ensures Stem(name) == name[..|Stem(name)|]
    ensures Suffix(name) != [] ==> Stem(name) != []
  {
  }
}
