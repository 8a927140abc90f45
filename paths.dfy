/**
 * `std::filesystem::path` as the build engine uses it: an optional root
 * followed by a sequence of names. Rendering and parsing follow `string()` and
 * the `path(const char*)` constructor; `/`, `parent_path`, `filename`, `stem`
 * and `+=` follow their lexical definitions. `canonical` and `relative` are
 * modelled as lexical normalisation against the current directory (symbolic
 * links are not modelled).
 */
module Paths {
  import opened Text

  datatype Path = Path(absolute: bool, segs: seq<string>)

  predicate IsSlash(c: char) {
    c == '/'
  }

  /** `path::string()`: the root, then the names separated by '/'. */
  function Render(p: Path): string
  {
    (if p.absolute then "/" else "") + Join(p.segs, '/')
  }

  /** `path(s)`: a leading '/' is the root; empty names between repeated slashes vanish. */
  function Parse(s: string): (p: Path)
    ensures p.absolute <==> |s| > 0 && s[0] == '/'
  {
    Path(|s| > 0 && s[0] == '/', NonEmpty(SplitWhere(s, IsSlash)))
  }

  /** A path whose names are non-empty, slash-free and fit on one line of a text file. */
  predicate WellFormed(p: Path) {
    forall i :: 0 <= i < |p.segs| ==> p.segs[i] != "" && NoSep(p.segs[i], IsSlash) && SafeText(p.segs[i])
  }

  /** Rendering a well-formed path and parsing the text gives the same path back. */
  lemma ParseRender(p: Path)
    requires WellFormed(p)
    ensures Parse(Render(p)) == p
  {
    var j := Join(p.segs, '/');
    var parts := SplitWhere(j, IsSlash);
    assert NonEmpty(parts) == p.segs by {
      if p.segs == [] {
        assert parts == [""];
      } else {
        SplitJoin(p.segs, '/', IsSlash);
        NonEmptyKeeps(p.segs);
      }
    }
    assert j != [] ==> j[0] == p.segs[0][0] by {
      if |p.segs| > 1 {
        assert j == p.segs[0] + ['/'] + Join(p.segs[1..], '/');
      }
    }
    if p.absolute {
      var s := "/" + j;
      assert s[1..] == j;
      assert SplitWhere(s, IsSlash) == [""] + parts;
      assert ([""] + parts)[1..] == parts;
      assert NonEmpty([""] + parts) == NonEmpty(parts);
    } else {
      assert Render(p) == j;
    }
  }

  /** The text of a well-formed path is line-safe. */
  lemma RenderSafe(p: Path)
    requires WellFormed(p)
    ensures SafeText(Render(p))
  {
    JoinSafe(p.segs, '/');
  }

  /** `a / b`: a relative `b` is appended to `a`, an absolute `b` replaces it. */
  function Combine(a: Path, b: Path): Path
  {
    if b.absolute then b else Path(a.absolute, a.segs + b.segs)
  }

  /** `parent_path()`: everything but the last name. */
  function Parent(p: Path): Path
  {
    Path(p.absolute, if p.segs == [] then [] else p.segs[..|p.segs| - 1])
  }

  /** The parent followed by the file name is the path again. */
  lemma ParentFilename(p: Path)
    requires p.segs != []
    ensures Combine(Parent(p), Filename(p)) == p
  {
    assert p.segs[..|p.segs| - 1] + [p.segs[|p.segs| - 1]] == p.segs;
  }

  /** `filename()`: the last name alone, as a relative path (empty when there is none). */
  function Filename(p: Path): (f: Path)
    ensures !f.absolute && |f.segs| <= 1
    ensures p.segs == [] ==> f.segs == []
    ensures p.segs != [] ==> f.segs == [p.segs[|p.segs| - 1]]
  {
    Path(false, if p.segs == [] then [] else [p.segs[|p.segs| - 1]])
  }

  /** `path{p.string() + suffix}` and `p += suffix` for a slash-free suffix: the suffix extends the last name. */
  function AppendToName(p: Path, suffix: string): (r: Path)
    ensures r.absolute == p.absolute && |r.segs| == if p.segs == [] then 1 else |p.segs|
  {
    if p.segs == [] then Path(p.absolute, [suffix])
    else Path(p.absolute, p.segs[..|p.segs| - 1] + [p.segs[|p.segs| - 1] + suffix])
  }

  /**
   * Appending to the name keeps the root and the leading names, extends the
   * last name (or makes the suffix the only name), and so extends the text
   * of a path with a name by exactly the suffix.
   */
  lemma AppendToNameText(p: Path, suffix: string)
    ensures var r := AppendToName(p, suffix);
            && (p.segs == [] ==> r.segs == [suffix])
            && (p.segs != [] ==> r.segs[..|p.segs| - 1] == p.segs[..|p.segs| - 1] && r.segs[|p.segs| - 1] == p.segs[|p.segs| - 1] + suffix)
            && (p.segs != [] ==> Render(r) == Render(p) + suffix)
  {
    if p.segs != [] {
      JoinExtendLast(p.segs, suffix, '/');
    }
  }

  /** Index of the last '.' in `s`, if any. */
  function LastDot(s: string): (k: int)
    ensures -1 <= k < |s|
    ensures k >= 0 ==> s[k] == '.'
    ensures forall i :: k < i < |s| ==> s[i] != '.'
  {
    if s == [] then -1
    else if s[|s| - 1] == '.' then |s| - 1
    else LastDot(s[..|s| - 1])
  }

  /**
   * `path::stem()` of a file name: the name without its last extension; "."
   * and ".." and ".name" are their own stems. What is cut off is exactly the
   * last "." and what follows it.
   */
  function Stem(name: string): (r: string)
    ensures |r| <= |name| && r == name[..|r|]
    ensures r != name ==> name[|r|] == '.' && forall i :: |r| < i < |name| ==> name[i] != '.'
    ensures r != name ==> 0 < |r|
  {
    var k := LastDot(name);
    if name == "." || name == ".." || k <= 0 then name else name[..k]
  }

  /** A name that lexical normalisation leaves in place. */
  predicate NormalName(s: string) {
    s != "" && s != "." && s != ".."
  }

  predicate NormalNames(segs: seq<string>) {
    forall i :: 0 <= i < |segs| ==> NormalName(segs[i])
  }

  /** An absolute path with no ".", ".." or empty names. */
  predicate IsCanonical(p: Path) {
    p.absolute && NormalNames(p.segs)
  }

  /**
   * Lexical normalisation of the names `rest` onto the already normal names
   * in `done`: "." and empty names vanish, ".." removes the previous name, and
   * above the root of an absolute path ".." vanishes as well.
   */
  function NormalizeNames(done: seq<string>, rest: seq<string>, absolute: bool): (r: seq<string>)
    requires absolute ==> NormalNames(done)
    ensures absolute ==> NormalNames(r)
    decreases |rest|
  {
    if rest == [] then done
    else
      var s := rest[0];
      if s == "." || s == "" then NormalizeNames(done, rest[1..], absolute)
      else if s == ".." then
        if done != [] && done[|done| - 1] != ".." then NormalizeNames(done[..|done| - 1], rest[1..], absolute)
        else if absolute then NormalizeNames(done, rest[1..], absolute)
        else NormalizeNames(done + [".."], rest[1..], absolute)
      else NormalizeNames(done + [s], rest[1..], absolute)
  }

  function Normalize(p: Path): (r: Path)
    ensures r.absolute == p.absolute
    ensures p.absolute ==> IsCanonical(r)
  {
    Path(p.absolute, NormalizeNames([], p.segs, p.absolute))
  }

  /** Names that are already normal are kept as they are. */
  lemma {:induction false} NormalizeNamesKeeps(done: seq<string>, rest: seq<string>, absolute: bool)
    requires NormalNames(done) && NormalNames(rest)
    ensures NormalizeNames(done, rest, absolute) == done + rest
    decreases |rest|
  {
    if rest != [] {
      NormalizeNamesKeeps(done + [rest[0]], rest[1..], absolute);
      assert done + [rest[0]] + rest[1..] == done + rest;
    }
  }

  /** `canonical(p)` with the current directory `cwd`: `p` made absolute, then normalised. */
  function Canonical(cwd: Path, p: Path): (r: Path)
    requires cwd.absolute
    ensures IsCanonical(r)
  {
    Normalize(if p.absolute then p else Combine(cwd, p))
  }

  /** Canonicalising a path that already is canonical changes nothing. */
  lemma CanonicalKeeps(cwd: Path, p: Path)
    requires cwd.absolute && IsCanonical(p)
    ensures Canonical(cwd, p) == p
  {
    NormalizeNamesKeeps([], p.segs, true);
  }

  /** A canonical directory followed by normal relative names is canonical as it stands. */
  lemma CanonicalUnder(cwd: Path, dir: Path, names: seq<string>)
    requires cwd.absolute && IsCanonical(dir) && NormalNames(names)
    ensures Canonical(cwd, Path(true, dir.segs + names)) == Path(true, dir.segs + names)
  {
    CanonicalKeeps(cwd, Path(true, dir.segs + names));
  }

  /** `p` is `dir` itself or lies below it. */
  predicate Within(p: Path, dir: Path) {
    p.absolute == dir.absolute && |dir.segs| <= |p.segs| && p.segs[..|dir.segs|] == dir.segs
  }

  /** Length of the longest common prefix of two name sequences. */
  function CommonPrefix(x: seq<string>, y: seq<string>): (k: nat)
    ensures k <= |x| && k <= |y| && x[..k] == y[..k]
    ensures k < |x| && k < |y| ==> x[k] != y[k]
  {
    if x == [] || y == [] || x[0] != y[0] then 0
    else
      var k := 1 + CommonPrefix(x[1..], y[1..]);
      assert x[..k] == [x[0]] + x[1..][..k - 1];
      assert y[..k] == [y[0]] + y[1..][..k - 1];
      k
  }

  /**
   * `relative(p, base)`: both are canonicalised, the common leading names are
   * dropped, and one ".." is put for every remaining name of `base`; equal
   * paths give ".".
   */
  function Relative(cwd: Path, p: Path, base: Path): (r: Path)
    requires cwd.absolute
    ensures !r.absolute
  {
    var a := Canonical(cwd, p).segs;
    var b := Canonical(cwd, base).segs;
    var k := CommonPrefix(a, b);
    var names := seq(|b| - k, _ => "..") + a[k..];
    Path(false, if names == [] then ["."] else names)
  }

  /** A path below `base`, by normal names, is relative to `base` by exactly those names. */
  lemma RelativeBelow(cwd: Path, base: Path, names: seq<string>)
    requires cwd.absolute && IsCanonical(base) && NormalNames(names) && names != []
    ensures Relative(cwd, Path(true, base.segs + names), base) == Path(false, names)
  {
    var p := Path(true, base.segs + names);
    CanonicalUnder(cwd, base, names);
    CanonicalKeeps(cwd, base);
    assert p.segs[|base.segs|..] == names;
  }
}
