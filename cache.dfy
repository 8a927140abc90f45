/**
 * The change-detection cache: the record kept for every compiled source
 * (`CompileParameters`), its field-by-field equality, the four-line sidecar
 * file that `save_meta_file` writes next to the object file, the reader
 * `read_compile_parameters_from_file`, and `get_file_timestamp`.
 */
module Cache {
  import opened Results
  import opened Text
  import opened Decimal
  import opened Paths

  const MetafileExtension: string := ".meta"
  const ObjectFileExtension: string := ".o"

  /** One compiled source: project-relative source, object path, flattened flags, source timestamp. */
  datatype CompileParameters = CompileParameters(
    sourceFile: Path,
    objectFile: Path,
    compileFlags: string,
    sourceTimestamp: u64)

  /** `operator==` on `CompileParameters`: all four fields agree. */
  function Same(a: CompileParameters, b: CompileParameters): (r: bool)
    ensures r <==> a == b
  {
    a.sourceFile == b.sourceFile &&
    a.objectFile == b.objectFile &&
    a.compileFlags == b.compileFlags &&
    a.sourceTimestamp == b.sourceTimestamp
  }

  /** The sidecar that `save_meta_file` writes: the object file's name with ".meta" appended. */
  function SidecarName(objectFile: Path): Path
  {
    AppendToName(objectFile, MetafileExtension)
  }

  /** The sidecar text: source, object, flags and decimal timestamp, each on its own line. */
  function Serialize(p: CompileParameters): string
  {
    Render(p.sourceFile) + "\n" +
    Render(p.objectFile) + "\n" +
    p.compileFlags + "\n" +
    ToDecimal(p.sourceTimestamp as nat) + "\n"
  }

  /** Index of the first line break of `s`, or `|s|` when there is none. */
  function LineEnd(s: string): (k: nat)
    ensures k <= |s|
    ensures k < |s| ==> s[k] == '\n'
    ensures forall i :: 0 <= i < k ==> s[i] != '\n'
  {
    if s == [] || s[0] == '\n' then 0 else 1 + LineEnd(s[1..])
  }

  /**
   * `std::getline` on what is left of the file: fails only at the end of the
   * file; otherwise gives the text up to the next line break (or to the end)
   * and consumes the break.
   */
  function ReadLine(s: string): (r: Option<(string, string)>)
    ensures r.None? <==> s == []
    ensures r.Some? ==> '\n' !in r.value.0 && |r.value.1| < |s|
  {
    if s == [] then None
    else
      var k := LineEnd(s);
      Some((s[..k], if k < |s| then s[k + 1..] else []))
  }

  /** Why a sidecar cannot be read back. */
  datatype SidecarError =
    | MissingSourceLine        // exit(1)
    | MissingObjectLine        // exit(1)
    | MissingFlagsLine         // exit(1)
    | MissingTimestampLine     // exit(1)
    | BadTimestamp(reason: StoullError)  // stoull throws; nothing catches it

  /**
   * `read_compile_parameters_from_file` on the sidecar text: four lines in
   * order, each passed through `c_str()`; a missing line is fatal, and the
   * timestamp line goes through `stoull`.
   */
  function ReadSidecar(content: string): (r: Result<CompileParameters, SidecarError>)
    ensures content == [] ==> r == Failure(MissingSourceLine)
    ensures r.Success? ==> '\0' !in r.value.compileFlags && '\n' !in r.value.compileFlags
  {
    match ReadLine(content)
    case None => Failure(MissingSourceLine)
    case Some((sourceLine, rest1)) =>
      match ReadLine(rest1)
      case None => Failure(MissingObjectLine)
      case Some((objectLine, rest2)) =>
        match ReadLine(rest2)
        case None => Failure(MissingFlagsLine)
        case Some((flagsLine, rest3)) =>
          match ReadLine(rest3)
          case None => Failure(MissingTimestampLine)
          case Some((stampLine, _)) =>
            match Stoull(CStr(stampLine))
            case Failure(e) => Failure(BadTimestamp(e))
            case Success(stamp) =>
              Success(CompileParameters(Parse(CStr(sourceLine)), Parse(CStr(objectLine)), CStr(flagsLine), stamp))
  }

  /** A record whose paths and flags fit on one line each. */
  predicate Writable(p: CompileParameters) {
    WellFormed(p.sourceFile) && WellFormed(p.objectFile) && SafeText(p.compileFlags)
  }

  /** `getline` reads back one line written by `println`. */
  lemma ReadLineOf(line: string, rest: string)
    requires SafeText(line)
    ensures ReadLine(line + "\n" + rest) == Some((line, rest))
  {
    var s := line + "\n" + rest;
    assert s[|line|] == '\n';
    assert LineEnd(s) == |line|;
    assert s[..|line|] == line;
    assert s[|line| + 1..] == rest;
  }

  /** Lines written one after another, each followed by a line break. */
  function Unlines(lines: seq<string>): string
  {
    if lines == [] then [] else lines[0] + "\n" + Unlines(lines[1..])
  }

  /** Lines that each survive one line of a file and a trip through `c_str()`. */
  predicate SafeLines(lines: seq<string>) {
    forall i :: 0 <= i < |lines| ==> SafeText(lines[i])
  }

  /** `getline` on written lines gives the first line back, or fails when there is none. */
  lemma ReadLineUnlines(lines: seq<string>)
    requires SafeLines(lines)
    ensures lines == [] ==> ReadLine(Unlines(lines)) == None
    ensures lines != [] ==> ReadLine(Unlines(lines)) == Some((lines[0], Unlines(lines[1..])))
    ensures lines != [] ==> SafeLines(lines[1..])
  {
    if lines != [] {
      ReadLineOf(lines[0], Unlines(lines[1..]));
      assert forall i :: 0 <= i < |lines[1..]| ==> lines[1..][i] == lines[i + 1];
    }
  }

  /**
   * What the reader makes of a file of lines: with fewer than four lines it
   * names the first missing one; otherwise the first three lines are the
   * source, the object and the flags, and the fourth is the timestamp as
   * `stoull` reads it, any further lines being ignored.
   */
  lemma ReadSidecarLines(lines: seq<string>)
    requires SafeLines(lines)
    ensures |lines| == 0 ==> ReadSidecar(Unlines(lines)) == Failure(MissingSourceLine)
    ensures |lines| == 1 ==> ReadSidecar(Unlines(lines)) == Failure(MissingObjectLine)
    ensures |lines| == 2 ==> ReadSidecar(Unlines(lines)) == Failure(MissingFlagsLine)
    ensures |lines| == 3 ==> ReadSidecar(Unlines(lines)) == Failure(MissingTimestampLine)
    ensures |lines| >= 4 && Stoull(lines[3]).Failure? ==>
              ReadSidecar(Unlines(lines)) == Failure(BadTimestamp(Stoull(lines[3]).error))
    ensures |lines| >= 4 && Stoull(lines[3]).Success? ==>
              ReadSidecar(Unlines(lines)) == Success(CompileParameters(Parse(lines[0]), Parse(lines[1]), lines[2], Stoull(lines[3]).value))
  {
    ReadLineUnlines(lines);
    if |lines| >= 1 {
      var l1 := lines[1..];
      ReadLineUnlines(l1);
      CStrSafe(lines[0]);
      if |l1| >= 1 {
        var l2 := l1[1..];
        ReadLineUnlines(l2);
        CStrSafe(l1[0]);
        if |l2| >= 1 {
          var l3 := l2[1..];
          ReadLineUnlines(l3);
          CStrSafe(l2[0]);
          if |l3| >= 1 {
            CStrSafe(l3[0]);
            assert l1[0] == lines[1] && l2[0] == lines[2] && l3[0] == lines[3];
          }
        }
      }
    }
  }

  /**
   * Reading a sidecar written for a record gives back a record equal to it
   * under `operator==`, whenever its paths and flags fit on one line.
   */
  lemma ReadWritten(p: CompileParameters)
    requires Writable(p)
    ensures ReadSidecar(Serialize(p)) == Success(p)
  {
    var src, obj, stamp := Render(p.sourceFile), Render(p.objectFile), ToDecimal(p.sourceTimestamp as nat);
    RenderSafe(p.sourceFile);
    RenderSafe(p.objectFile);
    var rest3 := stamp + "\n";
    var rest2 := p.compileFlags + "\n" + rest3;
    var rest1 := obj + "\n" + rest2;
    assert Serialize(p) == src + "\n" + rest1;
    ReadLineOf(src, rest1);
    ReadLineOf(obj, rest2);
    ReadLineOf(p.compileFlags, rest3);
    assert SafeText(stamp);
    assert rest3 == stamp + "\n" + [];
    ReadLineOf(stamp, []);
    CStrSafe(src);
    CStrSafe(obj);
    CStrSafe(p.compileFlags);
    CStrSafe(stamp);
    ParseRender(p.sourceFile);
    ParseRender(p.objectFile);
    StoullDecimal(p.sourceTimestamp);
  }

  /**
   * `get_file_timestamp`: the modification time of the file the path names,
   * already cast to 64 bits, or 0 when there is no such file. `files` maps the
   * canonical path of every existing source to that time.
   */
  function Timestamp(cwd: Path, files: map<Path, u64>, source: Path): (t: u64)
    requires cwd.absolute
    ensures Canonical(cwd, source) !in files ==> t == 0
    ensures Canonical(cwd, source) in files ==> t == files[Canonical(cwd, source)]
  {
    var key := Canonical(cwd, source);
    if key in files then files[key] else 0
  }

  /** `remove_all(dir)` on the sidecars: every sidecar inside the directory disappears, every other one stays as it was. */
  function RemoveTree(sidecars: map<Path, string>, dir: Path): (r: map<Path, string>)
    ensures forall key :: key in r <==> key in sidecars && !Within(key, dir)
    ensures forall key :: key in r ==> r[key] == sidecars[key]
  {
    map key | key in sidecars && !Within(key, dir) :: sidecars[key]
  }

  /**
   * The sidecars after `save_meta_file` has written each record in turn
   * (`std::ofstream` truncates, so a later write of the same sidecar replaces
   * an earlier one).
   */
  function SaveEach(sidecars: map<Path, string>, written: seq<CompileParameters>): (r: map<Path, string>)
    ensures forall key :: key in sidecars ==> key in r
  {
    if written == [] then sidecars
    else
      var last := written[|written| - 1];
      SaveEach(sidecars, written[..|written| - 1])[SidecarName(last.objectFile) := Serialize(last)]
  }

  /** Writing one more record writes its sidecar over the ones written before. */
  lemma SaveEachSnoc(sidecars: map<Path, string>, written: seq<CompileParameters>, p: CompileParameters)
    ensures SaveEach(sidecars, written + [p]) == SaveEach(sidecars, written)[SidecarName(p.objectFile) := Serialize(p)]
  {
    assert (written + [p])[..|written|] == written;
  }

  /** No two written records share a sidecar unless they are the same record. */
  predicate ConsistentWrites(written: seq<CompileParameters>) {
    forall i, j :: 0 <= i < |written| && 0 <= j < |written| && SidecarName(written[i].objectFile) == SidecarName(written[j].objectFile) ==>
      written[i] == written[j]
  }

  /** After consistent writes, every written record's sidecar holds that record's text. */
  lemma {:induction false} SaveEachHolds(sidecars: map<Path, string>, written: seq<CompileParameters>, p: CompileParameters)
    requires ConsistentWrites(written) && p in written
    ensures SidecarName(p.objectFile) in SaveEach(sidecars, written)
    ensures SaveEach(sidecars, written)[SidecarName(p.objectFile)] == Serialize(p)
  {
    var last := written[|written| - 1];
    var init := written[..|written| - 1];
    if p != last {
      var i :| 0 <= i < |written| && written[i] == p;
      assert i < |written| - 1 && init[i] == p;
      assert ConsistentWrites(init) by {
        forall a, b | 0 <= a < |init| && 0 <= b < |init| && SidecarName(init[a].objectFile) == SidecarName(init[b].objectFile)
          ensures init[a] == init[b]
        {
          assert init[a] == written[a] && init[b] == written[b];
        }
      }
      SaveEachHolds(sidecars, init, p);
    }
  }

  /** A sidecar no written record names keeps its old content, and exists exactly when it existed before. */
  lemma {:induction false} SaveEachElsewhere(sidecars: map<Path, string>, written: seq<CompileParameters>, key: Path)
    requires forall i :: 0 <= i < |written| ==> SidecarName(written[i].objectFile) != key
    ensures key in SaveEach(sidecars, written) <==> key in sidecars
    ensures key in sidecars ==> SaveEach(sidecars, written)[key] == sidecars[key]
  {
    if written != [] {
      var init := written[..|written| - 1];
      assert forall i :: 0 <= i < |init| ==> init[i] == written[i];
      SaveEachElsewhere(sidecars, init, key);
    }
  }

  /**
   * A sidecar that only ever receives one record's text holds that text once
   * it was written, and its old content (or nothing) otherwise.
   */
  lemma SaveEachAt(sidecars: map<Path, string>, written: seq<CompileParameters>, p: CompileParameters)
    requires ConsistentWrites(written)
    requires forall i :: 0 <= i < |written| && SidecarName(written[i].objectFile) == SidecarName(p.objectFile) ==> written[i] == p
    ensures var key := SidecarName(p.objectFile);
            && (p in written ==> key in SaveEach(sidecars, written) && SaveEach(sidecars, written)[key] == Serialize(p))
            && (p !in written ==> (key in SaveEach(sidecars, written) <==> key in sidecars))
            && (p !in written && key in sidecars ==> SaveEach(sidecars, written)[key] == sidecars[key])
  {
    if p in written {
      SaveEachHolds(sidecars, written, p);
    } else {
      SaveEachElsewhere(sidecars, written, SidecarName(p.objectFile));
    }
  }
}
