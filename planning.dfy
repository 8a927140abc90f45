/**
 * Planning, as pure functions: how `prepare_file_compilation` derives the
 * object and sidecar paths of a source and decides whether it is stale, how
 * the per-target build-state table is looked up or extended, how
 * `prepare_target_compilation` folds that over the sources of a target, and
 * which link parameters `prepare_target_linking` produces. The methods of
 * `Session` that change the table are proved equal to these functions.
 */
module Planning {
  import opened Results
  import opened Text
  import opened Decimal
  import opened Paths
  import opened Cache

  datatype TargetKind = Executable | StaticLib

  /** A build unit as the caller declared it: name, kind, sources and compile flags in order. */
  datatype Target = Target(name: string, kind: TargetKind, sources: seq<Path>, compileFlags: seq<string>)

  datatype Status = Pending | Running | Completed | Failed

  datatype CompileJob = CompileJob(params: CompileParameters, status: Status)

  datatype LinkParameters = LinkParameters(objectFiles: seq<Path>, targetFile: Path, linkFlags: string)

  datatype LinkJob = LinkJob(params: LinkParameters, status: Status)

  /** One row of the build-state table, found by target name. */
  datatype BuildState = BuildState(name: string, compileJobs: seq<CompileJob>, linkJob: LinkJob, needsLinking: bool)

  /** The link job a new row starts with: `LinkJob{LinkParameters{}}`. */
  const NoLinkJob: LinkJob := LinkJob(LinkParameters([], Path(false, []), ""), Pending)

  const CurrentDirectory: Path := Path(false, ["."])

  /** The directories the engine works with: the process's current directory, the project directory and the build directory. */
  datatype Layout = Layout(cwd: Path, projectDir: Path, buildDir: Path) {
    /** `current_path()` is absolute and has no "." or ".." names. */
    predicate Valid() {
      IsCanonical(cwd)
    }
  }

  // ---------------------------------------------------------------------
  // The build-state table
  // ---------------------------------------------------------------------

  /** Position of the first row named `name`, as the loop of `get_target_build_state` finds it. */
  function FindState(states: seq<BuildState>, name: string): (r: Option<nat>)
    ensures r.Some? ==> r.value < |states| && states[r.value].name == name
    ensures r.Some? ==> forall j :: 0 <= j < r.value ==> states[j].name != name
    ensures r.None? ==> forall j :: 0 <= j < |states| ==> states[j].name != name
  {
    if states == [] then None
    else if states[0].name == name then Some(0)
    else
      match FindState(states[1..], name)
      case None => None
      case Some(i) => Some(i + 1)
  }

  /** The row for `name`, if there is one. */
  function EntryOf(states: seq<BuildState>, name: string): Option<BuildState>
  {
    match FindState(states, name)
    case None => None
    case Some(i) => Some(states[i])
  }

  /** The compile jobs recorded for `name` (none without a row). */
  function JobsFor(states: seq<BuildState>, name: string): seq<CompileJob>
  {
    match EntryOf(states, name)
    case None => []
    case Some(e) => e.compileJobs
  }

  /** Two tables whose rows carry the same names in the same order find the same row for every name. */
  lemma SameNamesSameRow(a: seq<BuildState>, b: seq<BuildState>, name: string)
    requires |a| == |b| && forall j :: 0 <= j < |a| ==> a[j].name == b[j].name
    ensures FindState(a, name) == FindState(b, name)
  {
  }

  /**
   * Lines 350-352 of `prepare_file_compilation`: look the target's row up
   * (appending a new one when there is none), append a pending compile job to
   * it and set `needs_linking`. No other row changes.
   */
  function AddJob(states: seq<BuildState>, name: string, p: CompileParameters): (r: seq<BuildState>)
    ensures EntryOf(r, name).Some?
    ensures EntryOf(r, name).value.compileJobs == JobsFor(states, name) + [CompileJob(p, Pending)]
    ensures EntryOf(r, name).value.needsLinking
    ensures EntryOf(states, name).Some? ==> EntryOf(r, name).value.linkJob == EntryOf(states, name).value.linkJob
    ensures EntryOf(states, name).None? ==> r == states + [EntryOf(r, name).value]
    ensures forall other :: other != name ==> EntryOf(r, other) == EntryOf(states, other)
  {
    var job := CompileJob(p, Pending);
    match FindState(states, name)
    case Some(i) =>
      var r := states[i := states[i].(compileJobs := states[i].compileJobs + [job], needsLinking := true)];
      forall other | other != name
        ensures EntryOf(r, other) == EntryOf(states, other)
      {
        SameNamesSameRow(r, states, other);
      }
      SameNamesSameRow(r, states, name);
      r
    case None =>
      var r := states + [BuildState(name, [job], NoLinkJob, true)];
      assert r[|states|].name == name;
      forall other | other != name
        ensures EntryOf(r, other) == EntryOf(states, other)
      {
        var f := FindState(states, other);
        if f.Some? {
          assert r[f.value] == states[f.value];
        }
      }
      r
  }

  // ---------------------------------------------------------------------
  // Paths derived for a source (prepare_file_compilation, nobs.hpp lines 300-331)
  // ---------------------------------------------------------------------

  /** `relative_source_path`: an absolute source is made relative to the project directory, a relative one is kept as spelled. */
  function RelativeSource(lay: Layout, source: Path): Path
    requires lay.Valid()
  {
    if source.absolute then Relative(lay.cwd, source, lay.projectDir) else source
  }

  /** `build_source_path`: the directory of the mirrored source under the build directory, or "." in place. */
  function BuildSourcePath(lay: Layout, inBuildDir: bool, source: Path): Path
    requires lay.Valid()
  {
    if inBuildDir then Parent(Combine(Canonical(lay.cwd, lay.buildDir), RelativeSource(lay, source)))
    else CurrentDirectory
  }

  /** `object_file`: the source's file name plus ".o", in the canonical `build_source_path`. */
  function CompileObject(lay: Layout, inBuildDir: bool, source: Path): Path
    requires lay.Valid()
  {
    AppendToName(Combine(Canonical(lay.cwd, BuildSourcePath(lay, inBuildDir, source)), Filename(source)), ObjectFileExtension)
  }

  /** In either mode the object is an absolute path whose last name is the source's file name plus ".o". */
  lemma CompileObjectName(lay: Layout, inBuildDir: bool, source: Path)
    requires lay.Valid() && source.segs != []
    ensures var r := CompileObject(lay, inBuildDir, source);
            r.absolute && |r.segs| > 0 && r.segs[|r.segs| - 1] == source.segs[|source.segs| - 1] + ObjectFileExtension
  {
  }

  /**
   * `get_file_metafile_name(object_file, build_source_path)`: the object's
   * file name plus ".meta" in the same directory. For every source with a
   * file name this is exactly the name `save_meta_file` writes.
   */
  function MetafileName(lay: Layout, inBuildDir: bool, source: Path): (r: Path)
    requires lay.Valid()
    ensures source.segs != [] ==> r == SidecarName(CompileObject(lay, inBuildDir, source))
  {
    var dir := Canonical(lay.cwd, BuildSourcePath(lay, inBuildDir, source));
    AppendToName(Combine(dir, Filename(CompileObject(lay, inBuildDir, source))), MetafileExtension)
  }

  /** `new_compile_parameters`: the record the sidecar must match for the source to be up to date. */
  function FreshParams(lay: Layout, files: map<Path, u64>, flags: string, inBuildDir: bool, source: Path): CompileParameters
    requires lay.Valid()
  {
    CompileParameters(RelativeSource(lay, source), CompileObject(lay, inBuildDir, source), flags, Timestamp(lay.cwd, files, source))
  }

  /** A relative source with at least one name and no ".", ".." or empty names. */
  predicate NormalRelative(source: Path) {
    !source.absolute && source.segs != [] && NormalNames(source.segs)
  }

  /** The names of the object in build-directory mode: the relative source under the build directory, last name plus ".o". */
  lemma ObjectUnderBuildDir(lay: Layout, source: Path)
    requires lay.Valid() && NormalRelative(source)
    ensures var b := Canonical(lay.cwd, lay.buildDir).segs;
            var n := |source.segs|;
            CompileObject(lay, true, source) == Path(true, b + source.segs[..n - 1] + [source.segs[n - 1] + ObjectFileExtension])
  {
    var b := Canonical(lay.cwd, lay.buildDir);
    var n := |source.segs|;
    assert source.segs[..n - 1] + [source.segs[n - 1]] == source.segs;
    assert BuildSourcePath(lay, true, source) == Path(true, b.segs + source.segs[..n - 1]);
    assert NormalNames(source.segs[..n - 1]);
    CanonicalUnder(lay.cwd, b, source.segs[..n - 1]);
  }

  /** A directory, some names and a last name with a fixed suffix determine the names and the last name. */
  lemma SuffixedNamesInjective(b: seq<string>, a1: seq<string>, x1: string, a2: seq<string>, x2: string, suffix: string)
    requires b + a1 + [x1 + suffix] == b + a2 + [x2 + suffix]
    ensures a1 + [x1] == a2 + [x2]
  {
    var l1, l2 := b + a1 + [x1 + suffix], b + a2 + [x2 + suffix];
    assert |a1| == |a2|;
    assert a1 == l1[|b|..|l1| - 1];
    assert a2 == l2[|b|..|l2| - 1];
    assert l1[|l1| - 1] == x1 + suffix && l2[|l2| - 1] == x2 + suffix;
    assert x1 == (x1 + suffix)[..|x1|];
    assert x2 == (x2 + suffix)[..|x2|];
  }

  /** The names of the sidecar in build-directory mode: the object's names with ".meta" after ".o". */
  lemma MetafileUnderBuildDir(lay: Layout, source: Path)
    requires lay.Valid() && NormalRelative(source)
    ensures var b := Canonical(lay.cwd, lay.buildDir).segs;
            var n := |source.segs|;
            MetafileName(lay, true, source) == Path(true, b + source.segs[..n - 1] + [source.segs[n - 1] + (ObjectFileExtension + MetafileExtension)])
  {
    var b := Canonical(lay.cwd, lay.buildDir).segs;
    var n := |source.segs|;
    var o := CompileObject(lay, true, source);
    ObjectUnderBuildDir(lay, source);
    assert o.segs[..|o.segs| - 1] == b + source.segs[..n - 1];
    assert source.segs[n - 1] + ObjectFileExtension + MetafileExtension == source.segs[n - 1] + (ObjectFileExtension + MetafileExtension);
  }

  /**
   * In build-directory mode, two different normal relative sources get two
   * different object files and two different sidecars, so `subdir/bar.cpp`
   * and `subdir2/bar.cpp` never share a cache entry.
   */
  lemma DistinctObjects(lay: Layout, s1: Path, s2: Path)
    requires lay.Valid() && NormalRelative(s1) && NormalRelative(s2) && s1 != s2
    ensures CompileObject(lay, true, s1) != CompileObject(lay, true, s2)
    ensures MetafileName(lay, true, s1) != MetafileName(lay, true, s2)
  {
    var b := Canonical(lay.cwd, lay.buildDir).segs;
    var n1, n2 := |s1.segs|, |s2.segs|;
    var a1, a2 := s1.segs[..n1 - 1], s2.segs[..n2 - 1];
    var x1, x2 := s1.segs[n1 - 1], s2.segs[n2 - 1];
    assert s1.segs == a1 + [x1] && s2.segs == a2 + [x2];
    ObjectUnderBuildDir(lay, s1);
    ObjectUnderBuildDir(lay, s2);
    MetafileUnderBuildDir(lay, s1);
    MetafileUnderBuildDir(lay, s2);
    if CompileObject(lay, true, s1) == CompileObject(lay, true, s2) {
      SuffixedNamesInjective(b, a1, x1, a2, x2, ObjectFileExtension);
    }
    if MetafileName(lay, true, s1) == MetafileName(lay, true, s2) {
      SuffixedNamesInjective(b, a1, x1, a2, x2, ObjectFileExtension + MetafileExtension);
    }
  }

  /**
   * An absolute source inside the project directory and its project-relative
   * spelling get the same record and the same sidecar, when the engine runs in
   * the project directory (the default, `project_directory = current_path()`).
   */
  lemma SpellingsAgree(lay: Layout, files: map<Path, u64>, flags: string, inBuildDir: bool, source: Path)
    requires lay.Valid() && lay.projectDir == lay.cwd && NormalRelative(source)
    ensures var absolute := Path(true, lay.cwd.segs + source.segs);
            FreshParams(lay, files, flags, inBuildDir, absolute) == FreshParams(lay, files, flags, inBuildDir, source) &&
            MetafileName(lay, inBuildDir, absolute) == MetafileName(lay, inBuildDir, source)
  {
    var absolute := Path(true, lay.cwd.segs + source.segs);
    RelativeBelow(lay.cwd, lay.cwd, source.segs);
    CanonicalUnder(lay.cwd, lay.cwd, source.segs);
    assert Canonical(lay.cwd, source) == Canonical(lay.cwd, absolute);
  }

  // ---------------------------------------------------------------------
  // The stale/fresh decision and the planning fold
  // ---------------------------------------------------------------------

  /**
   * Lines 340-347: with no sidecar the source is stale; with one, it is read
   * (a malformed one is fatal) and the source is up to date exactly when the
   * stored record equals the fresh one under `operator==`.
   * `Success(true)` means up to date.
   */
  function CheckCache(sidecars: map<Path, string>, meta: Path, current: CompileParameters): (r: Result<bool, SidecarError>)
    ensures meta !in sidecars ==> r == Success(false)
    ensures r == Success(true) <==> meta in sidecars && ReadSidecar(sidecars[meta]) == Success(current)
    ensures r == Success(false) <==> meta !in sidecars || (ReadSidecar(sidecars[meta]).Success? && ReadSidecar(sidecars[meta]).value != current)
  {
    if meta !in sidecars then Success(false)
    else
      match ReadSidecar(sidecars[meta])
      case Failure(e) => Failure(e)
      case Success(stored) => Success(Same(stored, current))
  }

  /** What `prepare_file_compilation` learns about one source: its fresh record and the cache's verdict on it. */
  datatype Check = Check(current: CompileParameters, verdict: Result<bool, SidecarError>)

  function CheckSource(sidecars: map<Path, string>, files: map<Path, u64>, lay: Layout,
                       flags: string, inBuildDir: bool, source: Path): (c: Check)
    requires lay.Valid()
  {
    var current := FreshParams(lay, files, flags, inBuildDir, source);
    Check(current, CheckCache(sidecars, MetafileName(lay, inBuildDir, source), current))
  }

  /** The checks of all sources, in source order (the sidecars do not change while a target is planned). */
  function Checks(sidecars: map<Path, string>, files: map<Path, u64>, lay: Layout,
                  flags: string, inBuildDir: bool, sources: seq<Path>): (r: seq<Check>)
    requires lay.Valid()
    ensures |r| == |sources|
    ensures forall k :: 0 <= k < |sources| ==> r[k] == CheckSource(sidecars, files, lay, flags, inBuildDir, sources[k])
  {
    seq(|sources|, k requires 0 <= k < |sources| => CheckSource(sidecars, files, lay, flags, inBuildDir, sources[k]))
  }

  /** The end of `prepare_file_compilation`: a fatal error, the table untouched, or one more pending job. */
  function PlanStep(states: seq<BuildState>, name: string, c: Check): Result<seq<BuildState>, SidecarError>
  {
    match c.verdict
    case Failure(e) => Failure(e)
    case Success(upToDate) => Success(if upToDate then states else AddJob(states, name, c.current))
  }

  /** The loop of `prepare_target_compilation`, stopping at the first fatal error. */
  function PlanAll(states: seq<BuildState>, name: string, checks: seq<Check>): Result<seq<BuildState>, SidecarError>
    decreases |checks|
  {
    if checks == [] then Success(states)
    else
      match PlanStep(states, name, checks[0])
      case Failure(e) => Failure(e)
      case Success(next) => PlanAll(next, name, checks[1..])
  }

  /** `prepare_file_compilation` for one source. */
  function PlanFile(states: seq<BuildState>, sidecars: map<Path, string>, files: map<Path, u64>, lay: Layout,
                    name: string, flags: string, inBuildDir: bool, source: Path): Result<seq<BuildState>, SidecarError>
    requires lay.Valid()
  {
    PlanStep(states, name, CheckSource(sidecars, files, lay, flags, inBuildDir, source))
  }

  /** `prepare_target_compilation` over the given sources with the flags already joined. */
  function PlanFiles(states: seq<BuildState>, sidecars: map<Path, string>, files: map<Path, u64>, lay: Layout,
                     name: string, flags: string, inBuildDir: bool, sources: seq<Path>): Result<seq<BuildState>, SidecarError>
    requires lay.Valid()
    decreases |sources|
  {
    if sources == [] then Success(states)
    else
      match PlanFile(states, sidecars, files, lay, name, flags, inBuildDir, sources[0])
      case Failure(e) => Failure(e)
      case Success(next) => PlanFiles(next, sidecars, files, lay, name, flags, inBuildDir, sources[1..])
  }

  /** Planning the sources one by one is the fold of `PlanStep` over their checks. */
  lemma {:induction false} PlanFilesChecks(states: seq<BuildState>, sidecars: map<Path, string>, files: map<Path, u64>, lay: Layout,
                                          name: string, flags: string, inBuildDir: bool, sources: seq<Path>)
    requires lay.Valid()
    ensures PlanFiles(states, sidecars, files, lay, name, flags, inBuildDir, sources) ==
            PlanAll(states, name, Checks(sidecars, files, lay, flags, inBuildDir, sources))
    decreases |sources|
  {
    if sources != [] {
      var checks := Checks(sidecars, files, lay, flags, inBuildDir, sources);
      assert checks[1..] == Checks(sidecars, files, lay, flags, inBuildDir, sources[1..]);
      match PlanFile(states, sidecars, files, lay, name, flags, inBuildDir, sources[0])
      case Failure(e) =>
      case Success(next) =>
        PlanFilesChecks(next, sidecars, files, lay, name, flags, inBuildDir, sources[1..]);
    }
  }

  /** The fresh records of the stale sources, in source order. */
  function StaleRecords(checks: seq<Check>): seq<CompileParameters>
  {
    if checks == [] then []
    else (if checks[0].verdict == Success(false) then [checks[0].current] else []) + StaleRecords(checks[1..])
  }

  /** Pending compile jobs for the given records, in order. */
  function AsPending(ps: seq<CompileParameters>): (r: seq<CompileJob>)
    ensures |r| == |ps| && forall k :: 0 <= k < |ps| ==> r[k] == CompileJob(ps[k], Pending)
  {
    if ps == [] then [] else [CompileJob(ps[0], Pending)] + AsPending(ps[1..])
  }

  /**
   * `after` is `before` with `added` appended to the compile jobs of the row
   * named `name`, every other row untouched, the table itself untouched when
   * nothing was added, and `needs_linking` set on the row when something was.
   */
  ghost predicate Appended(before: seq<BuildState>, after: seq<BuildState>, name: string, added: seq<CompileJob>) {
    && JobsFor(after, name) == JobsFor(before, name) + added
    && (forall other :: other != name ==> EntryOf(after, other) == EntryOf(before, other))
    && (added == [] ==> after == before)
    && (added != [] ==> EntryOf(after, name).Some? && EntryOf(after, name).value.needsLinking)
  }

  /** Appending in two steps is appending the concatenation. */
  lemma AppendedTwice(s0: seq<BuildState>, s1: seq<BuildState>, s2: seq<BuildState>, name: string, a: seq<CompileJob>, b: seq<CompileJob>)
    requires Appended(s0, s1, name, a) && Appended(s1, s2, name, b)
    ensures Appended(s0, s2, name, a + b)
  {
    if b == [] {
      assert a + b == a;
    }
    if a == [] {
      assert a + b == b;
    }
  }

  /** One source: a stale one appends its pending job to the target's row, an up-to-date one changes nothing. */
  lemma PlanStepAppends(states: seq<BuildState>, name: string, c: Check)
    requires PlanStep(states, name, c).Success?
    ensures Appended(states, PlanStep(states, name, c).value, name, AsPending(StaleRecords([c])))
  {
    assert [c][1..] == [];
    if c.verdict == Success(false) {
      assert StaleRecords([c]) == [c.current];
    } else {
      assert StaleRecords([c]) == [];
    }
  }

  lemma AsPendingAppend(a: seq<CompileParameters>, b: seq<CompileParameters>)
    ensures AsPending(a + b) == AsPending(a) + AsPending(b)
  {
  }

  /**
   * What planning a target does to the table: the target's row gains one
   * pending compile job per stale source, in source order, and nothing else;
   * `needs_linking` is set when there was at least one; when no source is
   * stale the table is not touched at all, not even by a new row.
   */
  lemma {:induction false} PlanAllAppends(states: seq<BuildState>, name: string, checks: seq<Check>)
    requires PlanAll(states, name, checks).Success?
    ensures Appended(states, PlanAll(states, name, checks).value, name, AsPending(StaleRecords(checks)))
    decreases |checks|
  {
    if checks == [] {
      assert AsPending([]) == [];
    } else {
      var next := PlanStep(states, name, checks[0]).value;
      assert [checks[0]][1..] == [];
      assert StaleRecords(checks) == StaleRecords([checks[0]]) + StaleRecords(checks[1..]);
      PlanStepAppends(states, name, checks[0]);
      PlanAllAppends(next, name, checks[1..]);
      AppendedTwice(states, next, PlanAll(states, name, checks).value, name,
                    AsPending(StaleRecords([checks[0]])), AsPending(StaleRecords(checks[1..])));
      AsPendingAppend(StaleRecords([checks[0]]), StaleRecords(checks[1..]));
    }
  }

  /** At most one record per check is stale. */
  lemma {:induction false} StaleRecordsLength(checks: seq<Check>)
    ensures |StaleRecords(checks)| <= |checks|
    decreases |checks|
  {
    if checks != [] {
      StaleRecordsLength(checks[1..]);
    }
  }

  /**
   * Planning a target's sources, when no sidecar is malformed, appends one
   * pending job per stale source to the target's row, so at most one per
   * source, and changes no other row.
   */
  lemma PlanFilesJobs(states: seq<BuildState>, sidecars: map<Path, string>, files: map<Path, u64>, lay: Layout,
                      name: string, flags: string, inBuildDir: bool, sources: seq<Path>)
    requires lay.Valid()
    requires PlanFiles(states, sidecars, files, lay, name, flags, inBuildDir, sources).Success?
    ensures var stale := StaleRecords(Checks(sidecars, files, lay, flags, inBuildDir, sources));
            && Appended(states, PlanFiles(states, sidecars, files, lay, name, flags, inBuildDir, sources).value, name, AsPending(stale))
            && |stale| <= |sources|
  {
    var checks := Checks(sidecars, files, lay, flags, inBuildDir, sources);
    PlanFilesChecks(states, sidecars, files, lay, name, flags, inBuildDir, sources);
    PlanAllAppends(states, name, checks);
    StaleRecordsLength(checks);
  }

  /** Planning one more source continues from the table planning the earlier ones gave. */
  lemma {:induction false} PlanAllSnoc(states: seq<BuildState>, name: string, checks: seq<Check>, c: Check)
    ensures PlanAll(states, name, checks + [c]) ==
            match PlanAll(states, name, checks)
            case Failure(e) => Failure(e)
            case Success(st) => PlanStep(st, name, c)
    decreases |checks|
  {
    if checks == [] {
      assert checks + [c] == [c];
      assert [c][1..] == [];
    } else {
      assert (checks + [c])[0] == checks[0];
      assert (checks + [c])[1..] == checks[1..] + [c];
      match PlanStep(states, name, checks[0])
      case Failure(e) =>
      case Success(next) =>
        PlanAllSnoc(next, name, checks[1..], c);
    }
  }

  /** Once a source's sidecar is malformed, the later sources are not looked at: the same error ends the whole fold. */
  lemma {:induction false} PlanAllFailureStops(states: seq<BuildState>, name: string, checks: seq<Check>, more: seq<Check>)
    requires PlanAll(states, name, checks).Failure?
    ensures PlanAll(states, name, checks + more) == PlanAll(states, name, checks)
    decreases |checks|
  {
    assert (checks + more)[0] == checks[0];
    assert (checks + more)[1..] == checks[1..] + more;
    match PlanStep(states, name, checks[0])
    case Failure(e) =>
    case Success(next) =>
      PlanAllFailureStops(next, name, checks[1..], more);
  }

  /**
   * One turn of the loop of `prepare_target_compilation`, read from the end:
   * what remains to be planned from source `i` on is that source's step, then
   * (unless it failed) the sources after it.
   */
  lemma PlanFilesFrom(states: seq<BuildState>, sidecars: map<Path, string>, files: map<Path, u64>, lay: Layout,
                      name: string, flags: string, inBuildDir: bool, sources: seq<Path>, i: nat,
                      step: Result<seq<BuildState>, SidecarError>)
    requires lay.Valid() && i < |sources|
    requires step == PlanFile(states, sidecars, files, lay, name, flags, inBuildDir, sources[i])
    ensures step.Failure? ==> PlanFiles(states, sidecars, files, lay, name, flags, inBuildDir, sources[i..]) == step
    ensures step.Success? ==> PlanFiles(states, sidecars, files, lay, name, flags, inBuildDir, sources[i..]) ==
                              PlanFiles(step.value, sidecars, files, lay, name, flags, inBuildDir, sources[i + 1..])
  {
    assert sources[i..][0] == sources[i];
    assert sources[i..][1..] == sources[i + 1..];
  }

  /** When every source's sidecar holds its fresh record, planning adds no job and leaves the table as it was. */
  lemma {:induction false} PlanAllUpToDate(states: seq<BuildState>, name: string, checks: seq<Check>)
    requires forall k :: 0 <= k < |checks| ==> checks[k].verdict == Success(true)
    ensures PlanAll(states, name, checks) == Success(states)
    ensures StaleRecords(checks) == []
    decreases |checks|
  {
    if checks != [] {
      PlanAllUpToDate(states, name, checks[1..]);
    }
  }

  /** Whether planning fails depends on the sidecars and the sources, not on the table planned into. */
  lemma SucceedsFromAnyTable(states: seq<BuildState>, again: seq<BuildState>, sidecars: map<Path, string>, files: map<Path, u64>,
                             lay: Layout, name: string, flags: string, inBuildDir: bool, sources: seq<Path>)
    requires lay.Valid()
    requires PlanFiles(states, sidecars, files, lay, name, flags, inBuildDir, sources).Success?
    ensures PlanFiles(again, sidecars, files, lay, name, flags, inBuildDir, sources).Success?
  {
    var checks := Checks(sidecars, files, lay, flags, inBuildDir, sources);
    PlanFilesChecks(states, sidecars, files, lay, name, flags, inBuildDir, sources);
    PlanFilesChecks(again, sidecars, files, lay, name, flags, inBuildDir, sources);
    PlanAllSucceeds(states, name, checks);
    PlanAllSucceeds(again, name, checks);
  }

  /** Planning succeeds exactly when no source has a malformed sidecar. */
  lemma {:induction false} PlanAllSucceeds(states: seq<BuildState>, name: string, checks: seq<Check>)
    ensures PlanAll(states, name, checks).Success? <==> forall k :: 0 <= k < |checks| ==> checks[k].verdict.Success?
    decreases |checks|
  {
    if checks != [] {
      match PlanStep(states, name, checks[0])
      case Failure(e) =>
      case Success(next) =>
        PlanAllSucceeds(next, name, checks[1..]);
        assert forall k :: 1 <= k < |checks| ==> checks[k] == checks[1..][k - 1];
    }
  }

  /** When every check found its source stale, the stale records are all the fresh records, in order. */
  lemma {:induction false} StaleRecordsAll(checks: seq<Check>)
    requires forall k :: 0 <= k < |checks| ==> checks[k].verdict == Success(false)
    ensures |StaleRecords(checks)| == |checks|
    ensures forall k :: 0 <= k < |checks| ==> StaleRecords(checks)[k] == checks[k].current
    decreases |checks|
  {
    if checks != [] {
      StaleRecordsAll(checks[1..]);
      assert forall k :: 1 <= k < |checks| ==> checks[k] == checks[1..][k - 1];
    }
  }

  /** A record is among the stale records exactly when some check found its source stale with that record. */
  lemma {:induction false} StaleRecordsMembers(checks: seq<Check>, p: CompileParameters)
    ensures p in StaleRecords(checks) <==> exists k :: 0 <= k < |checks| && checks[k].verdict == Success(false) && checks[k].current == p
    decreases |checks|
  {
    if checks != [] {
      StaleRecordsMembers(checks[1..], p);
      if exists k :: 0 <= k < |checks| && checks[k].verdict == Success(false) && checks[k].current == p {
        var k :| 0 <= k < |checks| && checks[k].verdict == Success(false) && checks[k].current == p;
        if k > 0 {
          assert checks[1..][k - 1] == checks[k];
        }
      }
      if p in StaleRecords(checks[1..]) {
        var k :| 0 <= k < |checks[1..]| && checks[1..][k].verdict == Success(false) && checks[1..][k].current == p;
        assert checks[k + 1] == checks[1..][k];
      }
    }
  }

  // ---------------------------------------------------------------------
  // Linking (prepare_target_linking) and cleaning (clean_target_build_artifacts)
  // ---------------------------------------------------------------------

  /** `canonical_build_dir` in `prepare_target_linking`: the build directory, or "." in place. */
  function LinkBase(lay: Layout, inBuildDir: bool): Path
    requires lay.Valid()
  {
    if inBuildDir then Canonical(lay.cwd, lay.buildDir) else Canonical(lay.cwd, CurrentDirectory)
  }

  /** Line 402: the whole relative source path under the base, plus ".o" (not canonicalised). */
  function LinkObject(lay: Layout, inBuildDir: bool, source: Path): Path
    requires lay.Valid()
  {
    AppendToName(Combine(LinkBase(lay, inBuildDir), RelativeSource(lay, source)), ObjectFileExtension)
  }

  /** The link parameters: one object per source in source order, the target file `<base>/<name>`, no link flags. */
  function LinkPlan(lay: Layout, target: Target, inBuildDir: bool): (r: LinkParameters)
    requires lay.Valid()
    ensures |r.objectFiles| == |target.sources|
    ensures forall k :: 0 <= k < |target.sources| ==> r.objectFiles[k] == LinkObject(lay, inBuildDir, target.sources[k])
    ensures r.targetFile == Combine(LinkBase(lay, inBuildDir), Parse(target.name))
    ensures r.linkFlags == ""
  {
    LinkParameters(
      seq(|target.sources|, k requires 0 <= k < |target.sources| => LinkObject(lay, inBuildDir, target.sources[k])),
      Combine(LinkBase(lay, inBuildDir), Parse(target.name)),
      "")
  }

  /** In build-directory mode a normal relative source is linked from the object its compile job writes. */
  lemma LinkObjectIsCompileObject(lay: Layout, source: Path)
    requires lay.Valid() && NormalRelative(source)
    ensures LinkObject(lay, true, source) == CompileObject(lay, true, source)
  {
    var n := |source.segs|;
    ObjectUnderBuildDir(lay, source);
    assert source.segs == source.segs[..n - 1] + [source.segs[n - 1]];
  }

  /**
   * In build-directory mode the link lists, for every source, exactly the
   * object its compile job writes: all sources, not only the recompiled ones.
   */
  lemma LinkObjectsAreCompileObjects(lay: Layout, target: Target)
    requires lay.Valid()
    requires forall k :: 0 <= k < |target.sources| ==> NormalRelative(target.sources[k])
    ensures forall k :: 0 <= k < |target.sources| ==>
              LinkPlan(lay, target, true).objectFiles[k] == CompileObject(lay, true, target.sources[k])
  {
    forall k | 0 <= k < |target.sources|
      ensures LinkPlan(lay, target, true).objectFiles[k] == CompileObject(lay, true, target.sources[k])
    {
      LinkObjectIsCompileObject(lay, target.sources[k]);
    }
  }

  /**
   * In place, a source in a subdirectory is compiled to `./<file name>.o`
   * but linked from `./<relative path>.o`: the two paths differ whenever the
   * source has more than one name.
   */
  lemma InPlaceLinkObjectDiffers(lay: Layout, source: Path)
    requires lay.Valid() && NormalRelative(source) && |source.segs| >= 2
    ensures LinkObject(lay, false, source) != CompileObject(lay, false, source)
    ensures |LinkObject(lay, false, source).segs| == |lay.cwd.segs| + |source.segs|
    ensures |CompileObject(lay, false, source).segs| == |lay.cwd.segs| + 1
  {
    NormalizeNamesDot(lay.cwd.segs);
  }

  /** Normalising a canonical directory followed by "." gives the directory. */
  lemma NormalizeNamesDot(segs: seq<string>)
    requires NormalNames(segs)
    ensures NormalizeNames([], segs + ["."], true) == segs
  {
    NormalizeNamesTail([], segs, ["."]);
  }

  /** Normal names pass through normalisation unchanged, whatever follows them. */
  lemma {:induction false} NormalizeNamesTail(done: seq<string>, segs: seq<string>, rest: seq<string>)
    requires NormalNames(done) && NormalNames(segs)
    ensures NormalizeNames(done, segs + rest, true) == NormalizeNames(done + segs, rest, true)
    decreases |segs|
  {
    if segs != [] {
      assert (segs + rest)[0] == segs[0];
      assert (segs + rest)[1..] == segs[1..] + rest;
      NormalizeNamesTail(done + [segs[0]], segs[1..], rest);
      assert done + [segs[0]] + segs[1..] == done + segs;
    } else {
      assert segs + rest == rest;
      assert done + segs == done;
    }
  }

  /** A row as `get_target_build_state` appends it: no jobs, an empty link job, nothing to link. */
  function FreshState(name: string): BuildState {
    BuildState(name, [], NoLinkJob, false)
  }

  /** `get_target_build_state` on the table: the first row with the name, a fresh one appended when there is none. */
  function Lookup(states: seq<BuildState>, name: string): (r: seq<BuildState>)
    ensures FindState(states, name).Some? ==> r == states
    ensures FindState(states, name).None? ==> r == states + [FreshState(name)] && FindState(r, name) == Some(|states|)
  {
    if FindState(states, name).Some? then states
    else
      var r := states + [FreshState(name)];
      assert r[|states|].name == name;
      r
  }

  /** The row `get_target_build_state` returns carries the jobs recorded for the name (none for a new row). */
  lemma LookupJobs(states: seq<BuildState>, name: string)
    ensures var st := Lookup(states, name);
            FindState(st, name).Some? && st[FindState(st, name).value].compileJobs == JobsFor(states, name)
  {
    var st := Lookup(states, name);
    if FindState(states, name).None? {
      assert st[|states|] == FreshState(name);
    }
  }

  /** `AddJob` is `get_target_build_state` followed by an update of the row it returns. */
  lemma AddJobAfterLookup(states: seq<BuildState>, name: string, p: CompileParameters, st: seq<BuildState>, i: nat)
    requires st == Lookup(states, name) && FindState(st, name) == Some(i)
    ensures AddJob(states, name, p) == st[i := st[i].(compileJobs := st[i].compileJobs + [CompileJob(p, Pending)], needsLinking := true)]
  {
    var job := CompileJob(p, Pending);
    if FindState(states, name).None? {
      assert i == |states| && st[i] == FreshState(name);
      assert AddJob(states, name, p) == states + [BuildState(name, [job], NoLinkJob, true)];
      assert st[i := st[i].(compileJobs := st[i].compileJobs + [job], needsLinking := true)] == states + [BuildState(name, [job], NoLinkJob, true)];
    }
  }

  /**
   * `prepare_target_linking`: look the row up (appending it if missing);
   * unless it needs linking, nothing else happens; otherwise its link job is
   * replaced by a pending one with the link plan.
   */
  function PlanLink(states: seq<BuildState>, lay: Layout, target: Target, inBuildDir: bool): (r: seq<BuildState>)
    requires lay.Valid()
    ensures var before := Lookup(states, target.name);
            var i := FindState(before, target.name).value;
            && |r| == |before| && FindState(r, target.name) == Some(i)
            && (forall j :: 0 <= j < |r| && j != i ==> r[j] == before[j])
            && r[i].compileJobs == before[i].compileJobs && r[i].needsLinking == before[i].needsLinking
            && r[i].linkJob == if before[i].needsLinking then LinkJob(LinkPlan(lay, target, inBuildDir), Pending) else before[i].linkJob
  {
    var st := Lookup(states, target.name);
    var i := FindState(st, target.name).value;
    if !st[i].needsLinking then st
    else
      var r := st[i := st[i].(linkJob := LinkJob(LinkPlan(lay, target, inBuildDir), Pending))];
      SameNamesSameRow(r, st, target.name);
      r
  }

  /** Linking never touches the compile jobs: the row keeps the jobs it had (none, when it was appended). */
  lemma PlanLinkKeepsJobs(states: seq<BuildState>, lay: Layout, target: Target, inBuildDir: bool)
    requires lay.Valid()
    ensures EntryOf(PlanLink(states, lay, target, inBuildDir), target.name).Some?
    ensures JobsFor(PlanLink(states, lay, target, inBuildDir), target.name) == JobsFor(states, target.name)
  {
  }

  /** The object files `clean_target_build_artifacts` removes, one per source. */
  function CleanedObjects(lay: Layout, target: Target, inBuildDir: bool): (r: seq<Path>)
    requires lay.Valid()
    ensures |r| == |target.sources|
  {
    seq(|target.sources|, k requires 0 <= k < |target.sources| =>
      if inBuildDir then AppendToName(Combine(Canonical(lay.cwd, lay.buildDir), target.sources[k]), ObjectFileExtension)
      else AppendToName(target.sources[k], ObjectFileExtension))
  }

  /**
   * In build-directory mode the cleaned object of a normal relative source is
   * the object its compile job writes.
   */
  lemma CleanedInBuildDir(lay: Layout, target: Target, k: nat)
    requires lay.Valid() && k < |target.sources| && NormalRelative(target.sources[k])
    ensures CleanedObjects(lay, target, true)[k] == CompileObject(lay, true, target.sources[k])
  {
    var source := target.sources[k];
    var n := |source.segs|;
    ObjectUnderBuildDir(lay, source);
    assert source.segs == source.segs[..n - 1] + [source.segs[n - 1]];
  }

  /**
   * In place, the cleaned object `<source>.o`, read from the current
   * directory, is the object the link read for a relative source; it is the
   * object the compile job wrote only when the source has a single name (for
   * a source in a subdirectory the two differ, `InPlaceLinkObjectDiffers`).
   */
  lemma CleanedInPlace(lay: Layout, target: Target, k: nat)
    requires lay.Valid() && k < |target.sources|
    requires !target.sources[k].absolute && target.sources[k].segs != []
    ensures Combine(lay.cwd, CleanedObjects(lay, target, false)[k]) == LinkPlan(lay, target, false).objectFiles[k]
    ensures NormalRelative(target.sources[k]) && |target.sources[k].segs| == 1 ==>
              Combine(lay.cwd, CleanedObjects(lay, target, false)[k]) == CompileObject(lay, false, target.sources[k])
  {
    var source := target.sources[k];
    NormalizeNamesDot(lay.cwd.segs);
    assert Canonical(lay.cwd, CurrentDirectory) == lay.cwd;
    var n := |source.segs|;
    assert (lay.cwd.segs + source.segs)[..|lay.cwd.segs| + n - 1] == lay.cwd.segs + source.segs[..n - 1];
  }
}
