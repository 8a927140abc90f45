/**
 * The property the change-detection cache exists for: once every stale
 * source of a target has been compiled and its sidecar written, planning the
 * target again with nothing changed finds every source up to date and adds
 * no job.
 */
module Rebuild {
  import opened Results
  import opened Decimal
  import opened Paths
  import opened Cache
  import opened Planning

  /** Sources that share a sidecar agree on the record it must hold. */
  predicate SharedSidecarsAgree(files: map<Path, u64>, lay: Layout, flags: string, inBuildDir: bool, sources: seq<Path>)
    requires lay.Valid()
  {
    forall i, j ::
      0 <= i < |sources| && 0 <= j < |sources| && MetafileName(lay, inBuildDir, sources[i]) == MetafileName(lay, inBuildDir, sources[j])
      ==> FreshParams(lay, files, flags, inBuildDir, sources[i]) == FreshParams(lay, files, flags, inBuildDir, sources[j])
  }

  /** Checks whose records share a sidecar carry the same record. */
  predicate ChecksAgree(checks: seq<Check>) {
    forall i, j ::
      0 <= i < |checks| && 0 <= j < |checks| && SidecarName(checks[i].current.objectFile) == SidecarName(checks[j].current.objectFile)
      ==> checks[i].current == checks[j].current
  }

  /** Writing only stale records of agreeing checks writes every sidecar consistently. */
  lemma StaleWritesConsistent(checks: seq<Check>, written: seq<CompileParameters>)
    requires ChecksAgree(checks)
    requires forall p :: p in written ==> p in StaleRecords(checks)
    ensures ConsistentWrites(written)
  {
    forall a, b | 0 <= a < |written| && 0 <= b < |written| && SidecarName(written[a].objectFile) == SidecarName(written[b].objectFile)
      ensures written[a] == written[b]
    {
      StaleRecordsMembers(checks, written[a]);
      StaleRecordsMembers(checks, written[b]);
    }
  }

  /**
   * After writing exactly the stale records, the sidecar of every checked
   * source with a readable verdict exists and holds either that source's
   * record, freshly written, or (when the source was up to date) what it held
   * before.
   */
  lemma CheckedSidecarText(sidecars: map<Path, string>, checks: seq<Check>, written: seq<CompileParameters>, k: nat)
    requires k < |checks| && ChecksAgree(checks)
    requires checks[k].verdict.Success?
    requires checks[k].verdict == Success(true) ==> SidecarName(checks[k].current.objectFile) in sidecars
    requires forall p :: p in written <==> p in StaleRecords(checks)
    ensures var key := SidecarName(checks[k].current.objectFile);
            var after := SaveEach(sidecars, written);
            && key in after
            && (after[key] == Serialize(checks[k].current) ||
                (checks[k].verdict == Success(true) && after[key] == sidecars[key]))
  {
    var current := checks[k].current;
    var key := SidecarName(current.objectFile);
    StaleWritesConsistent(checks, written);
    forall i | 0 <= i < |written| && SidecarName(written[i].objectFile) == key
      ensures written[i] == current
    {
      StaleRecordsMembers(checks, written[i]);
      var j :| 0 <= j < |checks| && checks[j].verdict == Success(false) && checks[j].current == written[i];
      assert SidecarName(checks[j].current.objectFile) == SidecarName(checks[k].current.objectFile);
    }
    SaveEachAt(sidecars, written, current);
    if current !in written {
      StaleRecordsMembers(checks, current);
      assert checks[k].verdict != Success(false);
      assert checks[k].verdict.value;
    }
  }

  /** The checks of a target's sources agree when the sources do. */
  lemma SourcesAgree(sidecars: map<Path, string>, files: map<Path, u64>, lay: Layout, flags: string, inBuildDir: bool, sources: seq<Path>)
    requires lay.Valid()
    requires forall i :: 0 <= i < |sources| ==> sources[i].segs != []
    requires SharedSidecarsAgree(files, lay, flags, inBuildDir, sources)
    ensures ChecksAgree(Checks(sidecars, files, lay, flags, inBuildDir, sources))
  {
    var checks := Checks(sidecars, files, lay, flags, inBuildDir, sources);
    forall i, j | 0 <= i < |checks| && 0 <= j < |checks| && SidecarName(checks[i].current.objectFile) == SidecarName(checks[j].current.objectFile)
      ensures checks[i].current == checks[j].current
    {
      assert MetafileName(lay, inBuildDir, sources[i]) == MetafileName(lay, inBuildDir, sources[j]);
    }
  }

  /** A source's sidecar, read through the check, is the one its record names. */
  lemma CheckSourceMeaning(sidecars: map<Path, string>, files: map<Path, u64>, lay: Layout, flags: string, inBuildDir: bool, source: Path)
    requires lay.Valid() && source.segs != []
    ensures var c := CheckSource(sidecars, files, lay, flags, inBuildDir, source);
            var key := SidecarName(c.current.objectFile);
            && c.current == FreshParams(lay, files, flags, inBuildDir, source)
            && (c.verdict == Success(true) <==> key in sidecars && ReadSidecar(sidecars[key]) == Success(c.current))
  {
  }

  /**
   * The rebuild is a no-op: if planning a target succeeded (no sidecar was
   * malformed), and then exactly the stale records were written, planning it
   * again with the same sources, flags and timestamps leaves the build-state
   * table as it is. Sources that share a sidecar must agree on its record,
   * which holds for distinct normal sources in build-directory mode
   * (`DistinctObjects`).
   */
  lemma RebuildPlansNothing(states: seq<BuildState>, sidecars: map<Path, string>, files: map<Path, u64>, lay: Layout,
                            name: string, flags: string, inBuildDir: bool, sources: seq<Path>, written: seq<CompileParameters>)
    requires lay.Valid()
    requires forall i :: 0 <= i < |sources| ==> sources[i].segs != [] && Writable(FreshParams(lay, files, flags, inBuildDir, sources[i]))
    requires SharedSidecarsAgree(files, lay, flags, inBuildDir, sources)
    requires PlanFiles(states, sidecars, files, lay, name, flags, inBuildDir, sources).Success?
    requires forall p :: p in written <==> p in StaleRecords(Checks(sidecars, files, lay, flags, inBuildDir, sources))
    ensures PlanFiles(states, SaveEach(sidecars, written), files, lay, name, flags, inBuildDir, sources) == Success(states)
  {
    var after := SaveEach(sidecars, written);
    var checks := Checks(sidecars, files, lay, flags, inBuildDir, sources);
    var again := Checks(after, files, lay, flags, inBuildDir, sources);
    PlanFilesChecks(states, sidecars, files, lay, name, flags, inBuildDir, sources);
    PlanFilesChecks(states, after, files, lay, name, flags, inBuildDir, sources);
    PlanAllSucceeds(states, name, checks);
    SourcesAgree(sidecars, files, lay, flags, inBuildDir, sources);
    forall k | 0 <= k < |sources|
      ensures again[k].verdict == Success(true)
    {
      CheckSourceMeaning(sidecars, files, lay, flags, inBuildDir, sources[k]);
      CheckSourceMeaning(after, files, lay, flags, inBuildDir, sources[k]);
      CheckedSidecarText(sidecars, checks, written, k);
      ReadWritten(checks[k].current);
    }
    PlanAllUpToDate(states, name, again);
  }

  /** `remove_all(build_directory)` in clean mode deletes the sidecar of every normal relative source planned in the build directory. */
  lemma CleanRemovesSidecar(sidecars: map<Path, string>, lay: Layout, source: Path)
    requires lay.Valid() && NormalRelative(source)
    ensures MetafileName(lay, true, source) !in RemoveTree(sidecars, Canonical(lay.cwd, lay.buildDir))
  {
    var b := Canonical(lay.cwd, lay.buildDir);
    var n := |source.segs|;
    MetafileUnderBuildDir(lay, source);
    var meta := MetafileName(lay, true, source);
    assert meta.segs[..|b.segs|] == b.segs;
    assert Within(meta, b);
  }

  /**
   * After a clean run, planning a target of normal relative sources in the
   * build directory finds every source stale: it succeeds and appends one
   * pending job per source, with that source's fresh record, in source order.
   */
  lemma CleanRecompilesAll(states: seq<BuildState>, sidecars: map<Path, string>, files: map<Path, u64>, lay: Layout,
                           name: string, flags: string, sources: seq<Path>)
    requires lay.Valid()
    requires forall k :: 0 <= k < |sources| ==> NormalRelative(sources[k])
    ensures var cleaned := RemoveTree(sidecars, Canonical(lay.cwd, lay.buildDir));
            var r := PlanFiles(states, cleaned, files, lay, name, flags, true, sources);
            var stale := StaleRecords(Checks(cleaned, files, lay, flags, true, sources));
            && r.Success?
            && Appended(states, r.value, name, AsPending(stale))
            && |stale| == |sources|
            && forall k :: 0 <= k < |sources| ==> stale[k] == FreshParams(lay, files, flags, true, sources[k])
  {
    var cleaned := RemoveTree(sidecars, Canonical(lay.cwd, lay.buildDir));
    var checks := Checks(cleaned, files, lay, flags, true, sources);
    forall k | 0 <= k < |sources|
      ensures checks[k].verdict == Success(false)
    {
      CleanRemovesSidecar(sidecars, lay, sources[k]);
    }
    StaleRecordsAll(checks);
    PlanFilesChecks(states, cleaned, files, lay, name, flags, true, sources);
    PlanAllSucceeds(states, name, checks);
    PlanFilesJobs(states, cleaned, files, lay, name, flags, true, sources);
  }
}
