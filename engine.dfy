/**
 * The engine's global state and the operations that change it:
 * `set_parallel_jobs`, `get_target_build_state`, `prepare_file_compilation`,
 * `prepare_target_compilation`, `prepare_target_linking`, `run_build`,
 * `clean_target_build_artifacts`, `build_target`, `enable_self_rebuild` and
 * `enable_command_line_params`. Each changing operation is proved equal to
 * the pure planning functions, or against the scheduler's invariant.
 */
module Engine {
  import opened Results
  import opened Text
  import opened Decimal
  import opened Paths
  import opened Cache
  import opened Planning
  import opened Commands
  import opened Scheduler
  import opened Rebuild

  const DefaultCompiler: string := "g++"
  const DefaultLinker: string := "g++"
  /** The default build directory "./build_dir" as a path: the names "." and "build_dir", relative. */
  const DefaultBuildPath: Path := Path(false, [".", "build_dir"])
  const DefaultCppStandard: string := "--std=c++23"

  /** `set_parallel_jobs`'s rule: a request for 0 jobs becomes 1, any other count is kept. */
  function ClampJobs(n: u64): (r: u64)
    ensures r >= 1
    ensures n > 0 ==> r == n
  {
    if n > 0 then n else 1
  }

  // ---------------------------------------------------------------------
  // enable_command_line_params
  // ---------------------------------------------------------------------

  /** Where the argument loop ends: it runs to the end with the clean flag and job count it set, or the program exits. */
  datatype CliResult = Continue(clean: bool, jobs: u64) | Exit(code: int)

  /**
   * The loop of `enable_command_line_params` from argument `i` on: "-h" and
   * "--help" exit with 0; "-c" and "--clean" set clean mode; "-m" and
   * "--jobs" read the next argument with `stoull` (a failure exits with 1),
   * pass it through `set_parallel_jobs` and skip it, and exit with 1 when
   * there is no next argument; anything else is ignored.
   */
  function ParseArgs(args: seq<string>, i: nat, clean: bool, jobs: u64): CliResult
    decreases |args| - i
  {
    if i >= |args| then Continue(clean, jobs)
    else
      var param := args[i];
      if param == "--help" || param == "-h" then Exit(0)
      else if param == "--clean" || param == "-c" then ParseArgs(args, i + 1, true, jobs)
      else if param == "--jobs" || param == "-m" then
        if i + 1 < |args| then
          match Stoull(args[i + 1])
          case Failure(_) => Exit(1)
          case Success(n) => ParseArgs(args, i + 2, clean, ClampJobs(n))
        else Exit(1)
      else ParseArgs(args, i + 1, clean, jobs)
  }

  /** The argument loop exits only with 0 (help) or 1 (a bad or missing job count). */
  lemma {:induction false} ParseArgsExitCodes(args: seq<string>, i: nat, clean: bool, jobs: u64)
    ensures ParseArgs(args, i, clean, jobs).Exit? ==> ParseArgs(args, i, clean, jobs).code in {0, 1}
    decreases |args| - i
  {
    if i < |args| {
      var param := args[i];
      if param == "--clean" || param == "-c" {
        ParseArgsExitCodes(args, i + 1, true, jobs);
      } else if param == "--jobs" || param == "-m" {
        if i + 1 < |args| && Stoull(args[i + 1]).Success? {
          ParseArgsExitCodes(args, i + 2, clean, ClampJobs(Stoull(args[i + 1]).value));
        }
      } else if param != "--help" && param != "-h" {
        ParseArgsExitCodes(args, i + 1, clean, jobs);
      }
    }
  }

  /**
   * When the loop runs to the end, clean mode is never switched off, and the
   * job count is either the one it started with (no "-m" was given) or at
   * least 1, whatever number was asked for.
   */
  lemma {:induction false} ParseArgsSettings(args: seq<string>, i: nat, clean: bool, jobs: u64)
    ensures var r := ParseArgs(args, i, clean, jobs);
            r.Continue? ==> (clean ==> r.clean) && (r.jobs == jobs || r.jobs >= 1)
    decreases |args| - i
  {
    if i < |args| {
      var param := args[i];
      if param == "--clean" || param == "-c" {
        ParseArgsSettings(args, i + 1, true, jobs);
      } else if param == "--jobs" || param == "-m" {
        if i + 1 < |args| && Stoull(args[i + 1]).Success? {
          var n := ClampJobs(Stoull(args[i + 1]).value);
          ParseArgsSettings(args, i + 2, clean, n);
        }
      } else if param != "--help" && param != "-h" {
        ParseArgsSettings(args, i + 1, clean, jobs);
      }
    }
  }

  /** `prog -m N` with N written in decimal sets the job count to N, or to 1 for N = 0, and nothing else. */
  lemma JobsOption(prog: string, n: u64, clean: bool, jobs: u64)
    ensures ParseArgs([prog, "-m", ToDecimal(n as nat)], 1, clean, jobs) == Continue(clean, ClampJobs(n))
  {
    var args := [prog, "-m", ToDecimal(n as nat)];
    StoullDecimal(n);
    assert args[1] == "-m" && args[2] == ToDecimal(n as nat);
    assert ParseArgs(args, 3, clean, ClampJobs(n)) == Continue(clean, ClampJobs(n));
  }

  // ---------------------------------------------------------------------
  // Outcomes of the top-level operations
  // ---------------------------------------------------------------------

  /** How `build_target` ends: the build directory removed, planning stopped by a malformed sidecar, or a run. */
  datatype BuildOutcome = Cleaned | PlanFailed(error: SidecarError) | Built(run: RunOutcome)

  /**
   * How `enable_self_rebuild` ends: `canonical` throws because the script is
   * missing; a sidecar is malformed; the script is up to date and the call
   * returns; the build never got past `run_build`; the new binary replaced
   * the process; or `execl` failed and the process exited with 0.
   */
  datatype SelfRebuild =
    | ScriptMissing
    | SidecarFailure(error: SidecarError)
    | UpToDate
    | BuildStopped(run: RunOutcome)
    | Replaced(binary: string)
    | ExitedAfterExec(code: int)

  /** Every reaped job of a row whose jobs are one pending job per record, when all were reaped, wrote exactly those records. */
  lemma ReapedAll(ps: seq<CompileParameters>, reaped: seq<nat>)
    requires forall j :: 0 <= j < |reaped| ==> reaped[j] < |ps|
    requires forall k :: 0 <= k < |ps| ==> k in reaped
    ensures forall p :: p in ReapedRecords(AsPending(ps), reaped) <==> p in ps
  {
    var w := ReapedRecords(AsPending(ps), reaped);
    forall j | 0 <= j < |w|
      ensures w[j] in ps
    {
      assert w[j] == ps[reaped[j]];
    }
    forall k | 0 <= k < |ps|
      ensures ps[k] in w
    {
      assert k in reaped;
      var j :| 0 <= j < |reaped| && reaped[j] == k;
      assert w[j] == ps[k];
    }
  }

  /** The name `enable_self_rebuild` gives its target: the stem of the script's file name. */
  function ScriptName(script: Path): string
  {
    var f := Filename(script);
    if f.segs == [] then "" else Stem(f.segs[0])
  }

  /** The target `enable_self_rebuild` adds: an executable named after the script, built from it alone with the default C++ standard. */
  function SelfTarget(script: Path): Target {
    Target(ScriptName(script), Executable, [script], [DefaultCppStandard])
  }

  /** The row for `name` exists and is marked for linking. */
  predicate NeedsLinking(states: seq<BuildState>, name: string) {
    EntryOf(states, name).Some? && EntryOf(states, name).value.needsLinking
  }

  /**
   * What `prepare_target_compilation` followed by `prepare_target_linking`
   * does to the table: the sources are planned with the joined flags, then
   * the link is planned, unless a sidecar is malformed.
   */
  function PlanTarget(states: seq<BuildState>, sidecars: map<Path, string>, files: map<Path, u64>, lay: Layout,
                      target: Target, inBuildDir: bool): Result<seq<BuildState>, SidecarError>
    requires lay.Valid()
  {
    match PlanFiles(states, sidecars, files, lay, target.name, Join(target.compileFlags, ' '), inBuildDir, target.sources)
    case Failure(e) => Failure(e)
    case Success(st) => Success(PlanLink(st, lay, target, inBuildDir))
  }

  /**
   * Preparing a target appends one pending job per stale source to its row,
   * so at most one per source, and leaves the row in the table.
   */
  lemma PlanTargetJobs(states: seq<BuildState>, sidecars: map<Path, string>, files: map<Path, u64>, lay: Layout,
                       target: Target, inBuildDir: bool)
    requires lay.Valid()
    ensures var plan := PlanTarget(states, sidecars, files, lay, target, inBuildDir);
            var stale := StaleRecords(Checks(sidecars, files, lay, Join(target.compileFlags, ' '), inBuildDir, target.sources));
            plan.Success? ==> && EntryOf(plan.value, target.name).Some?
                              && JobsFor(plan.value, target.name) == JobsFor(states, target.name) + AsPending(stale)
                              && |stale| <= |target.sources|
  {
    var flags := Join(target.compileFlags, ' ');
    var planned := PlanFiles(states, sidecars, files, lay, target.name, flags, inBuildDir, target.sources);
    if planned.Success? {
      PlanFilesJobs(states, sidecars, files, lay, target.name, flags, inBuildDir, target.sources);
      PlanLinkKeepsJobs(planned.value, lay, target, inBuildDir);
    }
  }

  /**
   * The self-rebuild decision: unless the script's row already needed
   * linking, the script is rebuilt exactly when its sidecar is missing or
   * holds a different record, planning fails exactly when the sidecar is
   * malformed.
   */
  lemma SelfPlanDecision(states: seq<BuildState>, sidecars: map<Path, string>, files: map<Path, u64>, lay: Layout, script: Path)
    requires lay.Valid()
    requires !NeedsLinking(states, ScriptName(script))
    ensures var c := CheckSource(sidecars, files, lay, DefaultCppStandard, false, script);
            var plan := PlanTarget(states, sidecars, files, lay, SelfTarget(script), false);
            && (plan.Failure? <==> c.verdict.Failure?)
            && (plan.Success? ==> (NeedsLinking(plan.value, ScriptName(script)) <==> c.verdict == Success(false)))
  {
    var t := SelfTarget(script);
    var flags := Join(t.compileFlags, ' ');
    assert flags == DefaultCppStandard;
    var step := PlanFile(states, sidecars, files, lay, t.name, flags, false, script);
    assert PlanFiles(states, sidecars, files, lay, t.name, flags, false, t.sources) == step by {
      assert t.sources[1..] == [];
    }
    if step.Success? {
      PlanLinkKeepsJobs(step.value, lay, t, false);
      var st := Lookup(step.value, t.name);
      var r := PlanLink(step.value, lay, t, false);
      var i := FindState(st, t.name).value;
      assert EntryOf(r, t.name) == Some(r[i]);
      if FindState(step.value, t.name).None? {
        assert st[i] == FreshState(t.name);
      }
      if FindState(step.value, t.name).Some? {
        assert st[i] == EntryOf(step.value, t.name).value;
      }
    }
  }

  /**
   * What the idempotence of a build needs of a target's sources: each has a
   * name and a record whose sidecar text reads back, and sources that share
   * a sidecar agree on its record (true of distinct normal relative sources
   * in build-directory mode, `DistinctObjects`).
   */
  predicate Rebuildable(files: map<Path, u64>, lay: Layout, flags: string, sources: seq<Path>)
    requires lay.Valid()
  {
    && (forall i :: 0 <= i < |sources| ==> sources[i].segs != [] && Writable(FreshParams(lay, files, flags, true, sources[i])))
    && SharedSidecarsAgree(files, lay, flags, true, sources)
  }

  /**
   * How building a target in build-directory mode from the table `states0`
   * and the sidecars `sc0` ends, given the outcome, the table and sidecars
   * after it, the jobs reaped and the records whose sidecars were written: a
   * malformed sidecar stops it before anything is written; otherwise
   * `run_build` runs on the planned table, with nothing to build exactly
   * when the target's row has no job, and leaves the table and sidecars as
   * `AfterRun` describes (whatever the outcome, so also after a failed job);
   * a finished run has reaped every job, and, for a target without jobs
   * before, has written exactly the stale sources' records.
   */
  ghost predicate BuildEnds(states0: seq<BuildState>, sc0: map<Path, string>, files: map<Path, u64>, lay: Layout, target: Target,
                            outcome: BuildOutcome, states: seq<BuildState>, sc: map<Path, string>, reaped: seq<nat>,
                            written: seq<CompileParameters>)
    requires lay.Valid()
  {
    var plan := PlanTarget(states0, sc0, files, lay, target, true);
    var stale := StaleRecords(Checks(sc0, files, lay, Join(target.compileFlags, ' '), true, target.sources));
    && (plan.Failure? ==> outcome == PlanFailed(plan.error) && sc == sc0)
    && (plan.Success? ==> outcome.Built? && (outcome.run == NothingToBuild <==> JobsFor(plan.value, target.name) == []))
    && (plan.Success? ==> AfterRun(plan.value, target.name, sc0, states, sc, reaped, written))
    && (plan.Success? && outcome == Built(Finished) ==> ReapedEvery(plan.value, target.name, reaped))
    && (plan.Success? && outcome == Built(Finished) && JobsFor(states0, target.name) == [] ==> forall p :: p in written <==> p in stale)
  }

  /**
   * What `run_build` leaves behind, seen from the table `planned` it started
   * on: only the row of `name` changed; it keeps its name, its linking flag,
   * its link job (or that job marked running) and the records of its jobs;
   * a job is completed exactly when it was completed before or is one of the
   * pending jobs listed in `reaped`; and the sidecars `sc0` became `sc` by
   * writing, in the order `reaped` lists them, the records of those jobs.
   */
  ghost predicate AfterRun(planned: seq<BuildState>, name: string, sc0: map<Path, string>,
                           states: seq<BuildState>, sc: map<Path, string>, reaped: seq<nat>, written: seq<CompileParameters>)
  {
    match FindState(planned, name)
    case None => false
    case Some(i) =>
      var row0 := planned[i];
      var jobs := row0.compileJobs;
      && |states| == |planned|
      && (forall j :: 0 <= j < |states| && j != i ==> states[j] == planned[j])
      && states[i].name == name && states[i].needsLinking == row0.needsLinking
      && (states[i].linkJob == row0.linkJob || states[i].linkJob == row0.linkJob.(status := Running))
      && |states[i].compileJobs| == |jobs|
      && (forall k :: 0 <= k < |jobs| ==> states[i].compileJobs[k].params == jobs[k].params)
      && (forall k :: 0 <= k < |jobs| ==> (states[i].compileJobs[k].status == Completed <==> k in reaped || jobs[k].status == Completed))
      && (forall j :: 0 <= j < |reaped| ==> reaped[j] < |jobs| && jobs[reaped[j]].status == Pending)
      && Distinct(reaped)
      && written == ReapedRecords(jobs, reaped)
      && sc == SaveEach(sc0, written)
  }

  /** Every compile job of `name` in `planned` is among the `reaped` ones. */
  ghost predicate ReapedEvery(planned: seq<BuildState>, name: string, reaped: seq<nat>) {
    forall k :: 0 <= k < |JobsFor(planned, name)| ==> k in reaped
  }

  /** A run that left the table and the sidecars as `Ran` describes them has the effects `AfterRun` describes. */
  lemma RanAfterRun(planned: seq<BuildState>, idx: nat, name: string, compiler: string, linker: string, sc0: map<Path, string>,
                    states: seq<BuildState>, sc: map<Path, string>, started: seq<Start>, spawned: nat, reaped: seq<nat>)
    requires FindState(planned, name) == Some(idx) && |states| == |planned|
    requires forall j :: 0 <= j < |states| && j != idx ==> states[j] == planned[j]
    requires Ran(planned[idx], compiler, linker, sc0, states[idx], sc, started, spawned, reaped, |started| > spawned)
    ensures AfterRun(planned, name, sc0, states, sc, reaped, ReapedRecords(planned[idx].compileJobs, reaped))
  {
    var jobs := planned[idx].compileJobs;
    forall k | 0 <= k < |jobs|
      ensures states[idx].compileJobs[k].status == Completed <==> k in reaped || jobs[k].status == Completed
    {
      assert states[idx].compileJobs[k].status == StatusAfter(jobs, spawned, reaped, k);
    }
  }

  /** A table the run left alone has the effects of a run that reaped nothing. */
  lemma AfterNoRun(planned: seq<BuildState>, name: string, sc0: map<Path, string>)
    requires FindState(planned, name).Some?
    ensures AfterRun(planned, name, sc0, planned, sc0, [], [])
  {
    var i := FindState(planned, name).value;
    assert ReapedRecords(planned[i].compileJobs, []) == [];
  }

  /** A build whose planning meets a malformed sidecar ends with that error and writes nothing. */
  lemma BuildEndsFailed(states0: seq<BuildState>, sc0: map<Path, string>, files: map<Path, u64>, lay: Layout, target: Target,
                        states: seq<BuildState>, reaped: seq<nat>, written: seq<CompileParameters>)
    requires lay.Valid()
    requires PlanTarget(states0, sc0, files, lay, target, true).Failure?
    ensures BuildEnds(states0, sc0, files, lay, target, PlanFailed(PlanTarget(states0, sc0, files, lay, target, true).error),
                      states, sc0, reaped, written)
  {
  }

  /**
   * A build whose planning produced the table `planned` ends as `run_build`
   * ran on that table; for a target without jobs before, the jobs are the
   * stale sources' records, so a finished run has written exactly those.
   */
  lemma BuildEndsAfterRun(states0: seq<BuildState>, sc0: map<Path, string>, files: map<Path, u64>, lay: Layout, target: Target,
                          planned: seq<BuildState>, run: RunOutcome, states: seq<BuildState>, sc: map<Path, string>,
                          reaped: seq<nat>, written: seq<CompileParameters>)
    requires lay.Valid()
    requires PlanTarget(states0, sc0, files, lay, target, true) == Success(planned)
    requires run == NothingToBuild <==> JobsFor(planned, target.name) == []
    requires AfterRun(planned, target.name, sc0, states, sc, reaped, written)
    requires run == Finished ==> ReapedEvery(planned, target.name, reaped)
    ensures BuildEnds(states0, sc0, files, lay, target, Built(run), states, sc, reaped, written)
  {
    if run == Finished && JobsFor(states0, target.name) == [] {
      WrittenAreStale(states0, sc0, files, lay, target, true, planned, states, sc, reaped, written);
    }
  }

  /**
   * `run_build` on the table planning produced: `Ran` on the target's row,
   * the rest of the table untouched, nothing to build exactly without jobs,
   * and every job reaped when it finished, is a build that ends as
   * `BuildEnds` describes.
   */
  lemma PreparedRunEnds(states0: seq<BuildState>, sc0: map<Path, string>, files: map<Path, u64>, lay: Layout, target: Target,
                        planned: seq<BuildState>, idx: nat, compiler: string, linker: string, run: RunOutcome,
                        states: seq<BuildState>, sc: map<Path, string>, started: seq<Start>, spawned: nat, reaped: seq<nat>)
    requires lay.Valid()
    requires PlanTarget(states0, sc0, files, lay, target, true) == Success(planned)
    requires var before := Lookup(planned, target.name);
             && FindState(before, target.name) == Some(idx) && |states| == |before|
             && (forall j :: 0 <= j < |states| && j != idx ==> states[j] == before[j])
             && Ran(before[idx], compiler, linker, sc0, states[idx], sc, started, spawned, reaped, |started| > spawned)
             && (run == NothingToBuild <==> |before[idx].compileJobs| == 0)
             && (run == Finished ==> spawned == |before[idx].compileJobs| && forall k :: 0 <= k < spawned ==> k in reaped)
    ensures BuildEnds(states0, sc0, files, lay, target, Built(run), states, sc, reaped,
                      ReapedRecords(Lookup(planned, target.name)[idx].compileJobs, reaped))
  {
    PlanTargetJobs(states0, sc0, files, lay, target, true);
    assert Lookup(planned, target.name) == planned;
    RanAfterRun(planned, idx, target.name, compiler, linker, sc0, states, sc, started, spawned, reaped);
    BuildEndsAfterRun(states0, sc0, files, lay, target, planned, run, states, sc, reaped,
                      ReapedRecords(planned[idx].compileJobs, reaped));
  }

  /**
   * For a target without jobs before, a run that reaped every planned job
   * wrote exactly the records of the sources planning found stale.
   */
  lemma WrittenAreStale(states0: seq<BuildState>, sc0: map<Path, string>, files: map<Path, u64>, lay: Layout, target: Target,
                        inBuildDir: bool, planned: seq<BuildState>, states: seq<BuildState>, sc: map<Path, string>,
                        reaped: seq<nat>, written: seq<CompileParameters>)
    requires lay.Valid()
    requires PlanTarget(states0, sc0, files, lay, target, inBuildDir) == Success(planned)
    requires JobsFor(states0, target.name) == []
    requires AfterRun(planned, target.name, sc0, states, sc, reaped, written)
    requires ReapedEvery(planned, target.name, reaped)
    ensures forall p :: p in written <==> p in StaleRecords(Checks(sc0, files, lay, Join(target.compileFlags, ' '), inBuildDir, target.sources))
  {
    var stale := StaleRecords(Checks(sc0, files, lay, Join(target.compileFlags, ' '), inBuildDir, target.sources));
    PlanTargetJobs(states0, sc0, files, lay, target, inBuildDir);
    assert JobsFor(planned, target.name) == AsPending(stale);
    ReapedAll(stale, reaped);
  }

  /**
   * Idempotence of a build: after a target built for the first time finished
   * every job, planning it again, from any table, with the same sources,
   * flags and timestamps, adds no job.
   */
  lemma FinishedBuildIsUpToDate(states0: seq<BuildState>, sc0: map<Path, string>, files: map<Path, u64>, lay: Layout, target: Target,
                                states: seq<BuildState>, sc: map<Path, string>, reaped: seq<nat>, written: seq<CompileParameters>,
                                again: seq<BuildState>)
    requires lay.Valid() && Rebuildable(files, lay, Join(target.compileFlags, ' '), target.sources)
    requires BuildEnds(states0, sc0, files, lay, target, Built(Finished), states, sc, reaped, written)
    requires JobsFor(states0, target.name) == []
    ensures PlanFiles(again, sc, files, lay, target.name, Join(target.compileFlags, ' '), true, target.sources) == Success(again)
  {
    var flags := Join(target.compileFlags, ' ');
    var checks := Checks(sc0, files, lay, flags, true, target.sources);
    PlanFilesChecks(states0, sc0, files, lay, target.name, flags, true, target.sources);
    PlanFilesChecks(again, sc0, files, lay, target.name, flags, true, target.sources);
    PlanAllSucceeds(states0, target.name, checks);
    PlanAllSucceeds(again, target.name, checks);
    RebuildPlansNothing(again, sc0, files, lay, target.name, flags, true, target.sources, written);
  }

  /**
   * The next run of the program starts with an empty table. Once the first
   * run finished, preparing the same target again gives it a fresh row: no
   * compile job, no link job, and no linking needed, so `run_build` has
   * nothing to build.
   */
  lemma SecondRunBuildsNothing(states0: seq<BuildState>, sc0: map<Path, string>, files: map<Path, u64>, lay: Layout, target: Target,
                               states: seq<BuildState>, sc: map<Path, string>, reaped: seq<nat>, written: seq<CompileParameters>)
    requires lay.Valid() && Rebuildable(files, lay, Join(target.compileFlags, ' '), target.sources)
    requires BuildEnds(states0, sc0, files, lay, target, Built(Finished), states, sc, reaped, written)
    requires JobsFor(states0, target.name) == []
    ensures PlanTarget([], sc, files, lay, target, true) == Success([FreshState(target.name)])
  {
    FinishedBuildIsUpToDate(states0, sc0, files, lay, target, states, sc, reaped, written, []);
    assert Lookup([], target.name) == [FreshState(target.name)];
  }
  /**
   * A self-rebuild that reached `execl` has written the script's sidecar
   * with its fresh record: the restarted process, whose table is empty,
   * plans the script in place with the same timestamps and finds nothing to
   * compile and nothing to link, so it goes on without rebuilding again.
   */
  lemma RestartFindsScriptUpToDate(states0: seq<BuildState>, sc0: map<Path, string>, files: map<Path, u64>, lay: Layout,
                                   script: Path, planned: seq<BuildState>, states: seq<BuildState>, sc: map<Path, string>,
                                   reaped: seq<nat>, written: seq<CompileParameters>)
    requires lay.Valid()
    requires script.segs != [] && Writable(FreshParams(lay, files, Join(SelfTarget(script).compileFlags, ' '), false, script))
    requires JobsFor(states0, ScriptName(script)) == []
    requires PlanTarget(states0, sc0, files, lay, SelfTarget(script), false) == Success(planned)
    requires AfterRun(planned, ScriptName(script), sc0, states, sc, reaped, written)
    requires ReapedEvery(planned, ScriptName(script), reaped)
    ensures PlanTarget([], sc, files, lay, SelfTarget(script), false) == Success([FreshState(ScriptName(script))])
  {
    WrittenAreStale(states0, sc0, files, lay, SelfTarget(script), false, planned, states, sc, reaped, written);
    ScriptPlansNothing(states0, sc0, files, lay, script, written);
  }

  /** Once the stale records of the script are written, planning it in place from an empty table finds it up to date. */
  lemma ScriptPlansNothing(states0: seq<BuildState>, sc0: map<Path, string>, files: map<Path, u64>, lay: Layout,
                           script: Path, written: seq<CompileParameters>)
    requires lay.Valid()
    requires script.segs != [] && Writable(FreshParams(lay, files, Join(SelfTarget(script).compileFlags, ' '), false, script))
    requires PlanTarget(states0, sc0, files, lay, SelfTarget(script), false).Success?
    requires forall p :: p in written <==> p in StaleRecords(Checks(sc0, files, lay, Join(SelfTarget(script).compileFlags, ' '), false, [script]))
    ensures PlanTarget([], SaveEach(sc0, written), files, lay, SelfTarget(script), false) == Success([FreshState(ScriptName(script))])
  {
    var t := SelfTarget(script);
    var flags := Join(t.compileFlags, ' ');
    SucceedsFromAnyTable(states0, [], sc0, files, lay, t.name, flags, false, t.sources);
    SingleSourceRebuild(sc0, files, lay, t.name, flags, script, written);
    assert Lookup([], t.name) == [FreshState(t.name)];
  }

  /** `RebuildPlansNothing` for a target with one source planned in place, from an empty table. */
  lemma SingleSourceRebuild(sc0: map<Path, string>, files: map<Path, u64>, lay: Layout, name: string, flags: string,
                            source: Path, written: seq<CompileParameters>)
    requires lay.Valid()
    requires source.segs != [] && Writable(FreshParams(lay, files, flags, false, source))
    requires PlanFiles([], sc0, files, lay, name, flags, false, [source]).Success?
    requires forall p :: p in written <==> p in StaleRecords(Checks(sc0, files, lay, flags, false, [source]))
    ensures PlanFiles([], SaveEach(sc0, written), files, lay, name, flags, false, [source]) == Success([])
  {
    RebuildPlansNothing([], sc0, files, lay, name, flags, false, [source], written);
  }



  // ---------------------------------------------------------------------
  // The parts of one turn of the loop of run_build
  // ---------------------------------------------------------------------

  /** The variables of the loop of `run_build`: the row, the sidecar files, the lines printed, `pending_processes`, `completed_jobs` and `link_job_added`. */
  datatype Loop = Loop(row: BuildState, sidecars: map<Path, string>, started: seq<Start>,
                       pending: seq<PendingProcess>, completed: nat, linkAdded: bool)

  /** The loop variables agree with the ghost bookkeeping, and the scheduler's invariant holds of them. */
  ghost predicate Holds(row0: BuildState, parallel: nat, compiler: string, linker: string, sc0: map<Path, string>, s: Loop, g: Progress) {
    && g.pending == s.pending && g.completed == s.completed && g.linkAdded == s.linkAdded
    && Scheduled(row0, parallel, compiler, linker, sc0, s.row, s.sidecars, s.started, g)
  }

  /** The invariant read as the run's effects, with the link counted by the starts beyond the compile jobs. */
  lemma HoldsRan(row0: BuildState, parallel: nat, compiler: string, linker: string, sc0: map<Path, string>, s: Loop, g: Progress)
    requires Holds(row0, parallel, compiler, linker, sc0, s, g)
    ensures s.linkAdded <==> |s.started| > g.spawned
    ensures Ran(row0, compiler, linker, sc0, s.row, s.sidecars, s.started, g.spawned, g.reaped, |s.started| > g.spawned)
  {
  }

  /** The compile entry at position `i` names a job that was started and not yet reaped. */
  lemma ReapTarget(row0: BuildState, parallel: nat, compiler: string, linker: string, sc0: map<Path, string>,
                   s: Loop, g: Progress, i: nat)
    requires Holds(row0, parallel, compiler, linker, sc0, s, g)
    requires i < |s.pending| && s.pending[i].isCompileJob
    ensures var k := s.pending[i].jobIndex;
            k < g.spawned && k !in g.reaped && k < |s.row.compileJobs| && !s.linkAdded && s.pending[i].pid == k
  {
    BookReap(|row0.compileJobs|, parallel, g, i);
  }

  /**
   * Reaping the compile entry at position `i`: completing its job, writing
   * its sidecar and erasing its entry keeps the invariant.
   */
  lemma HoldsAfterReap(row0: BuildState, parallel: nat, compiler: string, linker: string, sc0: map<Path, string>,
                       s: Loop, g: Progress, i: nat, s2: Loop, g2: Progress)
    requires Holds(row0, parallel, compiler, linker, sc0, s, g)
    requires i < |s.pending| && s.pending[i].isCompileJob && s.pending[i].jobIndex < |s.row.compileJobs|
    requires var k := s.pending[i].jobIndex;
             var job := s.row.compileJobs[k];
             && s2 == s.(row := s.row.(compileJobs := s.row.compileJobs[k := job.(status := Completed)]),
                         sidecars := s.sidecars[SidecarName(job.params.objectFile) := Serialize(job.params)],
                         pending := s.pending[..i] + s.pending[i + 1..],
                         completed := s.completed + 1)
             && g2 == g.(pending := s2.pending, completed := s2.completed, reaped := g.reaped + [k])
    ensures Holds(row0, parallel, compiler, linker, sc0, s2, g2)
  {
    BookReap(|row0.compileJobs|, parallel, g, i);
    RanReap(row0, compiler, linker, sc0, s.row, s.sidecars, s.started, g.spawned, g.reaped, s.pending[i].jobIndex);
  }

  /** The job the spawn loop looks at next is the first one not started, and it still has the status it had before the run. */
  lemma NextJob(row0: BuildState, parallel: nat, compiler: string, linker: string, sc0: map<Path, string>, s: Loop, g: Progress)
    requires Holds(row0, parallel, compiler, linker, sc0, s, g)
    requires |s.pending| < parallel && s.completed + |s.pending| < |s.row.compileJobs|
    ensures s.completed + |s.pending| == g.spawned < |row0.compileJobs|
    ensures s.row.compileJobs[g.spawned] == row0.compileJobs[g.spawned]
  {
    BookSpawn(|row0.compileJobs|, parallel, g);
    NextStatus(row0, compiler, linker, sc0, s.row, s.sidecars, s.started, g.spawned, g.reaped, false);
  }

  /**
   * Starting job `k`, the one after `completed` finished and `pending`
   * running ones, marks it running and prints its line.
   */
  lemma SpawnRan(row0: BuildState, compiler: string, linker: string, sc0: map<Path, string>,
                 row: BuildState, sc: map<Path, string>, started: seq<Start>, k: nat, reaped: seq<nat>, completed: nat, pending: nat,
                 row2: BuildState, started2: seq<Start>)
    requires Ran(row0, compiler, linker, sc0, row, sc, started, k, reaped, false)
    requires k == completed + pending < |row.compileJobs| && row.compileJobs[k].status == Pending
    requires row2 == row.(compileJobs := row.compileJobs[k := row.compileJobs[k].(status := Running)])
    requires started2 == started + [Start(ComputePercent(completed, pending, |row.compileJobs| + 1), k, |row.compileJobs|, true,
                                          CompileCommand(compiler, row.compileJobs[k].params))]
    ensures Ran(row0, compiler, linker, sc0, row2, sc, started2, k + 1, reaped, false)
  {
    RanSpawn(row0, compiler, linker, sc0, row, sc, started, k, reaped);
    SpawnedStart(compiler, row0.compileJobs, completed, pending, row.compileJobs[k].params);
  }

  /** The line printed when the job after `completed` finished and `pending` running ones is started. */
  lemma SpawnedStart(compiler: string, jobs: seq<CompileJob>, completed: nat, pending: nat, params: CompileParameters)
    requires completed + pending < |jobs| < MaxJobs && params == jobs[completed + pending].params
    ensures Start(ComputePercent(completed, pending, |jobs| + 1), completed + pending, |jobs|, true, CompileCommand(compiler, params))
            == CompileStart(compiler, jobs, completed + pending)
  {
  }

  /** Starting the next job, pending before the run, with its progress line keeps the invariant. */
  lemma HoldsAfterSpawn(row0: BuildState, parallel: nat, compiler: string, linker: string, sc0: map<Path, string>,
                        s: Loop, g: Progress, n: nat, s2: Loop, g2: Progress)
    requires Holds(row0, parallel, compiler, linker, sc0, s, g)
    requires n == |s.row.compileJobs| && |s.pending| < parallel && s.completed + |s.pending| < n
    requires s.row.compileJobs[s.completed + |s.pending|].status == Pending
    requires var index := s.completed + |s.pending|;
             var job := s.row.compileJobs[index];
             && s2 == s.(row := s.row.(compileJobs := s.row.compileJobs[index := job.(status := Running)]),
                         started := s.started + [Start(ComputePercent(s.completed, |s.pending|, n + 1), index, n, true, CompileCommand(compiler, job.params))],
                         pending := s.pending + [PendingProcess(index, index, true)])
             && g2 == g.(pending := g.pending + [PendingProcess(index, index, true)], spawned := g.spawned + 1,
                         reapedBefore := g.reapedBefore + [g.completed])
    ensures Holds(row0, parallel, compiler, linker, sc0, s2, g2)
  {
    NextJob(row0, parallel, compiler, linker, sc0, s, g);
    BookSpawn(|row0.compileJobs|, parallel, g);
    assert g2 == g.(pending := g.pending + [PendingProcess(g.spawned, g.spawned, true)], spawned := g.spawned + 1,
                    reapedBefore := g.reapedBefore + [g.completed]);
    SpawnRan(row0, compiler, linker, sc0, s.row, s.sidecars, s.started, g.spawned, g.reaped, s.completed, |s.pending|, s2.row, s2.started);
    assert Scheduled(row0, parallel, compiler, linker, sc0, s2.row, s2.sidecars, s2.started, g2);
  }

  /**
   * The first part of a turn (nobs.hpp lines 477-511): every pending compile process
   * reported as ended in `round` is reaped in list order. A non-zero exit
   * code (or -1 for a signal) ends the program with that code; otherwise the
   * job is completed, its sidecar written and its entry erased. The link
   * entry is never reported: its process was already waited for.
   *
   * Every job reaped here was reported with code 0. A halt carries the code
   * reported for a started job that is still unreaped. Without a halt, the
   * entries kept are exactly the unreported ones, in order, and every started
   * job the round reports has been reaped.
   */
  method ReapRound(ghost row0: BuildState, parallel: nat, compiler: string, linker: string, ghost sc0: map<Path, string>,
                   s: Loop, ghost g: Progress, round: map<nat, ProcessEnd>)
    returns (halt: Option<int>, s': Loop, ghost g': Progress)
    requires Holds(row0, parallel, compiler, linker, sc0, s, g)
    ensures Holds(row0, parallel, compiler, linker, sc0, s', g')
    ensures s'.linkAdded == s.linkAdded && s'.started == s.started && g'.spawned == g.spawned && g'.reapedBefore == g.reapedBefore
    ensures s.completed <= s'.completed
    ensures |g.reaped| <= |g'.reaped| && g'.reaped[..|g.reaped|] == g.reaped
    ensures forall j :: |g.reaped| <= j < |g'.reaped| ==> EndedWell(round, g'.reaped[j])
    ensures halt.Some? ==> exists k :: 0 <= k < g'.spawned && k !in g'.reaped && EndedBadly(round, k, halt.value)
    ensures halt.None? ==> s'.pending == Survivors(s.pending, round)
    ensures halt.None? ==> forall k :: 0 <= k < g'.spawned && k in round ==> k in g'.reaped
  {
    s', g' := s, g;
    var i: nat := 0;
    ghost var seen: nat := 0;
    ReapingStarts(row0, parallel, compiler, linker, sc0, s, g, round);
    while i < |s'.pending|
      invariant Reaping(row0, parallel, compiler, linker, sc0, s, g, round, seen, i, s', g')
      decreases |s'.pending| - i
    {
      var h;
      h, i, s', g' := ReapStep(row0, parallel, compiler, linker, sc0, s, g, round, seen, i, s', g');
      if h.Some? {
        return h, s', g';
      }
      seen := seen + 1;
    }
    halt := None;
    ReapDone(row0, parallel, compiler, linker, sc0, s, g, round, seen, i, s', g');
  }

  /**
   * One step of the pass over the pending entries: the entry under the
   * cursor is reaped when the round reports it with exit code 0, stops the
   * pass when it reports a non-zero code, and is stepped past otherwise.
   */
  method ReapStep(ghost row0: BuildState, parallel: nat, compiler: string, linker: string, ghost sc0: map<Path, string>,
                  ghost s: Loop, ghost g: Progress, round: map<nat, ProcessEnd>, ghost seen: nat, i: nat, cur: Loop, ghost gc: Progress)
    returns (halt: Option<int>, i': nat, next: Loop, ghost g2: Progress)
    requires Reaping(row0, parallel, compiler, linker, sc0, s, g, round, seen, i, cur, gc)
    requires i < |cur.pending|
    ensures halt.None? ==> Reaping(row0, parallel, compiler, linker, sc0, s, g, round, seen + 1, i', next, g2)
    ensures halt.None? ==> |next.pending| - i' < |cur.pending| - i
    ensures halt.Some? ==> i' == i && next == cur && g2 == gc
    ensures halt.Some? ==> exists k :: 0 <= k < gc.spawned && k !in gc.reaped && EndedBadly(round, k, halt.value)
  {
    var e := cur.pending[i];
    if e.isCompileJob && e.pid in round {
      ReapTarget(row0, parallel, compiler, linker, sc0, cur, gc, i);
      var code := ExitCode(round[e.pid]);
      if code != 0 {
        assert EndedBadly(round, e.jobIndex, code);
        return Some(code), i, cur, gc;
      }
      var job := cur.row.compileJobs[e.jobIndex];
      next := cur.(row := cur.row.(compileJobs := cur.row.compileJobs[e.jobIndex := job.(status := Completed)]),
                   sidecars := cur.sidecars[SidecarName(job.params.objectFile) := Serialize(job.params)],
                   pending := cur.pending[..i] + cur.pending[i + 1..],
                   completed := cur.completed + 1);
      g2 := gc.(pending := next.pending, completed := next.completed, reaped := gc.reaped + [e.jobIndex]);
      ReapKeeps(row0, parallel, compiler, linker, sc0, s, g, round, seen, i, cur, gc, next, g2);
      halt, i' := None, i;
    } else {
      SkipKeeps(row0, parallel, compiler, linker, sc0, s, g, round, seen, i, cur, gc);
      halt, i', next, g2 := None, i + 1, cur, gc;
    }
  }

  /**
   * The invariant of the reaping pass: `seen` of the entries the round began
   * with have been passed over and the cursor `i` stands after their
   * survivors; the jobs reaped so far were reported with code 0, and nothing
   * but the reaping has changed.
   */
  ghost predicate Reaping(row0: BuildState, parallel: nat, compiler: string, linker: string, sc0: map<Path, string>,
                          s: Loop, g: Progress, round: map<nat, ProcessEnd>, seen: nat, i: nat, s': Loop, g': Progress)
  {
    Holds(row0, parallel, compiler, linker, sc0, s', g') && Passed(s, g, round, seen, i, s', g')
  }

  /** The part of the pass invariant that relates the state to where the pass started. */
  ghost predicate Passed(s: Loop, g: Progress, round: map<nat, ProcessEnd>, seen: nat, i: nat, s': Loop, g': Progress) {
    && seen <= |s.pending|
    && s'.pending == Survivors(s.pending[..seen], round) + s.pending[seen..]
    && i == |Survivors(s.pending[..seen], round)|
    && s'.linkAdded == s.linkAdded && s'.started == s.started && g'.spawned == g.spawned && g'.reapedBefore == g.reapedBefore
    && s.completed <= s'.completed
    && |g.reaped| <= |g'.reaped| && g'.reaped[..|g.reaped|] == g.reaped
    && (forall j :: |g.reaped| <= j < |g'.reaped| ==> EndedWell(round, g'.reaped[j]))
  }

  /** Before the pass nothing has been passed over or reaped. */
  lemma ReapingStarts(row0: BuildState, parallel: nat, compiler: string, linker: string, sc0: map<Path, string>,
                      s: Loop, g: Progress, round: map<nat, ProcessEnd>)
    requires Holds(row0, parallel, compiler, linker, sc0, s, g)
    ensures Reaping(row0, parallel, compiler, linker, sc0, s, g, round, 0, 0, s, g)
  {
    assert s.pending[..0] == [] && s.pending[0..] == s.pending;
  }

  /** Reaping the reported entry under the cursor, which exited with code 0, keeps the invariant of the pass. */
  lemma ReapKeeps(row0: BuildState, parallel: nat, compiler: string, linker: string, sc0: map<Path, string>,
                  s: Loop, g: Progress, round: map<nat, ProcessEnd>, seen: nat, i: nat, s': Loop, g': Progress, s2: Loop, g2: Progress)
    requires Reaping(row0, parallel, compiler, linker, sc0, s, g, round, seen, i, s', g')
    requires i < |s'.pending| && Reported(s'.pending[i], round) && ExitCode(round[s'.pending[i].pid]) == 0
    requires s'.pending[i].jobIndex < |s'.row.compileJobs|
    requires var k := s'.pending[i].jobIndex;
             var job := s'.row.compileJobs[k];
             && s2 == s'.(row := s'.row.(compileJobs := s'.row.compileJobs[k := job.(status := Completed)]),
                          sidecars := s'.sidecars[SidecarName(job.params.objectFile) := Serialize(job.params)],
                          pending := s'.pending[..i] + s'.pending[i + 1..],
                          completed := s'.completed + 1)
             && g2 == g'.(pending := s2.pending, completed := s2.completed, reaped := g'.reaped + [k])
    ensures Reaping(row0, parallel, compiler, linker, sc0, s, g, round, seen + 1, i, s2, g2)
  {
    ReapTarget(row0, parallel, compiler, linker, sc0, s', g', i);
    HoldsAfterReap(row0, parallel, compiler, linker, sc0, s', g', i, s2, g2);
    PassedAfterReap(s, g, round, seen, i, s', g', s2, g2);
  }

  /** Erasing the reaped entry and recording its job keeps the relation to the start of the pass. */
  lemma PassedAfterReap(s: Loop, g: Progress, round: map<nat, ProcessEnd>, seen: nat, i: nat, s': Loop, g': Progress, s2: Loop, g2: Progress)
    requires Passed(s, g, round, seen, i, s', g')
    requires i < |s'.pending| && Reported(s'.pending[i], round) && ExitCode(round[s'.pending[i].pid]) == 0
    requires s'.pending[i].pid == s'.pending[i].jobIndex
    requires s2.pending == s'.pending[..i] + s'.pending[i + 1..] && s2.completed == s'.completed + 1
    requires s2.linkAdded == s'.linkAdded && s2.started == s'.started
    requires g2 == g'.(pending := s2.pending, completed := s2.completed, reaped := g'.reaped + [s'.pending[i].jobIndex])
    ensures Passed(s, g, round, seen + 1, i, s2, g2)
  {
    SurvivorsStep(s.pending, round, seen, s'.pending);
    assert g2.reaped[..|g.reaped|] == g'.reaped[..|g.reaped|];
  }

  /** Stepping past an entry the round does not report keeps the invariant of the pass. */
  lemma SkipKeeps(row0: BuildState, parallel: nat, compiler: string, linker: string, sc0: map<Path, string>,
                  s: Loop, g: Progress, round: map<nat, ProcessEnd>, seen: nat, i: nat, s': Loop, g': Progress)
    requires Reaping(row0, parallel, compiler, linker, sc0, s, g, round, seen, i, s', g')
    requires i < |s'.pending| && !Reported(s'.pending[i], round)
    ensures Reaping(row0, parallel, compiler, linker, sc0, s, g, round, seen + 1, i + 1, s', g')
  {
    SurvivorsStep(s.pending, round, seen, s'.pending);
  }

  /** At the end of the pass the entries kept are the survivors of all of them, and no started job the round reports is left unreaped. */
  lemma ReapDone(row0: BuildState, parallel: nat, compiler: string, linker: string, sc0: map<Path, string>,
                 s: Loop, g: Progress, round: map<nat, ProcessEnd>, seen: nat, i: nat, s': Loop, g': Progress)
    requires Reaping(row0, parallel, compiler, linker, sc0, s, g, round, seen, i, s', g')
    requires i >= |s'.pending|
    ensures s'.pending == Survivors(s.pending, round)
    ensures forall k :: 0 <= k < g'.spawned && k in round ==> k in g'.reaped
  {
    assert seen == |s.pending|;
    assert s.pending[..seen] == s.pending;
    ReapedReported(row0, parallel, compiler, linker, sc0, s', g', round);
  }

  /** When no pending entry is reported by the round, every started job the round reports has been reaped. */
  lemma ReapedReported(row0: BuildState, parallel: nat, compiler: string, linker: string, sc0: map<Path, string>,
                       s: Loop, g: Progress, round: map<nat, ProcessEnd>)
    requires Holds(row0, parallel, compiler, linker, sc0, s, g)
    requires forall j :: 0 <= j < |s.pending| ==> !Reported(s.pending[j], round)
    ensures forall k :: 0 <= k < g.spawned && k in round ==> k in g.reaped
  {
    forall k | 0 <= k < g.spawned && k !in g.reaped
      ensures k !in round
    {
      assert InFlight(g.pending, k);
      var j :| 0 <= j < |g.pending| && g.pending[j].isCompileJob && g.pending[j].jobIndex == k;
      assert CompileEntry(g, j);
      assert !Reported(s.pending[j], round);
    }
  }

  /**
   * The second part of a turn (nobs.hpp lines 514-537): while fewer than
   * `parallel_jobs` processes are pending and some job has not been started,
   * job `completed_jobs + |pending|` is started with its progress line. If
   * that job is not pending the loop makes no progress and repeats forever.
   */
  method SpawnJobs(ghost row0: BuildState, parallel: nat, compiler: string, linker: string, ghost sc0: map<Path, string>,
                   s: Loop, ghost g: Progress)
    returns (spins: bool, s': Loop, ghost g': Progress)
    requires Holds(row0, parallel, compiler, linker, sc0, s, g)
    ensures Holds(row0, parallel, compiler, linker, sc0, s', g')
    ensures s'.completed == s.completed && s'.linkAdded == s.linkAdded && s'.sidecars == s.sidecars && g'.reaped == g.reaped
    ensures spins ==> |s'.pending| < parallel && g'.spawned < |row0.compileJobs| && row0.compileJobs[g'.spawned].status != Pending
    ensures !spins ==> |s'.pending| >= parallel || s'.completed + |s'.pending| >= |row0.compileJobs|
  {
    s', g' := s, g;
    var n := |s.row.compileJobs|;
    while |s'.pending| < parallel && s'.completed + |s'.pending| < n
      invariant Holds(row0, parallel, compiler, linker, sc0, s', g')
      invariant s'.completed == s.completed && s'.linkAdded == s.linkAdded && s'.sidecars == s.sidecars && g'.reaped == g.reaped
      invariant |s'.row.compileJobs| == n
      decreases n - (s'.completed + |s'.pending|)
    {
      NextJob(row0, parallel, compiler, linker, sc0, s', g');
      var index := s'.completed + |s'.pending|;
      if s'.row.compileJobs[index].status != Pending {
        return true, s', g';
      }
      var job := s'.row.compileJobs[index];
      var percent := ComputePercent(s'.completed, |s'.pending|, n + 1);
      var command := CompileCommand(compiler, job.params);
      var next := s'.(row := s'.row.(compileJobs := s'.row.compileJobs[index := job.(status := Running)]),
                      started := s'.started + [Start(percent, index, n, true, command)],
                      pending := s'.pending + [PendingProcess(index, index, true)]);
      ghost var g2 := g'.(pending := g'.pending + [PendingProcess(index, index, true)], spawned := g'.spawned + 1,
                          reapedBefore := g'.reapedBefore + [g'.completed]);
      HoldsAfterSpawn(row0, parallel, compiler, linker, sc0, s', g', n, next, g2);
      s', g' := next, g2;
    }
    spins := false;
  }

  /**
   * The third part of a turn (nobs.hpp lines 540-562): with every compile job
   * completed (so nothing is pending), the link job is marked running, its
   * line printed and its process started and waited for; the entry pushed
   * for it names job 0 and is not a compile job.
   */
  method StartLink(ghost row0: BuildState, parallel: nat, compiler: string, linker: string, ghost sc0: map<Path, string>,
                   s: Loop, ghost g: Progress)
    returns (s': Loop, ghost g': Progress)
    requires Holds(row0, parallel, compiler, linker, sc0, s, g)
    requires !s.linkAdded && HasCompilationFinished(s.row)
    requires |s.pending| >= parallel || s.completed + |s.pending| >= |row0.compileJobs|
    ensures Holds(row0, parallel, compiler, linker, sc0, s', g')
    ensures s'.linkAdded && s'.completed == s.completed
    ensures g'.spawned == g.spawned && g'.reaped == g.reaped && g'.reapedBefore == g.reapedBefore
  {
    NothingPending(row0, parallel, compiler, linker, sc0, s.row, s.sidecars, s.started, g);
    BookLink(|row0.compileJobs|, parallel, g);
    RanLink(row0, compiler, linker, sc0, s.row, s.sidecars, s.started, g.spawned, g.reaped);
    var n := |s.row.compileJobs|;
    var percent := ComputePercent(s.completed, |s.pending|, n + 1);
    var command := LinkCommand(linker, s.row.linkJob.params);
    s' := s.(row := s.row.(linkJob := s.row.linkJob.(status := Running)),
             started := s.started + [Start(percent, s.completed + |s.pending|, n, false, command)],
             pending := s.pending + [LinkEntry(n)],
             linkAdded := true);
    g' := g.(pending := s'.pending, linkAdded := true);
  }

  /** Job `reaped[j]` was reaped in round `reapedIn[j]`, one of the first `r`, which reported it with code 0. */
  ghost predicate ReapedIn(rounds: seq<map<nat, ProcessEnd>>, r: nat, reaped: seq<nat>, reapedIn: seq<nat>)
    requires r <= |rounds|
  {
    |reapedIn| == |reaped| && forall j :: 0 <= j < |reaped| ==> reapedIn[j] < r && EndedWell(rounds[reapedIn[j]], reaped[j])
  }

  /** The jobs reaped in round `r` extend the record of where each job was reaped. */
  lemma ReapedInExtend(rounds: seq<map<nat, ProcessEnd>>, r: nat, reaped: seq<nat>, reaped': seq<nat>, reapedIn: seq<nat>)
    returns (more: seq<nat>)
    requires r < |rounds| && ReapedIn(rounds, r, reaped, reapedIn)
    requires |reaped| <= |reaped'| && reaped'[..|reaped|] == reaped
    requires forall j :: |reaped| <= j < |reaped'| ==> EndedWell(rounds[r], reaped'[j])
    ensures more == reapedIn + seq(|reaped'| - |reaped|, _ => r)
    ensures ReapedIn(rounds, r + 1, reaped', more)
  {
    more := reapedIn + seq(|reaped'| - |reaped|, _ => r);
    forall j | 0 <= j < |reaped'|
      ensures more[j] < r + 1 && EndedWell(rounds[more[j]], reaped'[j])
    {
      if j < |reaped| {
        assert reaped'[j] == reaped'[..|reaped|][j];
      }
    }
  }

  /** A halt in round `r` names a round and a started, unreaped job it reported with the halt's code. */
  lemma HaltedIn(rounds: seq<map<nat, ProcessEnd>>, r: nat, spawned: nat, reaped: seq<nat>, code: int)
    requires r < |rounds|
    requires exists k :: 0 <= k < spawned && k !in reaped && EndedBadly(rounds[r], k, code)
    ensures exists r', k :: 0 <= r' < |rounds| && 0 <= k < spawned && k !in reaped && EndedBadly(rounds[r'], k, code)
  {
  }

  /**
   * One turn of the loop of `run_build`, consuming polling round `r`: the
   * ended compile processes are reaped, compile jobs are started while there
   * is room, and once every compile job is completed and the target needs
   * linking the link is started and waited for. The turn stops the run when
   * a process failed or the spawn loop would repeat forever.
   */
  method Turn(row0: BuildState, parallel: nat, compiler: string, linker: string, sc0: map<Path, string>,
              rounds: seq<map<nat, ProcessEnd>>, r: nat, s: Loop, ghost g: Progress, ghost reapedIn: seq<nat>)
    returns (stop: Option<RunOutcome>, s': Loop, ghost g': Progress, ghost reapedIn': seq<nat>)
    requires r < |rounds| && |row0.compileJobs| < MaxJobs
    requires Holds(row0, parallel, compiler, linker, sc0, s, g) && (s.linkAdded ==> row0.needsLinking)
    requires ReapedIn(rounds, r, g.reaped, reapedIn)
    ensures Holds(row0, parallel, compiler, linker, sc0, s', g') && (s'.linkAdded ==> row0.needsLinking)
    ensures ReapedIn(rounds, r + 1, g'.reaped, reapedIn')
    ensures stop.None? && s'.completed >= |row0.compileJobs| ==> (s'.linkAdded <==> row0.needsLinking)
    ensures stop.Some? ==> stop.value.Halted? || stop.value == Spins
    ensures stop.Some? && stop.value.Halted? ==>
              exists r', k :: 0 <= r' < |rounds| && 0 <= k < g'.spawned && k !in g'.reaped && EndedBadly(rounds[r'], k, stop.value.code)
    ensures stop == Some(Spins) ==> g'.spawned < |row0.compileJobs| && row0.compileJobs[g'.spawned].status != Pending
    ensures parallel == 0 ==> stop.None?
  {
    var halt;
    halt, s', g', reapedIn' := ReapIn(row0, parallel, compiler, linker, sc0, rounds, r, s, g, reapedIn);
    if halt.Some? {
      return Some(Halted(halt.value)), s', g', reapedIn';
    }
    var spins;
    spins, s', g' := Advance(row0, parallel, compiler, linker, sc0, s', g');
    stop := if spins then Some(Spins) else None;
  }

  /** The reaping part of turn `r`, recording the round each job was reaped in. */
  method ReapIn(row0: BuildState, parallel: nat, compiler: string, linker: string, sc0: map<Path, string>,
                rounds: seq<map<nat, ProcessEnd>>, r: nat, s: Loop, ghost g: Progress, ghost reapedIn: seq<nat>)
    returns (halt: Option<int>, s': Loop, ghost g': Progress, ghost reapedIn': seq<nat>)
    requires r < |rounds|
    requires Holds(row0, parallel, compiler, linker, sc0, s, g) && ReapedIn(rounds, r, g.reaped, reapedIn)
    ensures Holds(row0, parallel, compiler, linker, sc0, s', g') && s'.linkAdded == s.linkAdded
    ensures ReapedIn(rounds, r + 1, g'.reaped, reapedIn')
    ensures halt.Some? ==>
              exists r', k :: 0 <= r' < |rounds| && 0 <= k < g'.spawned && k !in g'.reaped && EndedBadly(rounds[r'], k, halt.value)
  {
    halt, s', g' := ReapRound(row0, parallel, compiler, linker, sc0, s, g, rounds[r]);
    reapedIn' := ReapedInExtend(rounds, r, g.reaped, g'.reaped, reapedIn);
    if halt.Some? {
      HaltedIn(rounds, r, g'.spawned, g'.reaped, halt.value);
    }
  }

  /** The turn after reaping: compile jobs are started while there is room, then the link when it is due. */
  method Advance(row0: BuildState, parallel: nat, compiler: string, linker: string, sc0: map<Path, string>,
                 s: Loop, ghost g: Progress)
    returns (spins: bool, s': Loop, ghost g': Progress)
    requires |row0.compileJobs| < MaxJobs
    requires Holds(row0, parallel, compiler, linker, sc0, s, g) && (s.linkAdded ==> row0.needsLinking)
    ensures Holds(row0, parallel, compiler, linker, sc0, s', g') && (s'.linkAdded ==> row0.needsLinking)
    ensures g'.reaped == g.reaped
    ensures !spins && s'.completed >= |row0.compileJobs| ==> (s'.linkAdded <==> row0.needsLinking)
    ensures spins ==> g'.spawned < |row0.compileJobs| && row0.compileJobs[g'.spawned].status != Pending
    ensures parallel == 0 ==> !spins
  {
    spins, s', g' := SpawnJobs(row0, parallel, compiler, linker, sc0, s, g);
    if spins {
      return;
    }
    if s'.completed >= |row0.compileJobs| {
      AllReaped(row0, parallel, compiler, linker, sc0, s'.row, s'.sidecars, s'.started, g');
    }
    if !s'.linkAdded && HasCompilationFinished(s'.row) && s'.row.needsLinking {
      s', g' := StartLink(row0, parallel, compiler, linker, sc0, s', g');
    }
  }

  /**
   * The loop of `run_build` (nobs.hpp lines 474-568) over a row with at least one
   * compile job, one turn per polling round. The loop ends when
   * `completed_jobs` reaches the number of compile jobs.
   *
   * Job `reaped[j]` was reaped in round `reapedIn[j]`, which reported it with
   * code 0; a halt carries the non-zero code some round reported for a
   * started job that was never reaped; and no more than `parallel_jobs`
   * compile processes were ever running at once.
   */
  method BuildLoop(row0: BuildState, parallel: nat, compiler: string, linker: string, sc0: map<Path, string>,
                   rounds: seq<map<nat, ProcessEnd>>)
    returns (outcome: RunOutcome, s: Loop, ghost g: Progress, ghost reapedIn: seq<nat>)
    requires 0 < |row0.compileJobs| < MaxJobs
    ensures Holds(row0, parallel, compiler, linker, sc0, s, g)
    ensures outcome != NothingToBuild
    ensures outcome == Finished ==>
              && g.spawned == |row0.compileJobs| && |g.reaped| == g.spawned
              && (forall k :: 0 <= k < g.spawned ==> k in g.reaped)
              && HasCompilationFinished(s.row) && (s.linkAdded <==> row0.needsLinking)
    ensures |reapedIn| == |g.reaped| && forall j :: 0 <= j < |g.reaped| ==> reapedIn[j] < |rounds| && EndedWell(rounds[reapedIn[j]], g.reaped[j])
    ensures outcome.Halted? ==> exists r, k :: 0 <= r < |rounds| && 0 <= k < g.spawned && k !in g.reaped && EndedBadly(rounds[r], k, outcome.code)
    ensures |g.reapedBefore| == g.spawned && WithinParallelism(g.reapedBefore, g.reaped, parallel)
    ensures outcome == Spins ==> g.spawned < |row0.compileJobs| && row0.compileJobs[g.spawned].status != Pending
    ensures parallel == 0 ==> outcome == RoundsExhausted
  {
    var n := |row0.compileJobs|;
    ScheduledInitially(row0, parallel, compiler, linker, sc0);
    s := Loop(row0, sc0, [], [], 0, false);
    g := Progress([], 0, false, 0, [], []);
    reapedIn := [];
    var r := 0;
    while s.completed < n
      invariant r <= |rounds|
      invariant Holds(row0, parallel, compiler, linker, sc0, s, g)
      invariant s.linkAdded ==> row0.needsLinking
      invariant s.completed >= n ==> (s.linkAdded <==> row0.needsLinking)
      invariant ReapedIn(rounds, r, g.reaped, reapedIn)
      invariant parallel == 0 ==> s.completed == 0
      decreases |rounds| - r
    {
      if r == |rounds| {
        return RoundsExhausted, s, g, reapedIn;
      }
      var stop;
      stop, s, g, reapedIn := Turn(row0, parallel, compiler, linker, sc0, rounds, r, s, g, reapedIn);
      r := r + 1;
      if stop.Some? {
        return stop.value, s, g, reapedIn;
      }
    }
    AllReaped(row0, parallel, compiler, linker, sc0, s.row, s.sidecars, s.started, g);
    outcome := Finished;
  }

  // ---------------------------------------------------------------------
  // The engine's state
  // ---------------------------------------------------------------------

  /**
   * The globals of `nobs::internal` and the part of the file system the
   * engine reads and writes: `files` gives the modification time of every
   * existing source by canonical path, `sidecars` the text of every sidecar
   * file by its path.
   */
  class Session {
    var compiler: string
    var linker: string
    const cwd: Path
    var projectDir: Path
    var buildDir: Path
    var cleanMode: bool
    var parallelJobs: u64
    var targets: seq<Target>
    var states: seq<BuildState>
    var sidecars: map<Path, string>
    const files: map<Path, u64>

    /** The current directory is canonical. */
    ghost predicate Valid() {
      IsCanonical(cwd)
    }

    function Dirs(): (lay: Layout)
      requires Valid()
      reads this`projectDir, this`buildDir
      ensures lay.Valid()
    {
      Layout(cwd, projectDir, buildDir)
    }

    /**
     * The state at program start: compiler and linker "g++", build directory
     * "./build_dir", project directory the current directory, and as many
     * parallel jobs as `hardware_concurrency` reports (possibly 0, which is
     * not clamped).
     */
    constructor (cwd: Path, hardwareConcurrency: u64, files: map<Path, u64>, sidecars: map<Path, string>)
      requires IsCanonical(cwd)
      ensures Valid()
      ensures compiler == DefaultCompiler && linker == DefaultLinker
      ensures this.cwd == cwd && projectDir == cwd && buildDir == DefaultBuildPath
      ensures !cleanMode && parallelJobs == hardwareConcurrency
      ensures targets == [] && states == []
      ensures this.files == files && this.sidecars == sidecars
    {
      this.cwd := cwd;
      this.files := files;
      compiler, linker := DefaultCompiler, DefaultLinker;
      projectDir, buildDir := cwd, DefaultBuildPath;
      cleanMode, parallelJobs := false, hardwareConcurrency;
      targets, states, this.sidecars := [], [], sidecars;
      new;
      assert this.cwd == cwd;
    }

    /** `set_parallel_jobs`: at least one job; any positive count is taken as given. */
    method SetParallelJobs(n: u64)
      modifies this`parallelJobs
      ensures parallelJobs >= 1
      ensures n > 0 ==> parallelJobs == n
      ensures n == 0 ==> parallelJobs == 1
    {
      parallelJobs := if n > 0 then n else 1;
    }

    /** `get_target_build_state`: the first row with the target's name; a new empty row is appended when there is none. */
    method GetTargetBuildState(name: string) returns (idx: nat)
      modifies this`states
      ensures states == Lookup(old(states), name)
      ensures FindState(states, name) == Some(idx)
    {
      idx := 0;
      while idx < |states|
        invariant idx <= |states|
        invariant forall j :: 0 <= j < idx ==> states[j].name != name
      {
        if states[idx].name == name {
          return;
        }
        idx := idx + 1;
      }
      states := states + [FreshState(name)];
    }

    /**
     * `prepare_file_compilation`: derive the source's record and sidecar;
     * a malformed sidecar is fatal; a sidecar holding the same record leaves
     * the table alone; otherwise a pending job is appended to the target's
     * row and the row is marked for linking.
     */
    method PrepareFileCompilation(target: Target, flags: string, inBuildDir: bool, source: Path) returns (failure: Option<SidecarError>)
      requires Valid()
      modifies this`states
      ensures var planned := old(PlanFile(states, sidecars, files, Dirs(), target.name, flags, inBuildDir, source));
              && (planned.Failure? ==> failure == Some(planned.error) && states == old(states))
              && (planned.Success? ==> failure == None && states == planned.value)
    {
      var lay := Dirs();
      var current := FreshParams(lay, files, flags, inBuildDir, source);
      var verdict := CheckCache(sidecars, MetafileName(lay, inBuildDir, source), current);
      assert CheckSource(sidecars, files, lay, flags, inBuildDir, source) == Check(current, verdict);
      match verdict {
        case Failure(e) => return Some(e);
        case Success(upToDate) =>
          if upToDate {
            return None;
          }
      }
      var i := GetTargetBuildState(target.name);
      AddJobAfterLookup(old(states), target.name, current, states, i);
      var row := states[i];
      states := states[i := row.(compileJobs := row.compileJobs + [CompileJob(current, Pending)], needsLinking := true)];
      failure := None;
    }

    /**
     * `prepare_target_compilation`: join the flags with single spaces, then
     * prepare every source in order; the first malformed sidecar ends the
     * program.
     */
    method PrepareTargetCompilation(target: Target, inBuildDir: bool) returns (failure: Option<SidecarError>)
      requires Valid()
      modifies this`states
      ensures var planned := old(PlanFiles(states, sidecars, files, Dirs(), target.name, Join(target.compileFlags, ' '), inBuildDir, target.sources));
              && (planned.Failure? ==> failure == Some(planned.error))
              && (planned.Success? ==> failure == None && states == planned.value)
    {
      var flags := JoinFlags(target.compileFlags);
      ghost var lay := Dirs();
      ghost var planned := PlanFiles(states, sidecars, files, lay, target.name, flags, inBuildDir, target.sources);
      assert target.sources[0..] == target.sources;
      var i := 0;
      while i < |target.sources|
        invariant i <= |target.sources|
        invariant PlanFiles(states, sidecars, files, lay, target.name, flags, inBuildDir, target.sources[i..]) == planned
      {
        ghost var step := PlanFile(states, sidecars, files, lay, target.name, flags, inBuildDir, target.sources[i]);
        PlanFilesFrom(states, sidecars, files, lay, target.name, flags, inBuildDir, target.sources, i, step);
        failure := PrepareFileCompilation(target, flags, inBuildDir, target.sources[i]);
        if failure.Some? {
          return;
        }
        i := i + 1;
      }
      failure := None;
    }

    /**
     * `prepare_target_linking`: find the target's row (appending it if
     * missing); unless it needs linking nothing else happens; otherwise its
     * link job becomes a pending job with one object per source, in source
     * order, and the target file `<dir>/<name>`.
     */
    method PrepareTargetLinking(target: Target, inBuildDir: bool)
      requires Valid()
      modifies this`states
      ensures states == old(PlanLink(states, Dirs(), target, inBuildDir))
    {
      var i := GetTargetBuildState(target.name);
      if !states[i].needsLinking {
        return;
      }
      var lay := Dirs();
      var base := LinkBase(lay, inBuildDir);
      var objects: seq<Path> := [];
      var k := 0;
      while k < |target.sources|
        invariant k <= |target.sources|
        invariant objects == LinkPlan(lay, target, inBuildDir).objectFiles[..k]
      {
        objects := objects + [AppendToName(Combine(base, RelativeSource(lay, target.sources[k])), ObjectFileExtension)];
        k := k + 1;
      }
      assert objects == LinkPlan(lay, target, inBuildDir).objectFiles;
      var row := states[i];
      states := states[i := row.(linkJob := LinkJob(LinkParameters(objects, Combine(base, Parse(target.name)), ""), Pending))];
    }

    /**
     * `run_build` for one target: its row is looked up (or appended) as by
     * `get_target_build_state`; with no compile job nothing is built,
     * otherwise the loop runs on the row and the sidecar files, and the row
     * and the files are left as it left them.
     */
    method RunBuild(target: Target, rounds: seq<map<nat, ProcessEnd>>)
      returns (outcome: RunOutcome, started: seq<Start>, ghost idx: nat, ghost spawned: nat, ghost reaped: seq<nat>,
               ghost reapedBefore: seq<nat>, ghost reapedIn: seq<nat>)
      requires |JobsFor(states, target.name)| < MaxJobs
      modifies this`states, this`sidecars
      ensures var before := Lookup(old(states), target.name);
              && FindState(before, target.name) == Some(idx) && |states| == |before|
              && (forall j :: 0 <= j < |states| && j != idx ==> states[j] == before[j])
              && Ran(before[idx], compiler, linker, old(sidecars), states[idx], sidecars, started, spawned, reaped, |started| > spawned)
      ensures var row0 := Lookup(old(states), target.name)[idx];
              && row0.compileJobs == old(JobsFor(states, target.name))
              && (outcome == NothingToBuild <==> |row0.compileJobs| == 0)
              && (outcome == Finished ==>
                    && spawned == |row0.compileJobs| && |reaped| == spawned
                    && (forall k :: 0 <= k < spawned ==> k in reaped)
                    && HasCompilationFinished(states[idx])
                    && (|started| > spawned <==> row0.needsLinking))
              && (outcome == Spins ==> spawned < |row0.compileJobs| && row0.compileJobs[spawned].status != Pending)
              && (parallelJobs == 0 && |row0.compileJobs| > 0 ==> outcome == RoundsExhausted)
      ensures |reapedIn| == |reaped| && forall j :: 0 <= j < |reaped| ==> reapedIn[j] < |rounds| && EndedWell(rounds[reapedIn[j]], reaped[j])
      ensures outcome.Halted? ==> exists r, k :: 0 <= r < |rounds| && 0 <= k < spawned && k !in reaped && EndedBadly(rounds[r], k, outcome.code)
      ensures |reapedBefore| == spawned && WithinParallelism(reapedBefore, reaped, parallelJobs as nat)
    {
      LookupJobs(states, target.name);
      var at := GetTargetBuildState(target.name);
      idx := at;
      var row0 := states[at];
      var parallel := parallelJobs as nat;
      if |row0.compileJobs| == 0 {
        ScheduledInitially(row0, parallel, compiler, linker, sidecars);
        return NothingToBuild, [], idx, 0, [], [], [];
      }
      var s;
      ghost var g;
      outcome, s, g, reapedIn := BuildLoop(row0, parallel, compiler, linker, sidecars, rounds);
      HoldsRan(row0, parallel, compiler, linker, sidecars, s, g);
      states, sidecars := states[at := s.row], s.sidecars;
      started, spawned, reaped, reapedBefore := s.started, g.spawned, g.reaped, g.reapedBefore;
    }

    /**
     * `run_build` as `build_target` uses it, on the table that planning the
     * target from `states0` and the sidecars `sc0` produced: the build ends as
     * `BuildEnds` describes.
     */
    method RunPrepared(target: Target, rounds: seq<map<nat, ProcessEnd>>, ghost states0: seq<BuildState>, ghost sc0: map<Path, string>)
      returns (run: RunOutcome, started: seq<Start>, ghost reaped: seq<nat>, ghost written: seq<CompileParameters>)
      requires Valid()
      requires PlanTarget(states0, sc0, files, Dirs(), target, true) == Success(states) && sidecars == sc0
      requires |JobsFor(states, target.name)| < MaxJobs
      modifies this`states, this`sidecars
      ensures BuildEnds(states0, sc0, files, Dirs(), target, Built(run), states, sidecars, reaped, written)
    {
      ghost var planned := states;
      ghost var idx, spawned, reapedBefore, reapedIn;
      run, started, idx, spawned, reaped, reapedBefore, reapedIn := RunBuild(target, rounds);
      written := ReapedRecords(Lookup(planned, target.name)[idx].compileJobs, reaped);
      PreparedRunEnds(states0, sc0, files, Dirs(), target, planned, idx, compiler, linker, run, states, sidecars, started, spawned, reaped);
    }

    /**
     * `build_target`: in clean mode the build directory is removed with every
     * sidecar in it and nothing is built; otherwise the target's compilation
     * and link are prepared in build-directory mode (a malformed sidecar ends
     * the program) and `run_build` runs it. When every job of a target built
     * for the first time succeeded, planning it again finds nothing to do.
     */
    method BuildTarget(target: Target, rounds: seq<map<nat, ProcessEnd>>)
      returns (outcome: BuildOutcome, started: seq<Start>, ghost reaped: seq<nat>, ghost written: seq<CompileParameters>)
      requires Valid()
      requires |JobsFor(states, target.name)| + |target.sources| < MaxJobs
      modifies this`states, this`sidecars
      ensures cleanMode ==> outcome == Cleaned && states == old(states) && sidecars == old(RemoveTree(sidecars, Canonical(cwd, buildDir)))
      ensures !cleanMode ==> BuildEnds(old(states), old(sidecars), files, Dirs(), target, outcome, states, sidecars, reaped, written)
    {
      if cleanMode {
        RemoveBuildDirectory();
        return Cleaned, [], [], [];
      }
      outcome, started, reaped, written := BuildInBuildDirectory(target, rounds);
    }

    /** `remove_all(build_directory)`: every sidecar under the canonical build directory is removed. */
    method RemoveBuildDirectory()
      requires Valid()
      modifies this`sidecars
      ensures sidecars == old(RemoveTree(sidecars, Canonical(cwd, buildDir)))
    {
      sidecars := RemoveTree(sidecars, Canonical(cwd, buildDir));
    }

    /** The else branch of `build_target` (nobs.hpp lines 722-729): prepare in build-directory mode, then `run_build`. */
    method BuildInBuildDirectory(target: Target, rounds: seq<map<nat, ProcessEnd>>)
      returns (outcome: BuildOutcome, started: seq<Start>, ghost reaped: seq<nat>, ghost written: seq<CompileParameters>)
      requires Valid()
      requires |JobsFor(states, target.name)| + |target.sources| < MaxJobs
      modifies this`states, this`sidecars
      ensures BuildEnds(old(states), old(sidecars), files, Dirs(), target, outcome, states, sidecars, reaped, written)
    {
      reaped, written := [], [];
      ghost var lay := Dirs();
      ghost var states0 := states;
      ghost var sc0 := sidecars;
      var failure := PrepareTarget(target, true);
      if failure.Some? {
        BuildEndsFailed(states0, sc0, files, lay, target, states, reaped, written);
        return PlanFailed(failure.value), [], reaped, written;
      }
      var run;
      run, started, reaped, written := RunPrepared(target, rounds, states0, sc0);
      outcome := Built(run);
    }

    /**
     * `clean_target_build_artifacts`: the object file of every source, in
     * source order: `<canonical build directory>/<source>.o` in build-directory
     * mode, `<source>.o` as spelled otherwise. Object files are not part of
     * the modelled file system, so the paths removed are returned.
     */
    method CleanTargetBuildArtifacts(target: Target, inBuildDir: bool) returns (removed: seq<Path>)
      requires Valid()
      ensures removed == CleanedObjects(Dirs(), target, inBuildDir)
    {
      removed := [];
      var k := 0;
      while k < |target.sources|
        invariant k <= |target.sources|
        invariant removed == CleanedObjects(Dirs(), target, inBuildDir)[..k]
      {
        var objectFile;
        if inBuildDir {
          var canonicalBuildDir := Canonical(cwd, buildDir);
          objectFile := AppendToName(Combine(canonicalBuildDir, target.sources[k]), ObjectFileExtension);
        } else {
          objectFile := AppendToName(target.sources[k], ObjectFileExtension);
        }
        removed := removed + [objectFile];
        k := k + 1;
      }
    }

    /**
     * `enable_command_line_params`: the arguments after the program name are
     * read in order; the result is the exit code when the program exits,
     * otherwise clean mode and the job count are left as the arguments set
     * them.
     */
    method EnableCommandLineParams(args: seq<string>) returns (exit: Option<int>)
      modifies this`cleanMode, this`parallelJobs
      ensures match ParseArgs(args, 1, old(cleanMode), old(parallelJobs))
              case Exit(code) => exit == Some(code)
              case Continue(clean, jobs) => exit == None && cleanMode == clean && parallelJobs == jobs
    {
      if |args| == 1 {
        return None;
      }
      var i := 1;
      while i < |args|
        invariant 1 <= i
        invariant ParseArgs(args, i, cleanMode, parallelJobs) == ParseArgs(args, 1, old(cleanMode), old(parallelJobs))
        decreases |args| - i
      {
        var param := args[i];
        ghost var rest := ParseArgs(args, i, cleanMode, parallelJobs);
        if param == "--help" || param == "-h" {
          assert rest == Exit(0);
          return Some(0);
        } else if param == "--clean" || param == "-c" {
          assert rest == ParseArgs(args, i + 1, true, parallelJobs);
          cleanMode := true;
        } else if param == "--jobs" || param == "-m" {
          if i + 1 < |args| {
            var parsed := Stoull(args[i + 1]);
            if parsed.Failure? {
              assert rest == Exit(1);
              return Some(1);
            }
            assert rest == ParseArgs(args, i + 2, cleanMode, ClampJobs(parsed.value));
            SetParallelJobs(parsed.value);
            i := i + 1;
          } else {
            assert rest == Exit(1);
            return Some(1);
          }
        } else {
          assert rest == ParseArgs(args, i + 1, cleanMode, parallelJobs);
        }
        i := i + 1;
      }
      exit := None;
    }

    /**
     * `prepare_target_compilation` then `prepare_target_linking`, as
     * `build_target` (nobs.hpp lines 726-727) and `enable_self_rebuild` (lines 743-744)
     * call them.
     */
    method PrepareTarget(target: Target, inBuildDir: bool) returns (failure: Option<SidecarError>)
      requires Valid()
      modifies this`states
      ensures var plan := old(PlanTarget(states, sidecars, files, Dirs(), target, inBuildDir));
              && (plan.Failure? ==> failure == Some(plan.error))
              && (plan.Success? ==> failure == None && states == plan.value)
      ensures failure == None ==> EntryOf(states, target.name).Some?
      ensures failure == None ==> |JobsFor(states, target.name)| <= |old(JobsFor(states, target.name))| + |target.sources|
    {
      PlanTargetJobs(states, sidecars, files, Dirs(), target, inBuildDir);
      ghost var planned := PlanFiles(states, sidecars, files, Dirs(), target.name, Join(target.compileFlags, ' '), inBuildDir, target.sources);
      failure := PrepareTargetCompilation(target, inBuildDir);
      if failure.Some? {
        return;
      }
      assert states == planned.value;
      PrepareTargetLinking(target, inBuildDir);
    }

    /**
     * The end of `enable_self_rebuild` (nobs.hpp lines 753-755) once the script needs
     * linking: `run_build` (which ends the program unless every job
     * succeeded), the removal of the object file, and `restart_itself`.
     */
    method RebuildAndRestart(script: Path, rounds: seq<map<nat, ProcessEnd>>, execSucceeds: bool)
      returns (result: SelfRebuild, removed: seq<Path>, ghost reaped: seq<nat>, ghost written: seq<CompileParameters>)
      requires Valid()
      requires |JobsFor(states, ScriptName(script))| < MaxJobs
      modifies this`states, this`sidecars
      ensures AfterRun(old(Lookup(states, ScriptName(script))), ScriptName(script), old(sidecars), states, sidecars, reaped, written)
      ensures result.Replaced? || result.ExitedAfterExec? ==> ReapedEvery(old(Lookup(states, ScriptName(script))), ScriptName(script), reaped)
      ensures result.BuildStopped? || result.Replaced? || result.ExitedAfterExec?
      ensures result.BuildStopped? ==> (result.run.Halted? || result.run == Spins || result.run == RoundsExhausted) && removed == []
      ensures result.Replaced? ==> execSucceeds && result.binary == ScriptName(script)
      ensures result.ExitedAfterExec? ==> !execSucceeds && result.code == 0
      ensures result.Replaced? || result.ExitedAfterExec? ==> removed == CleanedObjects(Dirs(), SelfTarget(script), false)
    {
      var t := SelfTarget(script);
      ghost var planned := Lookup(states, t.name);
      LookupJobs(states, t.name);
      var outcome, started;
      ghost var idx, spawned, reapedBefore, reapedIn;
      outcome, started, idx, spawned, reaped, reapedBefore, reapedIn := RunBuild(t, rounds);
      written := ReapedRecords(planned[idx].compileJobs, reaped);
      RanAfterRun(planned, idx, t.name, compiler, linker, old(sidecars), states, sidecars, started, spawned, reaped);
      if outcome != Finished && outcome != NothingToBuild {
        return BuildStopped(outcome), [], reaped, written;
      }
      removed := CleanTargetBuildArtifacts(t, false);
      result := if execSucceeds then Replaced(t.name) else ExitedAfterExec(0);
    }

    /**
     * The part of `enable_self_rebuild` after planning (nobs.hpp lines 746-755): the
     * script's row is looked up, and only when it needs linking is the
     * script rebuilt and the process restarted.
     */
    method RebuildIfNeeded(script: Path, rounds: seq<map<nat, ProcessEnd>>, execSucceeds: bool)
      returns (result: SelfRebuild, removed: seq<Path>, ghost reaped: seq<nat>, ghost written: seq<CompileParameters>)
      requires Valid()
      requires EntryOf(states, ScriptName(script)).Some?
      requires |JobsFor(states, ScriptName(script))| < MaxJobs
      modifies this`states, this`sidecars
      ensures AfterRun(old(states), ScriptName(script), old(sidecars), states, sidecars, reaped, written)
      ensures result.Replaced? || result.ExitedAfterExec? ==> ReapedEvery(old(states), ScriptName(script), reaped)
      ensures result == UpToDate <==> !old(NeedsLinking(states, ScriptName(script)))
      ensures result == UpToDate ==> states == old(states) && sidecars == old(sidecars) && removed == []
      ensures result == UpToDate || result.BuildStopped? || result.Replaced? || result.ExitedAfterExec?
      ensures result.BuildStopped? ==> (result.run.Halted? || result.run == Spins || result.run == RoundsExhausted) && removed == []
      ensures result.Replaced? ==> execSucceeds && result.binary == ScriptName(script)
      ensures result.ExitedAfterExec? ==> !execSucceeds && result.code == 0
      ensures result.Replaced? || result.ExitedAfterExec? ==> removed == CleanedObjects(Dirs(), SelfTarget(script), false)
    {
      LookupJobs(states, ScriptName(script));
      var i := GetTargetBuildState(ScriptName(script));
      if !states[i].needsLinking {
        AfterNoRun(states, ScriptName(script), sidecars);
        return UpToDate, [], [], [];
      }
      result, removed, reaped, written := RebuildAndRestart(script, rounds, execSucceeds);
    }

    /**
     * `enable_self_rebuild` for the build script `script`: `canonical` fails
     * when the script does not exist; otherwise an executable target named
     * after the script is added and planned in place with the default C++
     * standard. When its row does not need linking nothing more happens;
     * otherwise it is built, its object file removed, and the process
     * replaced by the new binary (or, when `execl` fails, ended with exit
     * code 0). The command-line arguments are not passed on.
     */
    method EnableSelfRebuild(script: Path, rounds: seq<map<nat, ProcessEnd>>, execSucceeds: bool)
      returns (result: SelfRebuild, removed: seq<Path>, ghost reaped: seq<nat>, ghost written: seq<CompileParameters>)
      requires Valid()
      requires |JobsFor(states, ScriptName(script))| + 1 < MaxJobs
      modifies this`targets, this`states, this`sidecars
      ensures Canonical(cwd, script) !in files <==> result == ScriptMissing
      ensures result == ScriptMissing ==> targets == old(targets) && states == old(states) && sidecars == old(sidecars)
      ensures result != ScriptMissing ==> targets == old(targets) + [SelfTarget(script)]
      ensures var plan := old(PlanTarget(states, sidecars, files, Dirs(), SelfTarget(script), false));
              result != ScriptMissing ==>
                && (plan.Failure? <==> result.SidecarFailure?)
                && (plan.Failure? ==> result == SidecarFailure(plan.error) && sidecars == old(sidecars))
                && (plan.Success? && !NeedsLinking(plan.value, ScriptName(script)) <==> result == UpToDate)
                && (result == UpToDate ==> states == plan.value && sidecars == old(sidecars))
                && (plan.Success? ==> AfterRun(plan.value, ScriptName(script), old(sidecars), states, sidecars, reaped, written))
                && (result.Replaced? || result.ExitedAfterExec? ==> ReapedEvery(plan.value, ScriptName(script), reaped))
      ensures result.BuildStopped? ==> result.run.Halted? || result.run == Spins || result.run == RoundsExhausted
      ensures result.Replaced? ==> execSucceeds && result.binary == ScriptName(script)
      ensures result.ExitedAfterExec? ==> !execSucceeds && result.code == 0
      ensures result.Replaced? || result.ExitedAfterExec? ==> removed == CleanedObjects(Dirs(), SelfTarget(script), false)
      ensures !(result.Replaced? || result.ExitedAfterExec?) ==> removed == []
    {
      removed, reaped, written := [], [], [];
      if Canonical(cwd, script) !in files {
        return ScriptMissing, removed, reaped, written;
      }
      targets := targets + [SelfTarget(script)];
      var failure := PrepareTarget(SelfTarget(script), false);
      if failure.Some? {
        return SidecarFailure(failure.value), removed, reaped, written;
      }
      result, removed, reaped, written := RebuildIfNeeded(script, rounds, execSucceeds);
    }
  }
}
