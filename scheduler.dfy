/**
 * The bookkeeping of `run_build`: the processes it waits for, the progress
 * lines it prints before starting each process, and the invariant its loop
 * keeps over one row of the build-state table. Processes are named by job
 * index (the compile job `k` runs as process `k`, the link as process `n`,
 * the number of compile jobs); which of them have ended, and how, is told by
 * the caller one polling round at a time.
 */
module Scheduler {
  import opened Paths
  import opened Cache
  import opened Planning
  import opened Commands

  /**
   * An upper bound on the number of compile jobs one row can hold:
   * `std::vector<CompileJob>::max_size()` is far below it, so neither
   * `jobs_count + 1` nor `(completed + pending + 1) * 100` wraps.
   */
  const MaxJobs: nat := 0x100_0000_0000_0000

  /** The low eight bits of a process's exit status, as `WEXITSTATUS` extracts them. */
  type ExitStatus = x: int | 0 <= x < 256

  /** How a child process ended, as `waitpid` reports it. */
  datatype ProcessEnd = Exited(status: ExitStatus) | Signalled

  /** `WIFEXITED(status) ? WEXITSTATUS(status) : -1`: a status byte, or -1 for a process ended by a signal. */
  function ExitCode(e: ProcessEnd): (code: int)
    ensures -1 <= code < 256
    ensures code == -1 <==> e.Signalled?
  {
    match e
    case Exited(s) => s
    case Signalled => -1
  }

  /** An entry of `pending_processes`. */
  datatype PendingProcess = PendingProcess(jobIndex: nat, pid: nat, isCompileJob: bool)

  /** The entry is a compile process that the round reports as ended. */
  predicate Reported(e: PendingProcess, round: map<nat, ProcessEnd>) {
    e.isCompileJob && e.pid in round
  }

  /** Process `k` is reported as ended in the round, with exit code 0. */
  predicate EndedWell(round: map<nat, ProcessEnd>, k: nat) {
    k in round && ExitCode(round[k]) == 0
  }

  /** Process `k` is reported as ended in the round, with the non-zero exit code `code`. */
  predicate EndedBadly(round: map<nat, ProcessEnd>, k: nat, code: int) {
    k in round && ExitCode(round[k]) == code && code != 0
  }

  /** The entries a reaping pass over `pending` keeps: those the round does not report, in their order. */
  function Survivors(pending: seq<PendingProcess>, round: map<nat, ProcessEnd>): (r: seq<PendingProcess>)
    ensures |r| <= |pending|
    ensures forall j :: 0 <= j < |r| ==> r[j] in pending && !Reported(r[j], round)
  {
    if pending == [] then []
    else
      var last := pending[|pending| - 1];
      Survivors(pending[..|pending| - 1], round) + (if Reported(last, round) then [] else [last])
  }

  /**
   * One step of the reaping pass: when the first `seen` entries have been
   * passed over, the entry under the cursor is the next original one; erasing
   * it (when reported) or stepping past it (otherwise) leaves the survivors of
   * one more entry followed by the rest.
   */
  lemma SurvivorsStep(pending: seq<PendingProcess>, round: map<nat, ProcessEnd>, seen: nat, cur: seq<PendingProcess>)
    requires seen < |pending| && cur == Survivors(pending[..seen], round) + pending[seen..]
    ensures var i := |Survivors(pending[..seen], round)|;
            var e := pending[seen];
            && i < |cur| && cur[i] == e
            && (Reported(e, round) ==> cur[..i] + cur[i + 1..] == Survivors(pending[..seen + 1], round) + pending[seen + 1..]
                                       && |Survivors(pending[..seen + 1], round)| == i)
            && (!Reported(e, round) ==> cur == Survivors(pending[..seen + 1], round) + pending[seen + 1..]
                                        && |Survivors(pending[..seen + 1], round)| == i + 1)
  {
    var i := |Survivors(pending[..seen], round)|;
    assert pending[..seen + 1][..seen] == pending[..seen];
    assert pending[..seen + 1][seen] == pending[seen];
    assert pending[seen..] == [pending[seen]] + pending[seen + 1..];
  }

  /** The entry pushed for the link process after its blocking wait: job index 0, not a compile job. */
  function LinkEntry(pid: nat): PendingProcess {
    PendingProcess(0, pid, false)
  }

  /**
   * How a call of `run_build` ends: it returns at once when there is nothing
   * to build, returns after its loop, or the program exits with a failed
   * process's code; `Spins` is the spawn loop repeating forever on a job that
   * is not pending, and `RoundsExhausted` a run still going when the caller's
   * rounds run out.
   */
  datatype RunOutcome = NothingToBuild | Finished | Halted(code: int) | Spins | RoundsExhausted

  /** One `print_job_status` line before a process is started: percent, ordinal, total, kind and command. */
  datatype Start = Start(percent: int, ordinal: nat, total: nat, isCompileJob: bool, command: seq<string>)

  /** `has_compilation_finished`: every compile job of the row is completed. */
  predicate HasCompilationFinished(row: BuildState) {
    forall k :: 0 <= k < |row.compileJobs| ==> row.compileJobs[k].status == Completed
  }

  /** The line printed before compile job `k` is started, when `k` jobs have been started before it. */
  function CompileStart(compiler: string, jobs: seq<CompileJob>, k: nat): Start
    requires k < |jobs| < MaxJobs
  {
    Start(ComputePercent(k, 0, |jobs| + 1), k, |jobs|, true, CompileCommand(compiler, jobs[k].params))
  }

  /** The line printed before the link process is started, after `ordinal` compile jobs. */
  function LinkStart(linker: string, link: LinkParameters, total: nat, ordinal: nat): Start
    requires ordinal <= total < MaxJobs
  {
    Start(ComputePercent(ordinal, 0, total + 1), ordinal, total, false, LinkCommand(linker, link))
  }

  /** The status of job `k` after the first `spawned` jobs were started and the jobs in `reaped` completed. */
  function StatusAfter(jobs0: seq<CompileJob>, spawned: nat, reaped: seq<nat>, k: nat): Status
    requires k < |jobs0|
  {
    if k in reaped then Completed else if k < spawned then Running else jobs0[k].status
  }

  /** The records of the reaped jobs, in the order their sidecars were written. */
  function ReapedRecords(jobs: seq<CompileJob>, reaped: seq<nat>): (r: seq<CompileParameters>)
    requires forall j :: 0 <= j < |reaped| ==> reaped[j] < |jobs|
    ensures |r| == |reaped| && forall j :: 0 <= j < |reaped| ==> r[j] == jobs[reaped[j]].params
  {
    seq(|reaped|, j requires 0 <= j < |reaped| => jobs[reaped[j]].params)
  }

  predicate Distinct(xs: seq<nat>) {
    forall a, b :: 0 <= a < b < |xs| ==> xs[a] != xs[b]
  }

  /** Compile job `k` has an entry among the pending processes. */
  ghost predicate InFlight(pending: seq<PendingProcess>, k: nat) {
    exists j :: 0 <= j < |pending| && pending[j].isCompileJob && pending[j].jobIndex == k
  }

  /**
   * What a run has done to a row, as seen from outside: the first `spawned`
   * jobs (all pending before) were started in index order, each with its
   * progress line; the jobs in `reaped` completed and their sidecars were
   * written in that order; the others started are still running and the rest
   * are untouched; if `linked`, the link job was marked running and its line
   * printed last.
   */
  ghost predicate Ran(row0: BuildState, compiler: string, linker: string, sc0: map<Path, string>,
                      row: BuildState, sc: map<Path, string>, started: seq<Start>, spawned: nat, reaped: seq<nat>, linked: bool)
  {
    var jobs0 := row0.compileJobs;
    var n := |jobs0|;
    && n < MaxJobs
    && row.name == row0.name && row.needsLinking == row0.needsLinking && |row.compileJobs| == n
    && spawned <= n
    && (forall j :: 0 <= j < |reaped| ==> reaped[j] < spawned)
    && Distinct(reaped)
    && (forall k :: 0 <= k < spawned ==> jobs0[k].status == Pending)
    && (forall k :: 0 <= k < n ==> row.compileJobs[k] == CompileJob(jobs0[k].params, StatusAfter(jobs0, spawned, reaped, k)))
    && row.linkJob == (if linked then row0.linkJob.(status := Running) else row0.linkJob)
    && sc == SaveEach(sc0, ReapedRecords(jobs0, reaped))
    && |started| == spawned + (if linked then 1 else 0)
    && (forall k :: 0 <= k < spawned ==> started[k] == CompileStart(compiler, jobs0, k))
    && (linked ==> spawned <= n && started[spawned] == LinkStart(linker, row0.linkJob.params, n, spawned))
  }

  /** The loop variables of `run_build` other than the printed lines, with the ghost history the proof keeps. */
  datatype Progress = Progress(pending: seq<PendingProcess>, completed: nat, linkAdded: bool,
                               spawned: nat, reaped: seq<nat>, reapedBefore: seq<nat>)

  /**
   * The parallelism bound over a run's history: job `k` was started when
   * `reapedBefore[k]` of the reaped jobs had completed (a count that never
   * decreases from one start to the next), so `k + 1 - reapedBefore[k]`
   * compile processes were running right after it started, never more than
   * `parallel_jobs`.
   */
  predicate WithinParallelism(reapedBefore: seq<nat>, reaped: seq<nat>, parallel: nat) {
    && (forall k :: 0 <= k < |reapedBefore| ==> reapedBefore[k] <= k && reapedBefore[k] <= |reaped| && k + 1 - reapedBefore[k] <= parallel)
    && (forall a, b :: 0 <= a <= b < |reapedBefore| ==> reapedBefore[a] <= reapedBefore[b])
  }

  /** A compile entry of the pending processes: it is named by its job, was started and has not been reaped. */
  ghost predicate CompileEntry(g: Progress, j: nat)
    requires j < |g.pending|
  {
    var e := g.pending[j];
    e.isCompileJob && e.pid == e.jobIndex && e.jobIndex < g.spawned && e.jobIndex !in g.reaped
  }

  /**
   * The bookkeeping of the loop of `run_build` for `n` compile jobs:
   * `completed_jobs` counts the reaped jobs, and with the pending processes
   * it accounts for every started job; before the link is added every
   * pending entry is a distinct running compile job; once it is added the
   * link entry is the only one; no more than `parallel_jobs` compile
   * processes were ever pending at once, and with 0 nothing was started.
   */
  ghost predicate Book(n: nat, parallel: nat, g: Progress) {
    && g.spawned <= n
    && g.completed == |g.reaped|
    && (forall j :: 0 <= j < |g.reaped| ==> g.reaped[j] < g.spawned)
    && (g.linkAdded ==> g.pending == [LinkEntry(n)] && g.completed == g.spawned && (parallel == 0 || g.completed == n))
    && (!g.linkAdded ==> |g.pending| + g.completed == g.spawned)
    && (!g.linkAdded ==> forall j :: 0 <= j < |g.pending| ==> CompileEntry(g, j))
    && (!g.linkAdded ==> forall a, b :: 0 <= a < b < |g.pending| ==> g.pending[a].jobIndex != g.pending[b].jobIndex)
    && (forall k :: 0 <= k < g.spawned && k !in g.reaped ==> !g.linkAdded && InFlight(g.pending, k))
    && (parallel == 0 ==> g.spawned == 0)
    && |g.reapedBefore| == g.spawned
    && WithinParallelism(g.reapedBefore, g.reaped, parallel)
  }

  /** The invariant of the loop of `run_build`: what the run did so far, and its bookkeeping. */
  ghost predicate Scheduled(row0: BuildState, parallel: nat, compiler: string, linker: string, sc0: map<Path, string>,
                            row: BuildState, sc: map<Path, string>, started: seq<Start>, g: Progress)
  {
    && Ran(row0, compiler, linker, sc0, row, sc, started, g.spawned, g.reaped, g.linkAdded)
    && Book(|row0.compileJobs|, parallel, g)
  }

  /** The state before the loop's first round: nothing started, nothing pending. */
  lemma ScheduledInitially(row0: BuildState, parallel: nat, compiler: string, linker: string, sc0: map<Path, string>)
    requires |row0.compileJobs| < MaxJobs
    ensures Scheduled(row0, parallel, compiler, linker, sc0, row0, sc0, [], Progress([], 0, false, 0, [], []))
  {
    assert ReapedRecords(row0.compileJobs, []) == [];
    forall k | 0 <= k < |row0.compileJobs|
      ensures row0.compileJobs[k] == CompileJob(row0.compileJobs[k].params, StatusAfter(row0.compileJobs, 0, [], k))
    {
    }
  }

  /** The job after the started ones still has the status it had before the run. */
  lemma NextStatus(row0: BuildState, compiler: string, linker: string, sc0: map<Path, string>,
                   row: BuildState, sc: map<Path, string>, started: seq<Start>, spawned: nat, reaped: seq<nat>, linked: bool)
    requires Ran(row0, compiler, linker, sc0, row, sc, started, spawned, reaped, linked)
    requires spawned < |row0.compileJobs|
    ensures row.compileJobs[spawned] == row0.compileJobs[spawned]
  {
    assert spawned !in reaped;
  }

  /** Reaping a started job: it becomes completed and its record is written to its sidecar. */
  lemma RanReap(row0: BuildState, compiler: string, linker: string, sc0: map<Path, string>,
                row: BuildState, sc: map<Path, string>, started: seq<Start>, spawned: nat, reaped: seq<nat>, k: nat)
    requires Ran(row0, compiler, linker, sc0, row, sc, started, spawned, reaped, false)
    requires k < spawned && k !in reaped
    ensures row.compileJobs[k].status == Running
    ensures var p := row.compileJobs[k].params;
            Ran(row0, compiler, linker, sc0, row.(compileJobs := row.compileJobs[k := row.compileJobs[k].(status := Completed)]),
                sc[SidecarName(p.objectFile) := Serialize(p)], started, spawned, reaped + [k], false)
  {
    var jobs0 := row0.compileJobs;
    var p := row.compileJobs[k].params;
    var row' := row.(compileJobs := row.compileJobs[k := row.compileJobs[k].(status := Completed)]);
    var reaped' := reaped + [k];
    SaveReaped(sc0, jobs0, reaped, k);
    forall k2 | 0 <= k2 < |jobs0|
      ensures row'.compileJobs[k2] == CompileJob(jobs0[k2].params, StatusAfter(jobs0, spawned, reaped', k2))
    {
      assert (k2 in reaped') == (k2 in reaped || k2 == k);
    }
  }

  /** Reaping one more job writes its record after the earlier ones. */
  lemma SaveReaped(sc0: map<Path, string>, jobs: seq<CompileJob>, reaped: seq<nat>, k: nat)
    requires (forall j :: 0 <= j < |reaped| ==> reaped[j] < |jobs|) && k < |jobs|
    ensures var p := jobs[k].params;
            SaveEach(sc0, ReapedRecords(jobs, reaped + [k])) == SaveEach(sc0, ReapedRecords(jobs, reaped))[SidecarName(p.objectFile) := Serialize(p)]
  {
    var p := jobs[k].params;
    assert ReapedRecords(jobs, reaped + [k]) == ReapedRecords(jobs, reaped) + [p];
    SaveEachSnoc(sc0, ReapedRecords(jobs, reaped), p);
  }

  /** Starting the next job: it becomes running and its line is printed. */
  lemma RanSpawn(row0: BuildState, compiler: string, linker: string, sc0: map<Path, string>,
                 row: BuildState, sc: map<Path, string>, started: seq<Start>, spawned: nat, reaped: seq<nat>)
    requires Ran(row0, compiler, linker, sc0, row, sc, started, spawned, reaped, false)
    requires spawned < |row0.compileJobs| && row.compileJobs[spawned].status == Pending
    ensures Ran(row0, compiler, linker, sc0, row.(compileJobs := row.compileJobs[spawned := row.compileJobs[spawned].(status := Running)]),
                sc, started + [CompileStart(compiler, row0.compileJobs, spawned)], spawned + 1, reaped, false)
  {
    var jobs0 := row0.compileJobs;
    var row' := row.(compileJobs := row.compileJobs[spawned := row.compileJobs[spawned].(status := Running)]);
    assert spawned !in reaped;
    forall k | 0 <= k < |jobs0|
      ensures row'.compileJobs[k] == CompileJob(jobs0[k].params, StatusAfter(jobs0, spawned + 1, reaped, k))
    {
    }
  }

  /** Starting the link: the link job becomes running and its line is printed after the compile lines. */
  lemma RanLink(row0: BuildState, compiler: string, linker: string, sc0: map<Path, string>,
                row: BuildState, sc: map<Path, string>, started: seq<Start>, spawned: nat, reaped: seq<nat>)
    requires Ran(row0, compiler, linker, sc0, row, sc, started, spawned, reaped, false)
    ensures row.linkJob == row0.linkJob
    ensures Ran(row0, compiler, linker, sc0, row.(linkJob := row.linkJob.(status := Running)), sc,
                started + [LinkStart(linker, row0.linkJob.params, |row0.compileJobs|, spawned)], spawned, reaped, true)
  {
  }

  /** Reaping the compile entry at position `i`: it is erased, and its job joins the reaped ones. */
  lemma BookReap(n: nat, parallel: nat, g: Progress, i: nat)
    requires Book(n, parallel, g)
    requires i < |g.pending| && g.pending[i].isCompileJob
    ensures !g.linkAdded
    ensures var k := g.pending[i].jobIndex;
            && k < g.spawned && k !in g.reaped && g.pending[i].pid == k
            && Book(n, parallel, g.(pending := g.pending[..i] + g.pending[i + 1..], completed := g.completed + 1, reaped := g.reaped + [k]))
  {
    assert CompileEntry(g, i);
    var k := g.pending[i].jobIndex;
    var g' := g.(pending := g.pending[..i] + g.pending[i + 1..], completed := g.completed + 1, reaped := g.reaped + [k]);
    var pending' := g'.pending;
    assert |pending'| == |g.pending| - 1;
    assert forall j :: 0 <= j < |pending'| ==> pending'[j] == if j < i then g.pending[j] else g.pending[j + 1];
    forall j | 0 <= j < |pending'|
      ensures CompileEntry(g', j)
    {
      if j < i {
        assert CompileEntry(g, j);
      } else {
        assert CompileEntry(g, j + 1);
      }
    }
    forall k2 | 0 <= k2 < g'.spawned && k2 !in g'.reaped
      ensures !g'.linkAdded && InFlight(pending', k2)
    {
      assert InFlight(g.pending, k2);
      var j :| 0 <= j < |g.pending| && g.pending[j].isCompileJob && g.pending[j].jobIndex == k2;
      assert j != i;
      if j < i {
        assert pending'[j] == g.pending[j];
      } else {
        assert pending'[j - 1] == g.pending[j];
      }
    }
  }

  /** Starting the next compile job when there is room: it is job `completed_jobs + |pending|`, the next one not yet started. */
  lemma BookSpawn(n: nat, parallel: nat, g: Progress)
    requires Book(n, parallel, g)
    requires |g.pending| < parallel && g.completed + |g.pending| < n
    ensures !g.linkAdded && g.completed + |g.pending| == g.spawned
    ensures Book(n, parallel, g.(pending := g.pending + [PendingProcess(g.spawned, g.spawned, true)], spawned := g.spawned + 1,
                                 reapedBefore := g.reapedBefore + [g.completed]))
  {
    var entry := PendingProcess(g.spawned, g.spawned, true);
    var g' := g.(pending := g.pending + [entry], spawned := g.spawned + 1, reapedBefore := g.reapedBefore + [g.completed]);
    forall j | 0 <= j < |g'.pending|
      ensures CompileEntry(g', j)
    {
      if j < |g.pending| {
        assert CompileEntry(g, j);
      }
    }
    forall a, b | 0 <= a < b < |g'.pending|
      ensures g'.pending[a].jobIndex != g'.pending[b].jobIndex
    {
      if b == |g.pending| {
        assert CompileEntry(g, a);
      }
    }
    forall k | 0 <= k < g'.spawned && k !in g'.reaped
      ensures !g'.linkAdded && InFlight(g'.pending, k)
    {
      if k == g.spawned {
        assert g'.pending[|g.pending|] == entry;
      } else {
        assert InFlight(g.pending, k);
        var j :| 0 <= j < |g.pending| && g.pending[j].isCompileJob && g.pending[j].jobIndex == k;
        assert g'.pending[j] == g.pending[j];
      }
    }
  }

  /** Before the link is added, every pending entry names a running compile job. */
  lemma PendingRuns(row0: BuildState, parallel: nat, compiler: string, linker: string, sc0: map<Path, string>,
                    row: BuildState, sc: map<Path, string>, started: seq<Start>, g: Progress, j: nat)
    requires Scheduled(row0, parallel, compiler, linker, sc0, row, sc, started, g)
    requires !g.linkAdded && j < |g.pending|
    ensures g.pending[j].jobIndex < |row.compileJobs| && row.compileJobs[g.pending[j].jobIndex].status == Running
  {
    assert CompileEntry(g, j);
  }

  /** Once every job is completed nothing is pending. */
  lemma NothingPending(row0: BuildState, parallel: nat, compiler: string, linker: string, sc0: map<Path, string>,
                       row: BuildState, sc: map<Path, string>, started: seq<Start>, g: Progress)
    requires Scheduled(row0, parallel, compiler, linker, sc0, row, sc, started, g)
    requires !g.linkAdded && HasCompilationFinished(row)
    ensures g.pending == [] && g.completed == g.spawned
  {
    if g.pending != [] {
      PendingRuns(row0, parallel, compiler, linker, sc0, row, sc, started, g, 0);
    }
  }

  /**
   * Adding the link process after the spawn loop, with nothing pending: the
   * link entry is the only one; with `parallel_jobs` at least 1 the spawn
   * loop ended because every job was started, so all of them were reaped.
   */
  lemma BookLink(n: nat, parallel: nat, g: Progress)
    requires Book(n, parallel, g)
    requires !g.linkAdded && g.pending == []
    requires |g.pending| >= parallel || g.completed + |g.pending| >= n
    ensures Book(n, parallel, g.(pending := g.pending + [LinkEntry(n)], linkAdded := true))
  {
  }

  /** When every job is reaped, every job was started and reaped and every job is completed. */
  lemma AllReaped(row0: BuildState, parallel: nat, compiler: string, linker: string, sc0: map<Path, string>,
                  row: BuildState, sc: map<Path, string>, started: seq<Start>, g: Progress)
    requires Scheduled(row0, parallel, compiler, linker, sc0, row, sc, started, g)
    requires g.completed >= |row0.compileJobs|
    ensures g.completed == g.spawned == |row0.compileJobs|
    ensures forall k :: 0 <= k < |row0.compileJobs| ==> k in g.reaped
    ensures HasCompilationFinished(row)
  {
  }
}
