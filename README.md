# nobs build engine, modelled in Dafny

`nobs.hpp` is a header-only C++ build tool: a build script declares targets
(a name, sources and compile flags) and calls `build_target`, which compiles
only the sources whose cached build record is stale and then links. This
project models the incremental build engine at its core:

- the change-detection cache:
  - the `CompileParameters` record and its `operator==`;
  - the four-line sidecar file (`<object>.o.meta`) that `save_meta_file` writes and `read_compile_parameters_from_file` reads back, including `std::getline`, `c_str()` and `std::stoull`;
  - `get_file_timestamp`.
- the derived paths: the object file and the sidecar of a source, in build-directory mode and in place. `std::filesystem::path` is modelled as a root flag plus a sequence of names, and `canonical`/`relative` as lexical normalisation against the current directory.
- planning (`prepare_file_compilation`, `prepare_target_compilation`, `prepare_target_linking`, `get_target_build_state`):
  - pure functions over the build-state table (module `Planning`);
  - the methods of the class `Engine.Session`, whose fields are the engine's globals, proved equal to those functions.
- the command lines (`build_command_for_compile_job`, `build_command_for_link_job`) and `compute_percent`, with its `size_t` wrap-around and `int` cast written out.
- `run_build`:
  - its loop of non-blocking reaps, bounded spawning and the blocking link, as imperative methods (`Engine.ReapRound`, `Engine.SpawnJobs`, `Engine.StartLink`, `Engine.BuildLoop`);
  - proved against an invariant (`Scheduler.Ran`, `Scheduler.Book`) that says which jobs were started, which completed, which sidecars were written in which order, what progress lines were printed, and that never more than `parallel_jobs` compile processes are pending.
  - The operating system is a parameter: a sequence of polling rounds, each telling which pending processes have ended and how.
- `build_target`, `clean_target_build_artifacts`, `enable_command_line_params` and `enable_self_rebuild`.

The central property is the rebuild no-op (`Rebuild.RebuildPlansNothing`, `Engine.FinishedBuildIsUpToDate`). When a target built for the first time finishes every job, planning it again changes nothing, as long as sources, flags and timestamps are unchanged: every sidecar now holds its source's fresh record, so no job is added. `Cache.ReadWritten` is the round trip underneath: a sidecar written for a record reads back as an equal record. The next run of the program starts with an empty table and plans neither a compile job nor a link job for such a target (`Engine.SecondRunBuildsNothing`).

The no-op needs sources that share a sidecar to agree on its record (`Rebuild.SharedSidecarsAgree`). One target that lists both "a.cpp" and "./a.cpp" breaks this: both map to `<build>/a.cpp.o` and one sidecar, but their records differ in `source_file`. Each run then finds one of them stale and recompiles it.

`run_build` fails fast: the first reaped process whose exit code is not 0 halts the run with that code (`Engine.ReapRound`, `Engine.BuildLoop`). A process that exits reports a status byte, 0 to 255 (`Scheduler.ExitStatus`); one ended by a signal reports -1.

Where the code and the repository's own description of it differ, the model follows the code:

- `-m 0` is not an argument error. `set_parallel_jobs` turns it into 1 (`Engine.JobsOption`).
- The default job count, `hardware_concurrency()`, is not clamped. With 0 jobs, `run_build` never starts a compile process (`Engine.BuildLoop`).
- A failed `execl` in `restart_itself` exits with code 0 (`Engine.SelfRebuild.ExitedAfterExec`).
- Unknown command-line arguments are ignored (`Engine.ParseArgs`).
- In place (the self-rebuild), a source in a subdirectory is compiled to `./<file name>.o`, but the link and the clean use `./<relative path>.o` (`Planning.InPlaceLinkObjectDiffers`). The model keeps both paths as written.

## Model

| member | source | states |
|---|---|---|
| `Text.CStr` | nobs.hpp:229-247 | the text a `c_str()` hands on is the prefix before the first NUL, and is the whole string when there is none |
| `Text.TokenizeJoin` | nobs.hpp:423-428 | splitting the space-joined flags at whitespace, as `istringstream >> flag` does, gives back exactly the flags in order, when each is a non-empty whitespace-free token |
| `Decimal.ToDecimal` | nobs.hpp:266 | the decimal text of a timestamp is a non-empty digit string without a leading zero |
| `Decimal.Stoull` | nobs.hpp:247 | `stoull` on a digit string gives its value below 2^64, `out_of_range` at or above it, `invalid_argument` when there is no digit |
| `Decimal.DecimalValue` | nobs.hpp:266 | the digits printed for a number denote that number |
| `Decimal.StoullDecimal` | nobs.hpp:247 | reading back a printed 64-bit timestamp with `stoull` gives the same timestamp |
| `Paths.Parse` | nobs.hpp:229-235 | a path built from text is absolute exactly when the text starts with '/' |
| `Paths.ParseRender` | nobs.hpp:263-264 | a path written with `string()` and read back with `path(const char*)` is the same path, when its names are non-empty and slash-free |
| `Paths.AppendToName` | nobs.hpp:329 | appending ".o" or ".meta" keeps the root and the number of names; a path without names gets one |
| `Paths.AppendToNameText` | nobs.hpp:329-331 | the leading names are kept and the last name is extended by the suffix (a path without names gets the suffix as its only name), so the text of the path grows by exactly the suffix |
| `Paths.ParentFilename` | nobs.hpp:313-328 | `parent_path()` followed by `/ filename()` (`Parent`, `Combine`, `Filename`) gives back any path with names, so `filename()` is the last name alone |
| `Paths.Stem` | nobs.hpp:738 | `stem()` is a prefix of the name; when it is shorter, it is non-empty, the name continues with a dot, and no dot follows that one |
| `Paths.Normalize` | nobs.hpp:301 | normalising keeps the root, and an absolute path comes out canonical |
| `Paths.Canonical` | nobs.hpp:301 | `canonical` always gives an absolute path with no ".", ".." or empty names |
| `Paths.CanonicalKeeps` | nobs.hpp:326 | `canonical` leaves an already canonical path unchanged |
| `Paths.Relative` | nobs.hpp:306 | `relative` always gives a relative path |
| `Paths.RelativeBelow` | nobs.hpp:304-311 | a path below the base directory is relative to it by exactly the names below it |
| `Cache.Same` | nobs.hpp:70-76 | `operator==` holds exactly when all four fields agree |
| `Cache.ReadLine` | nobs.hpp:225 | `getline` fails only at the end of the file; a line it reads has no line break, and what is left is shorter |
| `Cache.ReadSidecar` | nobs.hpp:225-243 | an empty sidecar is refused at the source line, and the flags of a record read back never hold a NUL or a line break |
| `Cache.ReadLineUnlines` | nobs.hpp:225-241 | `getline` on lines each ended by a line break reads the first line and leaves the others, and fails on none |
| `Cache.ReadSidecarLines` | nobs.hpp:210-249 | a sidecar of 0, 1, 2 or 3 lines is refused at the source, object, flags or timestamp line; with four or more, a timestamp `stoull` refuses gives that error, and otherwise the record is the first three lines and the timestamp's value |
| `Cache.ReadLineOf` | nobs.hpp:225-241 | `getline` reads back a line written with `println`, and leaves what followed it |
| `Cache.ReadWritten` | nobs.hpp:259-271 | reading the sidecar `save_meta_file` wrote gives back a record equal to the one written, when its paths and flags fit on one line each |
| `Cache.SaveEach` | nobs.hpp:497 | writing sidecars never removes one |
| `Cache.SaveEachSnoc` | nobs.hpp:497 | writing one more record replaces that record's sidecar and leaves what was written before |
| `Cache.SaveEachHolds` | nobs.hpp:497 | after writes that never give one sidecar two different records, each written record's sidecar holds its text |
| `Cache.SaveEachElsewhere` | nobs.hpp:497 | a sidecar no write names exists afterwards exactly when it did before, with its old content |
| `Cache.SaveEachAt` | nobs.hpp:497 | a sidecar that receives only one record's text holds that text if it was written, and its old state otherwise |
| `Planning.FindState` | nobs.hpp:287-293 | the loop finds the first row with the name, or reports that no row has it |
| `Planning.AddJob` | nobs.hpp:350-352 | the target's row exists, gains exactly one pending job at the end and needs linking; its link job is kept, a new row is appended at the end, and every other row is unchanged |
| `Planning.MetafileName` | nobs.hpp:251-257 | the sidecar looked up for a source is the one `save_meta_file` writes for its object file (lines 259-261) |
| `Planning.ObjectUnderBuildDir` | nobs.hpp:313-329 | in build-directory mode the object of a normal relative source is the source's path under the canonical build directory, with ".o" appended |
| `Planning.CompileObjectName` | nobs.hpp:313-329 | in either mode the object of a source (`CompileObject`) is an absolute path whose last name is the source's file name plus ".o" |
| `Planning.MetafileUnderBuildDir` | nobs.hpp:331 | in build-directory mode the sidecar is the object's path with ".meta" appended |
| `Planning.DistinctObjects` | nobs.hpp:313-331 | in build-directory mode two different normal relative sources never share an object file or a sidecar |
| `Planning.SpellingsAgree` | nobs.hpp:303-311 | when the project directory is the current directory, an absolute source in it and its relative spelling get the same record and the same sidecar |
| `Planning.CheckCache` | nobs.hpp:340-347 | a missing sidecar means stale; the source is up to date exactly when the sidecar reads back as the fresh record, and stale exactly when it is missing or reads back as a different record; otherwise the read fails |
| `Planning.PlanFilesChecks` | nobs.hpp:369-372 | planning the sources one after another (`PlanFiles`, each turn `PlanFile`) is the fold of the per-source decision over their checks (`CheckSource`) |
| `Planning.AsPending` | nobs.hpp:351 | each stale record becomes one pending job, in order |
| `Planning.PlanStepAppends` | nobs.hpp:340-352 | a stale source appends its pending job to its target's row, and an up-to-date one changes nothing |
| `Planning.PlanAllAppends` | nobs.hpp:369-372 | planning a target appends one pending job per stale source, in source order, to its row and changes no other row; the row needs linking if any was added, and the table is untouched if none was |
| `Planning.PlanFilesJobs` | nobs.hpp:355-373 | `prepare_target_compilation` adds at most one job per source, all for stale sources, to the target's row only |
| `Planning.PlanAllSnoc` | nobs.hpp:369-372 | planning one more source continues from the table the earlier sources produced |
| `Planning.PlanAllFailureStops` | nobs.hpp:342 | a malformed sidecar ends planning with its error, whatever sources follow |
| `Planning.PlanFilesFrom` | nobs.hpp:369-372 | one turn of the source loop: what remains is this source's step, then the rest unless the step failed |
| `Planning.PlanAllUpToDate` | nobs.hpp:340-347 | when every sidecar matches, planning adds no job and leaves the table as it was |
| `Planning.PlanAllSucceeds` | nobs.hpp:355-373 | planning succeeds exactly when no source's sidecar is malformed |
| `Planning.StaleRecordsMembers` | nobs.hpp:340-352 | a record is queued exactly when some source was found stale with that record |
| `Planning.StaleRecordsAll` | nobs.hpp:340-352 | when every source is found stale, one record per source is queued, each that source's fresh record, in source order |
| `Planning.LinkObjectIsCompileObject` | nobs.hpp:402 | in build-directory mode a normal relative source is linked from the object its compile job writes (line 329) |
| `Planning.LinkObjectsAreCompileObjects` | nobs.hpp:389-404 | in build-directory mode the link plan (`LinkPlan`) lists every source's compiled object, in order, not only the recompiled ones |
| `Planning.InPlaceLinkObjectDiffers` | nobs.hpp:385-402 | in place, a source in a subdirectory is linked from a different path than the one it was compiled to (line 328) |
| `Planning.Lookup` | nobs.hpp:285-296 | an existing row leaves the table as it is; a missing one appends a fresh row, which is then found at the end |
| `Planning.LookupJobs` | nobs.hpp:285-296 | the row `get_target_build_state` returns carries the jobs already recorded for the target, none for a new row |
| `Planning.AddJobAfterLookup` | nobs.hpp:350-352 | adding a job equals looking the row up and then updating it in place |
| `Planning.PlanLink` | nobs.hpp:375-409 | linking keeps the looked-up table and changes only the target's row; it sets the link job to the pending link plan (`LinkPlan`: one object per source, the target file `<base>/<name>`, empty link flags) exactly when the row needs linking, and keeps the jobs and the flag |
| `Planning.PlanLinkKeepsJobs` | nobs.hpp:375-409 | preparing the link leaves the target's row present and its compile jobs unchanged |
| `Planning.CleanedObjects` | nobs.hpp:578-595 | one object file is removed per source |
| `Planning.CleanedInBuildDir` | nobs.hpp:583-587 | in build-directory mode the object removed for a normal relative source is the one its compile job wrote |
| `Planning.CleanedInPlace` | nobs.hpp:588-591 | in place, for a relative source, the object removed is the one the link read, and it is the compiled object only for a source without a directory |
| `Commands.LinkCommand` | nobs.hpp:438-451 | three arguments plus one per object file |
| `Commands.CompileCommandCarriesFlags` | nobs.hpp:417-436 | the compile command (`CompileCommand`) gives the compiler exactly the declared flags, in order, after the joined string, and the last two arguments read back as the record's object and source |
| `Commands.EmptyFlagsArgument` | nobs.hpp:421 | a target without flags still passes one empty argument, and its command has six arguments |
| `Commands.LinkCommandCarriesObjects` | nobs.hpp:438-451 | the linker receives "-o", then the target file, then every object file in order, each reading back as the path it came from |
| `Commands.JoinFlags` | nobs.hpp:359-367 | the loop builds the flags joined with single spaces |
| `Commands.Wrap64` | nobs.hpp:194 | `size_t` arithmetic stays below 2^64 and is exact below it |
| `Commands.ToInt32` | nobs.hpp:194 | the `int` cast lies in the 32-bit range and keeps small values |
| `Commands.PercentInRange` | nobs.hpp:192-195 | for any job count, the percent shown is `(started + 1) * 100 / count`, between 0 and 100, and reaches 100 only for the last job |
| `Rebuild.StaleWritesConsistent` | nobs.hpp:497 | writing stale records of agreeing sources never gives one sidecar two records |
| `Rebuild.CheckedSidecarText` | nobs.hpp:340-347 | after the stale records are written, every checked source's sidecar exists and holds its fresh record, or its old matching content |
| `Rebuild.SourcesAgree` | nobs.hpp:331-347 | sources that agree on shared sidecars give checks that agree |
| `Rebuild.CheckSourceMeaning` | nobs.hpp:331-347 | `CheckSource` computes the source's fresh record (`FreshParams`, whose timestamp `Timestamp` is the time recorded for the source's canonical path, 0 for a missing file), and the source is up to date exactly when its sidecar exists and reads back as that record |
| `Rebuild.RebuildPlansNothing` | nobs.hpp:298-353 | after exactly the stale records are written, planning the same sources again adds no job |
| `Rebuild.CleanRemovesSidecar` | nobs.hpp:716-721 | `remove_all` of the build directory in clean mode removes the sidecar of every normal relative source planned in the build directory |
| `Rebuild.CleanRecompilesAll` | nobs.hpp:716-729 | after a clean, planning a target of normal relative sources in the build directory succeeds and appends one pending job per source, with that source's fresh record, in source order |
| `Scheduler.ScheduledInitially` | nobs.hpp:470-472 | before the first round the loop invariant holds: nothing started, pending or written |
| `Scheduler.NextStatus` | nobs.hpp:516-519 | the job the spawn loop looks at next still has the status it had before the run |
| `Scheduler.RanReap` | nobs.hpp:492-505 | reaping a started job finds it running; marking it completed and writing its sidecar keeps the run's description |
| `Scheduler.SaveReaped` | nobs.hpp:497 | completing one more job writes its sidecar on top of those written for the jobs reaped before |
| `Scheduler.Survivors` | nobs.hpp:478-507 | the entries a reaping pass keeps are entries it started with, none of them reported by the round |
| `Scheduler.SurvivorsStep` | nobs.hpp:478-507 | passing one more entry: a reported entry is the one under the cursor and is erased, an unreported one is kept and stepped past |
| `Scheduler.RanSpawn` | nobs.hpp:519-535 | starting the next pending job marks it running and prints its line |
| `Scheduler.RanLink` | nobs.hpp:540-561 | starting the link marks the link job running and prints its line after the compile lines |
| `Scheduler.BookReap` | nobs.hpp:477-511 | a reaped compile entry names a started, unreaped job; erasing it keeps the bookkeeping |
| `Scheduler.BookSpawn` | nobs.hpp:514-537 | the spawn loop starts job `completed + pending`, the next one never started; the number of jobs reaped when it starts is recorded, so that `WithinParallelism` keeps holding |
| `Scheduler.PendingRuns` | nobs.hpp:519-535 | every pending entry names a running compile job |
| `Scheduler.NothingPending` | nobs.hpp:540 | when every compile job is completed, nothing is pending |
| `Scheduler.BookLink` | nobs.hpp:540-562 | the link entry becomes the only pending entry, after all started jobs were reaped |
| `Scheduler.AllReaped` | nobs.hpp:474 | when the loop ends, every job was started and reaped and every compile job is completed |
| `Engine.ClampJobs` | nobs.hpp:156-159 | the job count is at least 1, and any positive request is kept |
| `Engine.ParseArgsExitCodes` | nobs.hpp:621-664 | the argument loop (`ParseArgs`) only exits with 0 (help) or 1 (a bad or missing job count) |
| `Engine.ParseArgsSettings` | nobs.hpp:621-664 | when `ParseArgs` runs to the end, clean mode is never switched off, and the job count is the old one or at least 1 |
| `Engine.JobsOption` | nobs.hpp:641-649 | `-m N` sets the job count to N, or 1 for N = 0, and nothing else |
| `Engine.ReapedAll` | nobs.hpp:492-498 | when the row holds one pending job per stale record and every job was reaped, the records written are exactly those records |
| `Engine.PlanTargetJobs` | nobs.hpp:726-727 | preparing a target (`PlanTarget`) appends one pending job per stale source to its row, at most one per source, and the row exists |
| `Engine.SelfPlanDecision` | nobs.hpp:743-748 | the script is rebuilt exactly when its sidecar is missing or holds a different record, and planning fails exactly when the sidecar is malformed |
| `Engine.BuildEndsFailed` | nobs.hpp:726 | a malformed sidecar ends the build with its error, and nothing is written |
| `Engine.BuildEndsAfterRun` | nobs.hpp:726-728 | after planning, the build has nothing to do exactly when the row has no job; whatever the outcome, the table and sidecars are those the run left (`AfterRun`); a finished run reaped every job, and for a first build wrote exactly the stale sources' records |
| `Engine.RanAfterRun` | nobs.hpp:453-569 | what `run_build` did to its row (`Ran`) read against the whole table: only the target's row changed, a job is completed exactly when it was before or was reaped, only pending jobs are reaped, and the sidecars are the old ones with the reaped jobs' records written in reaping order |
| `Engine.PreparedRunEnds` | nobs.hpp:726-728 | `run_build` on the table planning produced, with every job reaped when it finished, ends as `BuildEnds` describes, for every outcome |
| `Engine.WrittenAreStale` | nobs.hpp:298-372 | for a target without jobs before, a run that reaped every planned job wrote exactly the records of the sources planning found stale |
| `Engine.FinishedBuildIsUpToDate` | nobs.hpp:716-730 | after a first build finishes, planning the target again with nothing changed adds no job |
| `Engine.RestartFindsScriptUpToDate` | nobs.hpp:732-755 | after a self-rebuild that reached `execl`, the script's sidecar holds its fresh record, so the restarted process, with an empty table and the same timestamps, plans no compile job and no link for the script and is not rebuilt again |
| `Engine.ScriptPlansNothing` | nobs.hpp:741-747 | once the script's stale record is written, planning it in place from an empty table gives a fresh row that does not need linking |
| `Engine.SecondRunBuildsNothing` | nobs.hpp:716-730 | the next run of the program, which starts with an empty table, plans a fresh row for a target whose first build finished: no compile job, no link job, no linking needed |
| `Engine.ReapTarget` | nobs.hpp:482-496 | an ended compile entry names a started, unreaped job, before the link is added |
| `Engine.HoldsAfterReap` | nobs.hpp:482-505 | completing a job, writing its sidecar and erasing its entry keeps the loop invariant |
| `Engine.NextJob` | nobs.hpp:516-519 | the spawn loop's next job is the first one never started, unchanged since the run began |
| `Engine.SpawnRan` | nobs.hpp:519-525 | marking the next pending job running and printing its line keeps the run's description |
| `Engine.SpawnedStart` | nobs.hpp:523-525 | the printed line for that job has the right percent, ordinal and command |
| `Engine.HoldsAfterSpawn` | nobs.hpp:514-537 | starting the next pending job keeps the loop invariant |
| `Engine.ReapRound` | nobs.hpp:477-511 | reaping keeps the invariant and changes nothing but the reaped jobs; every job reaped was reported by the round with exit code 0; a non-zero code (-1 for a signal) halts with that code, reported for a started job not yet reaped; otherwise the entries kept are exactly those the round did not report, and every started job the round reports has been reaped |
| `Engine.ReapStep` | nobs.hpp:478-507 | one entry of the pass: reaped when the round reports code 0, the pass halted with the code when it reports another, and stepped past when it does not report it |
| `Engine.ReapingStarts` | nobs.hpp:477-478 | before the pass nothing has been passed over or reaped |
| `Engine.ReapKeeps` | nobs.hpp:482-505 | reaping the reported entry under the cursor, which exited with 0, keeps the invariant of the pass |
| `Engine.SkipKeeps` | nobs.hpp:478-507 | stepping past an entry the round does not report keeps the invariant of the pass |
| `Engine.PassedAfterReap` | nobs.hpp:496-505 | erasing the reaped entry and recording its job keeps the relation to the start of the pass |
| `Engine.ReapDone` | nobs.hpp:478-507 | at the end of the pass the entries kept are the survivors of all of them, and no started job the round reports is left unreaped |
| `Engine.ReapedReported` | nobs.hpp:478-507 | when no pending entry is reported by the round, every started job the round reports has been reaped |
| `Engine.ReapedInExtend` | nobs.hpp:474-511 | the jobs reaped in one more round are recorded against that round, each reported by it with exit code 0 |
| `Engine.ReapIn` | nobs.hpp:477-511 | one round of reaping, in the run's history: every job reaped so far was reported with code 0 by a round already polled, and a halt names a polled round that reported its code for a started job not yet reaped |
| `Engine.SpawnJobs` | nobs.hpp:514-537 | spawning keeps the invariant and stops when the pending list is full or every job is started; on a job that is not pending it repeats forever |
| `Engine.StartLink` | nobs.hpp:540-562 | the link starts once, only with nothing pending, and keeps the invariant; the blocking wait for it is folded into starting it |
| `Engine.Advance` | nobs.hpp:514-562 | spawning then, once compilation has finished, starting the link keeps the invariant and reaps nothing; after it, a run with every job completed has linked exactly when the row needs linking |
| `Engine.Turn` | nobs.hpp:474-566 | one turn of the loop: the round is reaped, then jobs are spawned and the link started; it stops only on a halt, with the code a polled round reported for an unreaped started job, or on a job that is not pending |
| `Engine.BuildLoop` | nobs.hpp:474-568 | every job reaped was reported with exit code 0 by some round; a halt carries the non-zero code (-1 for a signal) a round reported for a started job left unreaped; a finished run started and reaped every job, completed every compile job, and linked exactly when the row needs linking; no job was started while `parallel_jobs` others were pending; with 0 parallel jobs it never finishes |
| `Engine.Session.constructor` | nobs.hpp:149-154 | the globals at start: "g++" for compiler and linker, "./build_dir" (the names "." and "build_dir"), the current directory as project, no clean mode, and `hardware_concurrency` jobs |
| `Engine.Session.SetParallelJobs` | nobs.hpp:156-159 | the job count becomes the request, or 1 for 0 |
| `Engine.Session.GetTargetBuildState` | nobs.hpp:285-296 | the table becomes `Lookup` of the old table, and the index returned is the target's row |
| `Engine.Session.PrepareFileCompilation` | nobs.hpp:298-353 | the table becomes the pure one-source plan, or stays unchanged when the sidecar is malformed |
| `Engine.Session.PrepareTargetCompilation` | nobs.hpp:355-373 | the table becomes the plan folded over every source, or the first malformed sidecar's error is returned |
| `Engine.Session.PrepareTargetLinking` | nobs.hpp:375-409 | the table becomes `PlanLink` of the old table |
| `Engine.Session.RunBuild` | nobs.hpp:453-569 | only the target's row and the sidecars change, as `Ran` describes; the outcome is nothing-to-build exactly without jobs; every reaped job was reported with code 0, a halt carries the code a round reported for an unreaped started job, and a finished run reaped every job and linked exactly when needed; when job `k` started, at most `parallel_jobs` - 1 started jobs were unreaped (`WithinParallelism`) |
| `Engine.Session.RunPrepared` | nobs.hpp:728 | running the prepared target ends as `BuildEnds` describes: for every outcome (finished, halted by a failed job, out of rounds) the new table is the planned one with the target's row updated as `AfterRun` says, and the sidecars hold the records of exactly the jobs reaped, so after a failure those of the jobs reaped before it are written |
| `Engine.Session.BuildTarget` | nobs.hpp:716-730 | in clean mode the build directory's sidecars are removed and the table is kept; otherwise the build ends as `BuildEnds` describes, with the new table and sidecars stated for every outcome |
| `Engine.Session.RemoveBuildDirectory` | nobs.hpp:720 | the sidecars under the canonical build directory are removed |
| `Engine.Session.BuildInBuildDirectory` | nobs.hpp:722-729 | preparing in build-directory mode then `run_build` ends as `BuildEnds` describes, with the new table and sidecars stated for every outcome |
| `Engine.Session.CleanTargetBuildArtifacts` | nobs.hpp:578-596 | the paths removed are the per-source objects of `CleanedObjects`, in order |
| `Engine.Session.EnableCommandLineParams` | nobs.hpp:621-664 | the exit code, or the clean flag and job count, are those `ParseArgs` gives |
| `Engine.Session.PrepareTarget` | nobs.hpp:726-727 | the table becomes the target's plan, or a malformed sidecar's error is returned; on success the row exists with at most one new job per source |
| `Engine.Session.RebuildAndRestart` | nobs.hpp:753-755 | on every path the table and sidecars are those `run_build` left (`AfterRun`); a failed build stops before anything is removed; otherwise every job was reaped, so the script's sidecar holds its fresh record, the object file is removed, and the process is replaced by the binary named after the script or exits with 0 |
| `Engine.Session.RebuildIfNeeded` | nobs.hpp:746-755 | the script is up to date, with nothing changed, exactly when its row does not need linking; otherwise it is rebuilt and restarted, with the table and sidecars as `run_build` left them and every job reaped before the restart |
| `Engine.Session.EnableSelfRebuild` | nobs.hpp:732-756 | a missing script stops everything; otherwise a target named after the script is added, a malformed sidecar is reported, and the script is up to date exactly when its plan does not need linking; otherwise it is rebuilt from the plan, the table and sidecars are as `run_build` left them (`AfterRun`), and a restart comes only after every job was reaped, which `RestartFindsScriptUpToDate` turns into no rebuild on the next start |

## Left out

- Processes: `fork`, `execvp`, `waitpid` and `usleep` are not modelled.
  - The caller supplies polling rounds saying which pending processes ended and how.
  - A process is named by its job index rather than a pid.
  - A run still going when the rounds run out ends as `RoundsExhausted`, so termination under a fair scheduler is not stated.
- The link process: its blocking wait is folded into starting the link (`Engine.StartLink`), and its status is discarded, as the code discards it.
  - The link entry pushed afterwards is never reaped. This follows the code: the process was already waited for, so `waitpid` cannot report it again.
- Engine.Session.RunBuild: requires fewer than 2^56 compile jobs (`Scheduler.MaxJobs`), far above what a `std::vector` can hold, so neither `jobs_count + 1` nor the percent product wraps. `BuildTarget`, `BuildInBuildDirectory`, `RunPrepared` and `EnableSelfRebuild` carry the same bound.
- BuildEnds: after a malformed sidecar the table is not stated. The code ends the program there (`exit(1)` in `read_compile_parameters_from_file`, or the exception `std::stoull` throws), so no later step reads it; `PrepareTarget` may have appended jobs for the sources planned before the malformed one.
- The file system:
  - Only sidecars (a map from path to text) and source timestamps (a map from canonical path to `u64`) are modelled.
  - Object files, executables and `create_directories` are not modelled, and neither is the failure of `save_meta_file` to open a file (`exit(-1)`).
  - `clean_target_build_artifacts` returns the paths it would remove.
- `canonical` and `relative` are lexical. Symbolic links are not resolved, and `canonical` of a missing path is not an error, except for the build script in `enable_self_rebuild`.
- Console output: the coloured messages and `print_job_status` formatting are not modelled. Only the values each progress line carries (`Scheduler.Start`) are kept, and `build_argv` is not modelled.
- Declaring targets: `add_executable`, `add_library`, `add_target_source(s)`, `add_target_compile_flag(s)`, `add_target_include_directories`, `set_compiler`, `set_linker`, `set_build_directory`, `set_project_directory` and `current_project_directory` are plain field updates and are not modelled. Targets are given as values.
- `target_link_libraries` (empty in the source) and `depends_on_targets` (never filled) are not modelled.
- Errors that end the program:
  - an uncaught `stoull` exception on a malformed timestamp line becomes an error value (`Cache.SidecarError.BadTimestamp`);
  - `exit(1)` on a missing sidecar line becomes the other `SidecarError` values;
  - the program's exit is the caller's business.
- The history that shows `parallel_jobs` is respected (how many jobs had been reaped when each job started, and in which round each job was reaped) is ghost bookkeeping. It has no counterpart in the source.
