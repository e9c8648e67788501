# A verified model of the Rust bootstrap's step engine and its stage graph

The build system in `src/bootstrap` is a memoising evaluator of steps. It runs on a graph of
steps that builds the compiler with itself, stage by stage. This project models that evaluator
and that graph, and the pieces around them whose correctness is not visible from any one
function. It also models the generator of the powers-of-five table used by decimal-to-float
conversion.

| file | what it models |
|---|---|
| `StepEngine.dfy` | `Builder::ensure` as a function on memories, its uncached reference, its invariants |
| `StepRefinement.dfy` | it computes what uncached recursion computes, panics exactly on cycles, and accounts for time |
| `StepOrder.dfy` | effects happen once, all of them, and in an order that a contract on step bodies determines |
| `Builder.dfy` | `Builder` and `Cache` as classes that update stack, cell and cache in place |
| `StageGraph.dfy` | the bodies of the compile steps, for any configuration |
| `StageProofs.dfy` | the stage recursion is well-founded; exactly which roots fail a host assertion |
| `StageOrder.dfy` | what every step body needs, provides and keeps |
| `StageWipes.dfy` | directories are wiped before they are filled |
| `StageTheorems.dfy` | what holds in every run that builds compilers, libraries and backends |
| `StageUses.dfy` | no tool is made and no object copied that is not used |
| `StageDisk.dfy` | which runs get through, given what earlier runs left on disk |
| `StagePaths.dfy` | why stamps and sysroots may be named by what they belong to |
| `PowerTable.dfy` | the table of 128-bit powers of five |
| `PathMatching.dfy` | which steps the paths on the command line select |
| `CrateGraph.dfy` | the workspace crates that a root crate pulls in |
| `Metrics.dfy` | the metrics call tree, and the time cell over the same events |
| `StepMetrics.dfy` | the metrics of any run of the evaluator are the times `ensure` reports |
| `FormatPool.dfy` | the pool of `rustfmt` children, under every interleaving of its threads |
| `StampFormat.dfy` | printing and parsing stamp files |
| `BuildStamp.dfy` | the LLVM and sanitizer stamp, with crashes at any point |
| `ConfigLines.dfy` | lines of a configuration file, as the regular expressions of `bootstrap.py` read them |
| `ConfigMerge.dfy` | parsing and merging configuration files, as `config.rs` does |
| `ConfigAgree.dfy` | when the two implementations of profile defaults agree |
| `Wrappers.dfy` | what several modules share |

## How to read it

**Step engine.** A step's `run` is a list of operations: ask for a step, perform an effect, or
fail an assertion. `StepEngine.Ensure` follows `ensure` branch by branch; class
`Builder.Builder` does the same on fields, and each of its methods is proved to do what the
function says. A panic is a result, so that "this assertion cannot fail" is a theorem and not a
precondition. The clock is an arbitrary sequence of readings. Results hold for every finite
graph, cyclic or not, for every sequence of top-level requests, and for runs that panic.

**Stage graph.** The graph instantiates the engine for arbitrary stages, hosts, triples,
codegen backends, target families and flags, including kept stages and a downloaded compiler.
The requests are any sequence of `Assemble`, `Std`, `Rustc` and `CodegenBackend` steps, with any
lists of crates. The happens-before and wiping results need that no compiler is downloaded,
because that mode skips builds on purpose; the results about cycles, host assertions and uses do
not, and `StageTheorems.DownloadedRuns` says what that mode does instead.

Reading a stamp that is not there, and copying a compiler binary that is not there, is fatal in
the source. In the runs of `StageTheorems` these are effects like any other, and `StageDisk`
says which of them are misses on a given disk: a run on that disk stops at its first miss. So
the results of `StageProofs` and `StageTheorems.RunsComplete` are about assertions and cycles,
`StageDisk.GetsThroughExactly` and `FreshExactly` about getting to the end; and what is proved of
each position of a log speaks only of what precedes it, so it holds of a run that stops early.

**Table.** The entries are specified without a division: an entry is compared with `5^q` after
both are multiplied by the powers that make them whole. The width is a parameter; the generator
uses 128 (`h` = 64).

## Where the code and its documentation differ

- `src/etc/dec2flt_table.py:9-11` promises entries within half a unit. The code rounds down, or
  up for exponents from -27 to -1, so an entry is only within one unit. At exponent -3 the claim
  is false (`NotWithinHalf`); `WithinHalfExactly` gives a condition on the exponent alone.
- `src/bootstrap/lib.rs:1262` speaks of "the final stage, 2"; the code lifts every stage from 2
  on. So without a full bootstrap, assembling a compiler of stage 3 or more for a listed host
  reads a stamp that the run never writes, and panics in an empty build directory
  (`src/bootstrap/compile.rs:1294-1296`, `src/bootstrap/lib.rs:1421`). `x.py build --stage 2
  compiler` asks for stage 3 (`src/bootstrap/compile.rs:1221-1225`). `FreshExactly` gives the exact
  condition, `GetsThroughExactly` what the disk must hold otherwise.
- `src/bootstrap/bootstrap.py:881-882` appends the profile so that the user's keys win, as they do
  in `config.rs`. But Python does not look into a section that is an inline table, which
  `config.rs` accepts: with `rust = { deny-warnings = false }` it still denies warnings
  (`ReadersDiffer`). Nor does it see a header that is followed by a comment, or a key that is
  indented, and it takes a comment after a value to be part of it (`HeaderNotSeen`,
  `SettingNotSeen`, `CommentMisread`). `AgreeExactly` gives the exact condition for any two files
  that `config.rs` accepts and whose headers and keys Python recognises; `WhateverExactly` gives
  one for whatever Python makes of the lines.
- `src/bootstrap/native.rs:102-107` assumes no rebuild is needed when the commit is unknown. The
  empty hash is also what a write that was cut short leaves behind (`CommitHashes`).

## Model

| member | source | states |
|---|---|---|
| StepRefinement.EnsureRefines | src/bootstrap/builder.rs:1866-1927 | on every graph, `ensure` returns exactly when recursion without cache and stack ends, and then with the only value that has; "a second time" and the duration subtraction cannot fail; the invariants hold again |
| StepRefinement.PanicsExactly | src/bootstrap/builder.rs:1867-1880 | "Cycle in build" is reported exactly for steps that reach a cycle, when no assertion of a step is in reach; a panic happens exactly for steps that reach either |
| StepRefinement.EnsureAllRefines | src/bootstrap/builder.rs:1866-1927 | any sequence of top-level requests succeeds exactly when each has a plain value, and returns these |
| StepRefinement.FinishOrder | src/bootstrap/builder.rs:1881-1926 | a step finishes after all the steps it asks for, and runs at most once |
| StepRefinement.CallTime | src/bootstrap/builder.rs:1893-1901 | a call adds its wall time to the cell, and the steps run in it share out exactly that much; a cache hit adds nothing |
| StepRefinement.ExclusiveTimesAddUp | src/bootstrap/builder.rs:1893-1901 | over any run, the exclusive times of the steps add up to the sum of the wall times of the top-level calls, hits counting nothing, which is what the cell holds |
| StepRefinement.RankedBuilds | src/bootstrap/builder.rs:1866-1927 | `ensure` succeeds on steps without assertions whose requests stay among such steps and go down in some rank |
| StepEngine.EnsureInv | src/bootstrap/builder.rs:1866-1927 | with any stack: `ensure` keeps the relations between stack, cache, graph, finished steps and clock |
| StepOrder.AllTags | src/bootstrap/builder.rs:1866-1927 | in any run, panicking or not, each operation of a step takes effect at most once, and the effects of one step come in the order of its body |
| StepOrder.AllPerform | src/bootstrap/builder.rs:1866-1927 | a run that succeeds has performed every effect of every step it ran; one that fails an assertion has performed the effects of the failing step up to there |
| StepOrder.OnceOnly | src/bootstrap/cache.rs:232-242 | an effect that only one operation of one step performs happens at most once |
| StepOrder.HappensBefore | src/bootstrap/builder.rs:1863-1927 | if each body respects a contract, every effect of every run comes after all it must come after, and a run that succeeds has given what its steps promise |
| Builder.Cache.constructor | src/bootstrap/cache.rs:228-230 | a new cache is empty |
| Builder.Cache.Get | src/bootstrap/cache.rs:244-252 | a hit exactly for stored steps, with the stored value |
| Builder.Cache.Put | src/bootstrap/cache.rs:232-242 | stores a step once; a second time is reported and changes nothing |
| Builder.Builder.constructor | src/bootstrap/builder.rs:799-811 | a new builder has an empty stack, an empty cache and no time spent |
| Builder.Builder.OnStack | src/bootstrap/builder.rs:1869-1873 | the scan finds a step exactly when it is on the stack |
| Builder.Builder.Ensure | src/bootstrap/builder.rs:1866-1927 | returns, panics and leaves the fields as `StepEngine.Ensure` says, and restores the stack |
| Builder.Builder.Leave | src/bootstrap/builder.rs:1893-1926 | pops the step that was pushed, restores the time cell, stores the value |
| Builder.Builder.RunStep | src/bootstrap/builder.rs:1897-1897 | performs the operations in order, up to the first panic |
| StageProofs.CallsDescend | src/bootstrap/compile.rs:1232-1282 | for every stage, host, triple and flag, a step asks only for steps of smaller rank, and never for one with a failing host assertion unless it has one in reach itself |
| StageProofs.AssembleOps | src/bootstrap/compile.rs:1232-1380 | the same for `Assemble`, with where its effects come from; its only assertion is the stage-0 host check |
| StageProofs.LeafOps | src/bootstrap/compile.rs:1121-1201 | the same for links, `Sysroot`, `Libdir`, startup objects, and native tools with their requests for LLVM |
| StageProofs.NeverCycles | src/bootstrap/compile.rs:1244-1257 | "Cycle in build" is never reported, for any configuration and root |
| StageProofs.BuildableBuilds | src/bootstrap/builder.rs:860-886 | from a root with no host assertion in reach no assertion fails and no cycle is found, and asking for a compiler names that compiler; missing stamps are the subject of `StageDisk` |
| StageProofs.AllBuild | src/bootstrap/builder.rs:860-886 | the same for any sequence of such roots |
| StageProofs.HostAssertionsExactly | src/bootstrap/compile.rs:1235-1242 | a host assertion fails exactly for another machine's stage 0, or another machine with a downloaded compiler; no cycle and no other assertion is ever reported |
| StageOrder.StdKeeps | src/bootstrap/compile.rs:104-158 | `Std`, whether kept, lifted or built, finds every stamp it needs of this run written, and leaves in the sysroot its libraries (for the target, self-contained, and for the build machine) and, unless kept, all objects the target needs |
| StageOrder.StdLifted | src/bootstrap/compile.rs:121-133 | the uplift branch of `Std` reads a stamp written before, unless it is kept, and fills only wiped directories |
| StageOrder.StdBuilt | src/bootstrap/compile.rs:135-157 | the building branch of `Std`: compiler complete before cargo, stamp written after, link last |
| StageOrder.RustcBuilt | src/bootstrap/compile.rs:643-736 | the building branch of `Rustc`: std for the target and for the build machine is in place before cargo runs, and LLVM if it is in use |
| StageOrder.CodegenBuilt | src/bootstrap/compile.rs:950-1009 | the building branch of `CodegenBackend`: std and rustc are in place before cargo runs, and LLVM if it is in use |
| StageOrder.LinkKeeps | src/bootstrap/compile.rs:427-438 | a link step copies target, self-contained and host libraries, the last into the directory of the machine that made them, each directory wiped before, from the stamp its caller vouches for, or that of an earlier run |
| StageOrder.AssembleKeeps | src/bootstrap/compile.rs:1270-1379 | `Assemble` completes its compiler last, after its libraries, every codegen backend, the tools in use and the binary are there |
| StageOrder.StagesRespect | src/bootstrap/compile.rs:1387-1405 | every step body respects the contract of needs, gifts and order, with any stages kept |
| StageTheorems.EventOrigin | src/bootstrap/compile.rs:92-158 | each effect of a run comes from its place in the body of a step within the stages and triples at hand |
| StageTheorems.RunOrderly | src/bootstrap/compile.rs:1232-1380 | nothing is used before it is there, in every run, panicking or not |
| StageTheorems.StampsReadExactly | src/bootstrap/compile.rs:1294-1298 | a stamp that is read was written before in the run exactly when its artifacts are neither lifted nor kept; links read lifted stamps only of kept stages |
| StageTheorems.BinaryBuiltExactly | src/bootstrap/compile.rs:1371-1377 | the `rustc` copied was built in the run exactly when the stage before is not kept, and with a full bootstrap, or up to stage 2, or for an unlisted host |
| StageTheorems.CompilersCompleteBeforeUse | src/bootstrap/compile.rs:138-152 | cargo runs only with compilers of the build machine that the run has completed, with directories wiped, and with the std, rustc libraries, target objects and LLVM that the build needs in place |
| StageTheorems.RunsComplete | src/bootstrap/compile.rs:1232-1380 | without a downloaded compiler no assertion fails and no cycle is found; each step performs each effect exactly once, all that is asked for has run, every step has given what the contract says, and the compilers asked for are assembled |
| StageTheorems.LinksCopy | src/bootstrap/compile.rs:427-438 | in a finished run every `StdLink` and `RustcLink` has read its stamp and then copied all three kinds of libraries, those for the host into the directory of the machine that made them |
| StageTheorems.LibrariesLinked | src/bootstrap/compile.rs:104-158 | every `Std` and `Rustc` that ran, with its list of crates, is linked from the compiler it is kept, lifted or built with |
| StageTheorems.ToolsAsk | src/bootstrap/native.rs:430-433 | native tools ask for exactly the LLVMs that must be ready before them; a cross-built LLVM for that of the build machine, unless it is prebuilt |
| StageUses.NothingForNothing | src/bootstrap/compile.rs:184-313 | in every run only native tools that are in use are made, and only the objects that a target needs are copied |
| StageTheorems.DownloadedRuns | src/bootstrap/compile.rs:1259-1263 | with a downloaded compiler: the run finishes; the download is copied for every stage from 1 to the one asked for; std and rustc are built with stage 0, and only with it; no library directory is wiped |
| StageDisk.GetsThroughExactly | src/bootstrap/compile.rs:1294-1298 | for every disk, with any stages kept: a run finds every stamp and binary it uses exactly when the disk holds what its roots take, that is, what is lifted or kept on the way to them |
| StageDisk.FreshExactly | src/bootstrap/lib.rs:1415-1421 | in an empty build directory compilers are assembled exactly with no kept stage below, and a full bootstrap, or up to stage 2, or stage 3 for a host neither listed nor the build machine; libraries exactly with no kept stage that they need |
| StageDisk.MissOrigin | src/bootstrap/compile.rs:1371-1377 | what a run uses and has not made is lifted or kept, and accounted for by the step that uses it |
| StageDisk.TakenOutputsUntouched | src/bootstrap/builder.rs:1085-1094 | when all triples are listed, or the bootstrap is full, cargo never runs in an output directory from which something of an earlier run is taken |
| StageTheorems.WipedOnce | src/bootstrap/builder.rs:907-924 | each sysroot and each library directory is wiped at most once |
| StageTheorems.OutputsAreWiped | src/bootstrap/builder.rs:907-924 | the path that `Sysroot` returns is the one it wipes, and that of `Libdir` lies in it and is wiped unless a compiler is downloaded |
| StageTheorems.SysrootWipes | src/bootstrap/compile.rs:1136-1153 | with a downloaded compiler, `Sysroot` wipes its own directory first, and then exactly the stale directories of stages 0 to 2 |
| StageWipes.WipesRespect | src/bootstrap/builder.rs:907-924 | every step body asks for a directory, and so has it wiped, before it copies into it |
| StageTheorems.NothingCopiedIsDeleted | src/bootstrap/compile.rs:1136-1137 | libraries, dylibs, codegen backends and compiler binaries copied into a sysroot are not deleted later |
| StageTheorems.FewBuilds | src/bootstrap/lib.rs:1268-1272 | without a full bootstrap cargo runs only with stage 0 and 1 of the build machine, and builds std and rustc at most four times a triple, whatever the stage |
| StageTheorems.RunsExist | src/bootstrap/compile.rs:74-84 | every request has such a run: the steps within the stages, triples and lists of crates are closed |
| StagePaths.StampsApart | src/bootstrap/lib.rs:846-862 | stamps of different mode, compiler or triple are different files |
| StagePaths.StampFiles | src/bootstrap/lib.rs:846-862 | the file of each stamp, component by component |
| StagePaths.SysrootNames | src/bootstrap/compile.rs:1125-1133 | the three names a sysroot can have, and when |
| StagePaths.WipesSpareStamps | src/bootstrap/compile.rs:1125-1136 | compilers have sysroots of their own, and no sysroot that is wiped contains a stamp |
| PowerTable.NegativeEntry | src/etc/dec2flt_table.py:67-82 | for every `q < 0` the entry is normalised and is the ceiling (from -27 on) or the floor of `5^q` at its scale, and strictly so |
| PowerTable.BitsAbove | src/etc/dec2flt_table.py:69-71 | `z` is the least exponent with `2^z >= 5^-q` |
| PowerTable.TruncatedDetour | src/etc/dec2flt_table.py:77-82 | dividing at twice the precision, adding one and halving gives exactly `2^(z+127) / 5^-q` rounded down |
| PowerTable.DetourCancels | src/etc/dec2flt_table.py:77-81 | the added one and the truncations cancel, for all numbers |
| PowerTable.CeilingFits | src/etc/dec2flt_table.py:72-75 | rounding up does not overflow the width |
| PowerTable.PositiveEntry | src/etc/dec2flt_table.py:85-93 | for every `q >= 0` the entry is exact while the power fits and the floor beyond |
| PowerTable.ProperPowers | src/etc/dec2flt_table.py:61-93 | row `i` is the entry of exponent `first + i`, for any range |
| PowerTable.PrintedHalves | src/etc/dec2flt_table.py:100-106 | the halves fit in 64 bits and recompose the entry |
| PowerTable.EntryUnique | src/etc/dec2flt_table.py:9-11 | an exponent has one entry and one scale only |
| PowerTable.WithinHalfExactly | src/etc/dec2flt_table.py:10-11 | the entry of `q` is within half a unit exactly when a condition on `q` holds: the remainder of the division falls on the side it is rounded to, or what is cut off is at most half |
| PowerTable.WithinHalfAtScale | src/etc/dec2flt_table.py:67-93 | the same in terms of the entry's scale |
| PowerTable.NotWithinHalf | src/etc/dec2flt_table.py:10-11 | at exponent -3 it is not |
| PathMatching.First | src/bootstrap/builder.rs:208-216 | a path takes the first needle it matches |
| PathMatching.CheckIs | src/bootstrap/builder.rs:189-195 | a path matches exactly the paths that are its end, if the kinds agree where both are given |
| PathMatching.MatchesIs | src/bootstrap/builder.rs:208-216 | so a path of a step takes exactly the needles that are its end |
| PathMatching.HasIs | src/bootstrap/builder.rs:181-186 | a set has a path exactly when it is the end of one of its paths or of its suite |
| PathMatching.InSuiteIs | src/bootstrap/builder.rs:473-480 | a path is in a suite exactly when the suite is its beginning |
| PathMatching.RemoveFirst | src/bootstrap/builder.rs:208-216 | one offer of a path: it is matched exactly when some needle matches, and that needle is gone |
| PathMatching.IntersectionRemovingMatches | src/bootstrap/builder.rs:203-228 | the sub-set is exactly the paths that took a needle; what is left is what they did not take |
| PathMatching.PathsetsForPaths | src/bootstrap/builder.rs:500-513 | over all sets of a step: the sets passed on, one for each set that took something, hold exactly the paths that took a needle |
| PathMatching.MaybeRun | src/bootstrap/builder.rs:257-284 | a job is dropped exactly when one of its sets has a path that ends in an excluded path of a fitting kind |
| PathMatching.RunSteps | src/bootstrap/builder.rs:286-347 | defaults, suites and path sets as planned; the jobs hold exactly the paths that took a needle, grouped by step and set; the rest is reported; one argument is unmatched exactly when, without a leading `.`, it lies in no suite and is the end of no path, of a fitting kind, of any step |
| PathMatching.OneArgument | src/bootstrap/builder.rs:309-347 | that condition for one argument, for all steps |
| PathMatching.RunDefaults | src/bootstrap/builder.rs:302-308 | exactly the default steps run, in order, with all their sets |
| PathMatching.RunSuites | src/bootstrap/builder.rs:316-324 | each path in a suite is handed over, the others are kept in order |
| PathMatching.SuiteIsFirst | src/bootstrap/builder.rs:316-322 | the suite chosen is the first around the path, of the first step that has one; none only if no step has |
| PathMatching.HandedIs | src/bootstrap/builder.rs:316-324 | what is handed over goes to the first suite around it, and what is kept lies in no suite |
| PathMatching.GreedyIsGood | src/bootstrap/builder.rs:203-228 | needles taken and left are the needles given; a path that matches a leftover was spent on an earlier needle |
| PathMatching.PathsConserved | src/bootstrap/builder.rs:309-347 | each path is handed to one suite, or taken by one path of one step, or reported |
| CrateGraph.Expand | src/bootstrap/lib.rs:1391-1410 | whatever the order of the set: all workspace dependencies are visited, the new ones that are switched on are listed |
| CrateGraph.InTreeCrates | src/bootstrap/lib.rs:1384-1413 | ends on every graph; each crate comes once for being the root and once for being pulled in |
| CrateGraph.Result | src/bootstrap/lib.rs:1381-1413 | exactly the reachable crates, each once, the root twice exactly when a returned crate depends on it |
| CrateGraph.Features | src/bootstrap/lib.rs:1401-1407 | of the workspace dependencies of a returned crate all are returned, but `profiler_builtins` only with the profiler and `rustc_codegen_llvm` only with LLVM; neither is returned otherwise, unless it is the root |
| Metrics.MetricsState.CollectStats | src/bootstrap/metrics.rs:75-84 | charges the elapsed time to the innermost step |
| Metrics.MetricsState.Enter | src/bootstrap/metrics.rs:35-55 | the new state of the call tree, as the function on states says |
| Metrics.MetricsState.Exit | src/bootstrap/metrics.rs:57-73 | the same for leaving a step; it panics exactly with nothing running |
| Metrics.Collected | src/bootstrap/metrics.rs:35-84 | over every nested sequence: preorder is the order of entering, the timer runs exactly while a step does, own times add up to that time |
| Metrics.PanicsExactly | src/bootstrap/metrics.rs:57-73 | entering and leaving panics exactly when a step is left with none running |
| Metrics.SameTimes | src/bootstrap/builder.rs:1890-1917 | over any nested events, the tree and a time cell kept as `ensure` keeps it give every step the same own time, at every moment |
| Metrics.SameReport | src/bootstrap/builder.rs:1890-1917 | when all steps are left, that report is the forest read children first |
| StepMetrics.EngineReports | src/bootstrap/builder.rs:1887-1918 | every successful run of the evaluator enters and leaves steps in a nested way, and its finished steps with their exclusive times are the metrics forest read children first; the time something ran is what the cell holds |
| FormatPool.AlwaysSafe | src/bootstrap/format.rs:139-170 | under every interleaving no file is lost or given out twice, batches hold one to eight, the number of un-awaited children is bounded |
| FormatPool.Numbers | src/bootstrap/format.rs:144-150 | a walker can send exactly while fewer than 128 files wait; a batch takes up to seven more files, as long as there are any, and is given out exactly then |
| FormatPool.GoesOn | src/bootstrap/format.rs:152-158 | after giving out a batch the pool goes on receiving exactly while fewer than the limit of children are open, and else awaits one |
| FormatPool.NeverStuck | src/bootstrap/format.rs:120-174 | until joined or failed, some thread can move |
| FormatPool.RunsEnd | src/bootstrap/format.rs:120-174 | every run is finite, with a bound in the number of files |
| FormatPool.AtRest | src/bootstrap/format.rs:155-174 | a run at rest is joined exactly when no awaited child failed, and then every file went to exactly one child and every child was awaited once, in order |
| StampFormat.PrintStamp | src/bootstrap/compile.rs:1534-1543 | the loop writes a tag, the path and a NUL for each dependency |
| StampFormat.ReadStampFile | src/bootstrap/lib.rs:1415-1438 | the loop parses what the parts say, or panics on the first bad one |
| StampFormat.RoundTrip | src/bootstrap/lib.rs:1422-1437 | parsing what was printed returns the dependencies in order |
| StampFormat.OneRecord | src/bootstrap/compile.rs:1535-1541 | the letters of the three dependency types |
| StampFormat.PanicsExactly | src/bootstrap/lib.rs:1426-1433 | reading panics exactly on a part with another letter or with bytes that are not UTF-8 |
| StampFormat.StampReads | src/bootstrap/compile.rs:1532-1544 | reading a stamp gives all dependencies, sorted |
| StampFormat.StampIdentifies | src/bootstrap/compile.rs:1532-1544 | two stamps are equal exactly when their dependencies are, in whatever order these were found |
| BuildStamp.StampFile.Remove | src/bootstrap/native.rs:1131-1142 | the stamp is gone, whether or not it was there |
| BuildStamp.StampFile.Write | src/bootstrap/native.rs:1144-1146 | a write cut short leaves a prefix |
| BuildStamp.Builder.BuildLlvm | src/bootstrap/native.rs:255-523 | the new disk for every place to die, and whether a build is returned |
| BuildStamp.AlwaysSound | src/bootstrap/native.rs:1111-1147 | over any invocations with crashes anywhere: a stamp means that the last build started has completed, and is a prefix of its hash |
| BuildStamp.TrustExactly | src/bootstrap/native.rs:1121-1129 | `is_done` can be trusted exactly when no hash in use properly extends the one asked for |
| BuildStamp.CommitHashes | src/bootstrap/native.rs:102-112 | commit hashes can be trusted; the empty hash of an unknown commit cannot |
| BuildStamp.ReturnsUsable | src/bootstrap/native.rs:90-116 | what is returned is a completed build, of the right hash unless rebuilding is skipped, and asking again changes nothing |
| BuildStamp.SkipRebuild | src/bootstrap/native.rs:93-100 | with `skip-rebuild` and any stamp, the build that is there is returned and nothing changes, wherever the process would have died |
| BuildStamp.LeftAloneExactly | src/bootstrap/native.rs:93-116 | a build is left alone and returned exactly when there is a stamp and rebuilding is skipped or the stamp is the hash |
| BuildStamp.HowFar | src/bootstrap/native.rs:255-523 | otherwise what is on disk afterwards, for each place where the process can die |
| ConfigLines.GetToml | src/bootstrap/bootstrap.py:632-643 | on the texts of the lines: the first match in the right section, or any section if none is named |
| ConfigLines.HeaderIs | src/bootstrap/bootstrap.py:634-636 | a header is a name in brackets with any white space around |
| ConfigLines.KeyIs | src/bootstrap/bootstrap.py:638-640 | a setting is the key at the beginning of the line, white space and an equals sign |
| ConfigLines.QuotedFound | src/bootstrap/bootstrap.py:632-643 | a quoted value below its header is found without its quotes, whatever follows on the line and in the file |
| ConfigLines.DoubleQuoted | src/bootstrap/bootstrap.py:685-688 | the value is what stands between the first two double quotes |
| ConfigLines.SingleQuoted | src/bootstrap/bootstrap.py:689-692 | else what stands between the first two single quotes, if the line has no double quote |
| ConfigLines.EmptyQuotes | src/bootstrap/bootstrap.py:642-642 | an empty pair of double quotes, or a single one, counts for nothing: the value is the whole text, stripped |
| ConfigLines.EmptySingleQuotes | src/bootstrap/bootstrap.py:642-642 | the same for single quotes, and for a text without quotes |
| ConfigMerge.TomlConfig.Merge | src/bootstrap/config.rs:485-506 | every section is merged keeping what is set; a profile with targets is refused |
| ConfigMerge.AcceptedExactly | src/bootstrap/config.rs:467-479 | a file is accepted exactly when each header is known, new and not given inline above, each entry at the top is one of those allowed there, and no entry repeats |
| ConfigMerge.TargetExactly | src/bootstrap/config.rs:485-506 | a file configures a target exactly when it has such a header or such an entry at the top |
| ConfigMerge.SearchIsLookup | src/bootstrap/bootstrap.py:632-643 | on one accepted file, first match and the table under the header agree |
| ConfigAgree.AgreeExactly | src/bootstrap/bootstrap.py:876-884 | for any two files that `config.rs` accepts and whose headers and keys Python recognises: the readers agree on a key, whatever the values, exactly when it is in none of three cases (set inline by the user; replaced by an entry above the profile's first header; set only inline by the profile) and its value is not on a line whose value Python reads unlike |
| ConfigAgree.WhateverExactly | src/bootstrap/bootstrap.py:633-643 | whatever Python makes of the lines: the readers agree, whatever the values, exactly when they take the value from the same place |
| ConfigAgree.ReadersAgree | src/bootstrap/config.rs:467-479 | on files whose lines Python reads as TOML does, they agree on sections that neither gives inline, for every key that is not above the profile's first header; an accepted profile has only settings and sections there |
| ConfigAgree.RepositoryProfiles | src/bootstrap/config.rs:950-958 | with such lines, and a profile that opens with a header, they agree on all keys of sections that the user does not give inline |
| ConfigAgree.ReadersDiffer | src/bootstrap/bootstrap.py:758-758 | an accepted user's file with an inline section that they read differently, whatever the profile |
| ConfigAgree.CommentMisread | src/bootstrap/bootstrap.py:638-642 | a comment after an unquoted value: Python returns value and comment, for every section, key, value and profile |
| ConfigAgree.HeaderNotSeen | src/bootstrap/bootstrap.py:634-636 | a comment after a header: Python finds nothing in the section |
| ConfigAgree.SettingNotSeen | src/bootstrap/bootstrap.py:638-638 | an indented key: Python does not find it |

## Left out

- Step bodies are lists fixed by the configuration: a body does not choose its requests from the outputs it receives. In the source `compiler_for` and `compiler` return the compiler asked for, which `StageProofs.BuildableBuilds` proves of the graph.
- Stages are natural numbers; the bounds of `u32` are left out.
- `StageTheorems.RunOrderly`: a downloaded compiler is excluded, because that mode copies directories instead of building; `StageTheorems.DownloadedRuns` is about it, and the well-foundedness and assertion results include it.
- `StageTheorems.CompilersCompleteBeforeUse`: says what precedes a cargo run; it does not model `clear_if_dirty`, which removes cargo output by file times (`src/bootstrap/builder.rs:1092-1094`).
- `StageTheorems.FewBuilds`: for roots among the listed hosts and the build machine; a host that is not listed is not lifted, so its higher stages are built.
- `StageTheorems.NothingCopiedIsDeleted`: removing files by hand, `x.py clean` and other processes are not modelled.
- `StageDisk.GetsThroughExactly`: the files that a stamp lists are taken to be there when the stamp is; and `clear_if_dirty` may remove a stamp of an earlier run when cargo is run in the same output directory for another triple (`src/bootstrap/builder.rs:1092-1094`, `src/bootstrap/lib.rs:763-776`). `TakenOutputsUntouched` proves that this cannot concern a stamp that is needed, except when an unlisted host is built without a full bootstrap.
- `Builder.Builder.Leave`: the assertion that the popped step is the pushed one is its precondition, which `Ensure` establishes; `expect("step stack empty")` likewise.
- Dry runs: they skip effects and stamp reads.
- The builds inside LLVM, LLD, libunwind, CRT objects and sanitizers: they are steps with their requests for LLVM, and being ready is their one effect. `LldWrapper` is a step without requests; `tool.rs` is not part of this model, nor are rustdoc and the other tools.
- Payloads are kinds of files, not lists of paths: a link step copies each kind of dependency in one effect, also when its stamp lists none of that kind.
- Cargo's own work, and the choice of files from its messages (`src/bootstrap/compile.rs:1432-1530`), which needs the file system.
- `TyIntern` and `Interned`: a step holds its values directly.
- Type erasure in the cache and on the stack: one datatype of steps.
- Messages, `--print-step-timings` and verbosity.
- CPU usage and JSON output of the metrics.
- `Metrics.Collected`: elapsed time is a natural number of clock units; conversion to seconds in floating point is left out.
- `minimum_exponent`, `maximum_exponent` and the printed layout of the table: the exponents are parameters, and the results hold for all of them.
- `PathMatching.RunSteps`: the vector of paths that shrinks in place is passed on as a value; the order of paths inside a set is a given sequence, `default` and `is_really_default` are one flag, the assertion that a step has a path set is not modelled, and `make_run` per target is the job itself.
- `CrateGraph.InTreeCrates`: the target only matters through whether the profiler is on, which is a parameter.
- `FormatPool.AlwaysSafe`: the threads are steps of a state machine, not loops; a walker is the sequence of files it still has to send; a panic of a thread other than by a failing child is not modelled, nor is the choice of files to format.
- `StampFormat.RoundTrip`: UTF-8 validity and the order of paths are parameters; a path with a NUL cannot exist on the systems concerned.
- `StagePaths.StampsApart`: a host or target triple is one path component, and the cargo profile directory is a parameter.
- `BuildStamp.AlwaysSound`: one stamp file and one process at a time; errors of reading or removing other than "not found" stop the process, like a crash.
- `ConfigAgree.AgreeExactly`: what TOML takes a line to be is given, not computed from the text. Values over several lines, dotted keys, the entries of `llvm.build-config`, and lookups without a section (the `profile` key itself) are left out. Files that `config.rs` refuses for an unknown key inside a section, or for the type of a value, are not refused here, so the results cover more files than it accepts.
- `ConfigLines.GetToml`: keys consist of letters, digits, `-` and `_`, as all callers' keys do; white space is that of ASCII.
- `flags.rs`, `setup.rs`, `dist.rs`, `test.rs`, `doc.rs`, `install.rs` and the other step files: they use the engine without adding invariants to it.
