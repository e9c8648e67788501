/** What holds in every run that builds compilers, standard libraries and codegen backends: any
    sequence of such requests on a fresh builder, for any configuration, stages, triples and
    lists of crates, also when the run panics. */
module StageTheorems {
  import opened StepEngine
  import opened StepRefinement
  import opened StepOrder
  import opened StageGraph
  import opened StageProofs
  import opened StageOrder
  import opened StageWipes

  type Log = seq<Entry<Step, Event>>
  type Outcome = BodyResult<Step, Event, Output>

  /** What is asked for, one after the other; bounds on the stages, triples and lists of crates
      that occur; and the clock. */
  datatype Request = Request(roots: seq<Step>, stages: nat, triples: set<Target>, crates: set<nat>, clock: nat -> nat)

  function BootGraph(cfg: Config, q: Request): Graph<Step, Event, Output> {
    StageGraphOf(cfg, BootSteps(cfg, q.stages, q.triples, q.crates), q.clock)
  }

  ghost predicate Valid(cfg: Config, q: Request) {
    && cfg.build in q.triples && 0 in q.crates
    && (forall s :: s in q.roots ==>
          (s.Assemble? || s.Std? || s.Rustc? || s.CodegenBackend?) && s in BootGraph(cfg, q).universe)
  }

  ghost predicate Ticking(q: Request) {
    forall i: nat, j: nat :: i <= j ==> q.clock(i) <= q.clock(j)
  }

  /** `r` is the outcome of the request; compilers of stage 0 are asked for only on the build
      machine, and libraries only with compilers that run there. */
  ghost predicate BootRun(cfg: Config, q: Request, r: Outcome) {
    Valid(cfg, q) && Closed(BootGraph(cfg, q)) && r == EnsureAll(BootGraph(cfg, q), Empty(), q.roots)
  }

  /** `e` occurs in `log` before position `i`. */
  ghost predicate Earlier(log: Log, i: nat, e: Event) {
    exists j :: 0 <= j < i && j < |log| && log[j].event == e
  }

  lemma RunTagged(cfg: Config, q: Request, r: Outcome)
    requires BootRun(cfg, q, r)
    ensures Tagged(BootGraph(cfg, q), r.Log())
  {
    AllTags(BootGraph(cfg, q), Empty(), q.roots, r);
  }

  /** Every logged effect comes from a step of the run, at its place in the step's body. */
  lemma EventOrigin(cfg: Config, q: Request, r: Outcome, i: nat)
    requires BootRun(cfg, q, r) && i < |r.Log()|
    ensures var e := r.Log()[i];
            && Within(cfg, q.stages, q.triples, q.crates, e.step) && BuiltHere(cfg, e.step)
            && e.pos < |Body(cfg, e.step)| && Body(cfg, e.step)[e.pos] == Emit(e.event)
            && FineEvent(cfg, e.step, e.event)
  {
    RunTagged(cfg, q, r);
    assert TagOk(BootGraph(cfg, q), r.Log(), i);
    var e := r.Log()[i];
    AllStepsAreWithin(cfg, q.stages, q.triples, q.crates, e.step);
    assert Emit(e.event) in Body(cfg, e.step);
    AllOps(cfg, q.stages, q.triples, q.crates, e.step, Emit(e.event));
  }

  /** Nothing is used before it is there: the whole contract of `StageOrder.Before`. */
  lemma RunOrderly(cfg: Config, q: Request, r: Outcome)
    requires BootRun(cfg, q, r) && !cfg.downloadRustc
    ensures forall i, e :: 0 <= i < |r.Log()| && e in Before(cfg, r.Log()[i].event) ==> Earlier(r.Log(), i, e)
  {
    var g := BootGraph(cfg, q);
    var k := StageContract(cfg);
    StagesRespect(cfg, g);
    HappensBefore(g, k, Empty(), q.roots, r);
    forall i, e | 0 <= i < |r.Log()| && e in Before(cfg, r.Log()[i].event) ensures Earlier(r.Log(), i, e) {
      OccursBefore(k, r.Log(), i, e);
    }
  }

  lemma OrderlyAt(cfg: Config, q: Request, r: Outcome, i: nat, e: Event)
    requires BootRun(cfg, q, r) && !cfg.downloadRustc && i < |r.Log()| && e in Before(cfg, r.Log()[i].event)
    ensures Earlier(r.Log(), i, e)
  {
    RunOrderly(cfg, q, r);
  }

  /** Nothing that is lifted from stage 1 or kept is made in the run. */
  lemma NeverMade(cfg: Config, q: Request, r: Outcome, i: nat, u: Event)
    requires BootRun(cfg, q, r) && i < |r.Log()|
    requires (u.WriteStamp? || u.CargoBuild?) && Unmade(cfg, u.mode, u.compiler, u.triple)
    ensures !Earlier(r.Log(), i, u)
  {
    if Earlier(r.Log(), i, u) {
      var j :| 0 <= j < i && r.Log()[j].event == u;
      EventOrigin(cfg, q, r, j);
    }
  }

  /** A stamp that is read was written earlier in the run exactly when its artifacts are neither
      lifted from stage 1 nor kept; and the link steps read lifted stamps only of kept stages.
      What remains is `Assemble` reading the stamp of a stage-2 or later build compiler without a
      full bootstrap. */
  lemma StampsReadExactly(cfg: Config, q: Request, r: Outcome, i: nat)
    requires BootRun(cfg, q, r) && !cfg.downloadRustc
    requires i < |r.Log()| && r.Log()[i].event.ReadStamp?
    ensures var ReadStamp(mode, c, t) := r.Log()[i].event;
            && (Earlier(r.Log(), i, WriteStamp(mode, c, t)) <==> !Unmade(cfg, mode, c, t))
            && (r.Log()[i].step.StdLink? || r.Log()[i].step.RustcLink? ==> OwnArtifacts(cfg, mode, c, t))
  {
    var ReadStamp(mode, c, t) := r.Log()[i].event;
    EventOrigin(cfg, q, r, i);
    RunOrderly(cfg, q, r);
    if Unmade(cfg, mode, c, t) { NeverMade(cfg, q, r, i, WriteStamp(mode, c, t)); }
  }

  /** The same for the compiler binary: `Assemble` copies a `rustc` that this run has built
      exactly when the build of the stage before is neither lifted nor kept. */
  lemma BinaryBuiltExactly(cfg: Config, q: Request, r: Outcome, i: nat)
    requires BootRun(cfg, q, r) && !cfg.downloadRustc
    requires i < |r.Log()| && r.Log()[i].event.Assembled? && r.Log()[i].event.compiler.stage > 0
    ensures var c := r.Log()[i].event.compiler;
            var b := BuildCompiler(cfg, c.stage - 1);
            Earlier(r.Log(), i, CargoBuild(RustcMode, b, c.host)) <==>
            && c.stage - 1 !in cfg.keepStage
            && (cfg.fullBootstrap || c.stage <= 2 || (c.host !in cfg.hosts && c.host != cfg.build))
  {
    var c := r.Log()[i].event.compiler;
    var b := BuildCompiler(cfg, c.stage - 1);
    BinaryUnmade(cfg, c, b);
    if Unmade(cfg, RustcMode, b, c.host) {
      NeverMade(cfg, q, r, i, CargoBuild(RustcMode, b, c.host));
    } else {
      BinaryBefore(cfg, c, b);
      OrderlyAt(cfg, q, r, i, CargoBuild(RustcMode, b, c.host));
    }
  }

  lemma BinaryUnmade(cfg: Config, c: Compiler, b: Compiler)
    requires c.stage > 0 && b == BuildCompiler(cfg, c.stage - 1)
    ensures Unmade(cfg, RustcMode, b, c.host) <==>
            c.stage - 1 in cfg.keepStage || !(cfg.fullBootstrap || c.stage <= 2 || (c.host !in cfg.hosts && c.host != cfg.build))
  {
  }

  lemma BinaryBefore(cfg: Config, c: Compiler, b: Compiler)
    requires c.stage > 0 && b == BuildCompiler(cfg, c.stage - 1) && !Unmade(cfg, RustcMode, b, c.host)
    ensures CargoBuild(RustcMode, b, c.host) in Before(cfg, Assembled(c))
  {
  }

  /** Cargo is run only with compilers that this run has completed, except the downloaded
      stage 0; and with everything in place that the build needs. */
  lemma CompilersCompleteBeforeUse(cfg: Config, q: Request, r: Outcome, i: nat)
    requires BootRun(cfg, q, r) && !cfg.downloadRustc
    requires i < |r.Log()| && r.Log()[i].event.CargoBuild?
    ensures var CargoBuild(mode, c, t) := r.Log()[i].event;
            && c.host == cfg.build
            && (c.stage == 0 || Earlier(r.Log(), i, Assembled(c)))
            && (forall e :: e in CargoBefore(cfg, mode, c, t) ==> Earlier(r.Log(), i, e))
  {
    EventOrigin(cfg, q, r, i);
    RunOrderly(cfg, q, r);
  }

  // ------------------------------------------------------------------ completeness

  /** Each effect of `s` is at exactly one place of the log. */
  ghost predicate AllOnce(cfg: Config, log: Log, s: Step) {
    forall p: nat :: p < |Body(cfg, s)| && Body(cfg, s)[p].Emit? ==> Once(log, Entry(s, p, Body(cfg, s)[p].event))
  }

  /** `e` is at exactly one place of the log. */
  ghost predicate Once(log: Log, e: Entry<Step, Event>) {
    e in log && forall i, j :: 0 <= i < |log| && 0 <= j < |log| && log[i] == log[j] == e ==> i == j
  }

  /** The steps of a finished run: each has performed its effects, and all it asked for ran. */
  ghost predicate Settled(cfg: Config, r: Outcome) {
    && r.Done?
    && (forall s :: s in r.mem.cache ==> AllOnce(cfg, r.mem.log, s))
    && (forall s, d :: s in r.mem.cache && Call(d) in Body(cfg, s) ==> d in r.mem.cache)
  }

  lemma TaggedOnce(g: Graph<Step, Event, Output>, log: Log, e: Entry<Step, Event>)
    requires Tagged(g, log) && e in log
    ensures Once(log, e)
  {
    forall i, j | 0 <= i < |log| && 0 <= j < |log| && log[i] == log[j] == e ensures i == j {
      assert TagOk(g, log, i) && TagOk(g, log, j);
    }
  }

  /** A run from roots with no host assertion in reach finishes, names the compilers asked for,
      runs all that is asked for, and each step performs each of its effects exactly once. */
  lemma RunsSettle(cfg: Config, q: Request, r: Outcome)
    requires BootRun(cfg, q, r) && Ticking(q) && forall s :: s in q.roots ==> Buildable(cfg, s)
    ensures r.Done? && r.outs == seq(|q.roots|, i requires 0 <= i < |q.roots| => OutputOf(cfg, q.roots[i]))
    ensures Settled(cfg, r) && forall s :: s in q.roots ==> s in r.mem.cache
  {
    var g := BootGraph(cfg, q);
    AllBuild(cfg, g, Empty(), q.roots, r);
    AllPerform(g, Empty(), q.roots, r);
    RunTagged(cfg, q, r);
    EnsureAllRefines(g, Empty(), q.roots, r);
    forall s | s in r.mem.cache ensures AllOnce(cfg, r.mem.log, s) {
      assert DoneUpTo(g, r.mem.log, s, |g.body(s)|);
      forall p: nat | p < |Body(cfg, s)| && Body(cfg, s)[p].Emit?
        ensures Once(r.mem.log, Entry(s, p, Body(cfg, s)[p].event))
      {
        TaggedOnce(g, r.mem.log, Entry(s, p, Body(cfg, s)[p].event));
      }
    }
    forall s, d | s in r.mem.cache && Call(d) in Body(cfg, s) ensures d in r.mem.cache {
      assert Valued(g, r.mem.cache, s) && Call(d) in g.body(s);
    }
  }

  /** Some entry of the log is this effect. */
  ghost predicate Happened(log: Log, e: Event) {
    exists i :: 0 <= i < |log| && log[i].event == e
  }

  /** Without a downloaded compiler no assertion fails and no cycle is found in such a run; it
      names the compilers asked for, each of its steps performs each of its effects exactly
      once, everything asked for has run, and each step that ran has given what `Give` says: in
      particular each compiler asked for, above stage 0, is assembled.  Whether the stamps and
      binaries that it reads are there is the subject of `StageDisk`. */
  lemma RunsComplete(cfg: Config, q: Request, r: Outcome)
    requires BootRun(cfg, q, r) && Ticking(q) && !cfg.downloadRustc
    ensures r.Done? && r.outs == seq(|q.roots|, i requires 0 <= i < |q.roots| => OutputOf(cfg, q.roots[i]))
    ensures Settled(cfg, r) && forall s :: s in q.roots ==> s in r.mem.cache
    ensures forall s, e :: s in r.mem.cache && e in Give(cfg, s) ==> Happened(r.mem.log, e)
    ensures forall c :: Assemble(c) in q.roots && c.stage > 0 ==> Happened(r.mem.log, Assembled(c))
  {
    RunsSettle(cfg, q, r);
    StagesRespect(cfg, BootGraph(cfg, q));
    HappensBefore(BootGraph(cfg, q), StageContract(cfg), Empty(), q.roots, r);
    forall s, e | s in r.mem.cache && e in Give(cfg, s) ensures Happened(r.mem.log, e) {
      assert e in Events(r.mem.log);
    }
    forall c | Assemble(c) in q.roots && c.stage > 0 ensures Happened(r.mem.log, Assembled(c)) {
      assert Assembled(c) in Give(cfg, Assemble(c));
    }
  }

  // ------------------------------------------------------------------ links

  /** Step `s` performed `e` after position `i`. */
  ghost predicate Then(log: Log, i: nat, s: Step, e: Event) {
    exists j :: i < j < |log| && log[j].step == s && log[j].event == e
  }

  /** The link `s` has read the stamp of `u`, and then copied all three kinds of what it lists:
      those for the target into its directory and the self-contained one, those for the host into
      the directory of the machine that `u` runs on. */
  ghost predicate LinkDone(log: Log, s: Step, mode: Mode, u: Compiler, c: Compiler, t: Target) {
    exists i :: 0 <= i < |log| && log[i].step == s && log[i].event == ReadStamp(mode, u, t)
      && Then(log, i, s, CopyInto(c, t, Libs(mode)))
      && Then(log, i, s, CopyInto(c, t, SelfContainedLibs(mode)))
      && Then(log, i, s, CopyInto(c, u.host, HostLibs(mode)))
  }

  lemma LinkPlaces(mode: Mode, u: Compiler, c: Compiler, t: Target)
    ensures var b := LinkBody(mode, u, c, t);
            && |b| == 6 && b[2] == Emit(ReadStamp(mode, u, t))
            && b[3] == Emit(CopyInto(c, t, Libs(mode))) && b[4] == Emit(CopyInto(c, t, SelfContainedLibs(mode)))
            && b[5] == Emit(CopyInto(c, u.host, HostLibs(mode)))
  {
  }

  /** Later operations of a step come later in the log. */
  lemma ThenLater(cfg: Config, q: Request, r: Outcome, s: Step, i: nat, p: nat)
    requires BootRun(cfg, q, r) && Settled(cfg, r) && s in r.mem.cache && i < |r.mem.log| && r.mem.log[i].step == s
    requires r.mem.log[i].pos < p < |Body(cfg, s)| && Body(cfg, s)[p].Emit?
    ensures Then(r.mem.log, i, s, Body(cfg, s)[p].event)
  {
    var g, log := BootGraph(cfg, q), r.mem.log;
    RunTagged(cfg, q, r);
    assert AllOnce(cfg, log, s) && Once(log, Entry(s, p, Body(cfg, s)[p].event));
    var j :| 0 <= j < |log| && log[j] == Entry(s, p, Body(cfg, s)[p].event);
    assert TagOk(g, log, i) && TagOk(g, log, j);
  }

  lemma LinkRuns(cfg: Config, q: Request, r: Outcome, s: Step, mode: Mode, u: Compiler, c: Compiler, t: Target)
    requires BootRun(cfg, q, r) && Settled(cfg, r) && s in r.mem.cache && Body(cfg, s) == LinkBody(mode, u, c, t)
    ensures LinkDone(r.mem.log, s, mode, u, c, t)
  {
    var log := r.mem.log;
    LinkPlaces(mode, u, c, t);
    assert AllOnce(cfg, log, s) && Once(log, Entry(s, 2, ReadStamp(mode, u, t)));
    var i :| 0 <= i < |log| && log[i] == Entry(s, 2, ReadStamp(mode, u, t));
    ThenLater(cfg, q, r, s, i, 3);
    ThenLater(cfg, q, r, s, i, 4);
    ThenLater(cfg, q, r, s, i, 5);
  }

  lemma LinkBodies(cfg: Config, u: Compiler, c: Compiler, t: Target, k: nat)
    ensures Body(cfg, StdLink(u, c, t, k)) == LinkBody(StdMode, u, c, t)
    ensures Body(cfg, RustcLink(u, c, t, k)) == LinkBody(RustcMode, u, c, t)
  {
  }

  /** In a finished run every link has copied what its stamp lists. */
  lemma LinksCopy(cfg: Config, q: Request, r: Outcome, u: Compiler, c: Compiler, t: Target, k: nat)
    requires BootRun(cfg, q, r) && Settled(cfg, r)
    ensures StdLink(u, c, t, k) in r.mem.cache ==> LinkDone(r.mem.log, StdLink(u, c, t, k), StdMode, u, c, t)
    ensures RustcLink(u, c, t, k) in r.mem.cache ==> LinkDone(r.mem.log, RustcLink(u, c, t, k), RustcMode, u, c, t)
  {
    var a, b := StdLink(u, c, t, k), RustcLink(u, c, t, k);
    LinkBodies(cfg, u, c, t, k);
    if a in r.mem.cache { LinkRuns(cfg, q, r, a, StdMode, u, c, t); }
    if b in r.mem.cache { LinkRuns(cfg, q, r, b, RustcMode, u, c, t); }
  }

  /** Every library asked for is linked, with its list of crates, from the compiler that it is
      kept, lifted or built with. */
  lemma LibrariesLinked(cfg: Config, r: Outcome, c: Compiler, t: Target, k: nat)
    requires Settled(cfg, r) && !cfg.downloadRustc && c.host == cfg.build
    ensures Std(c, t, k) in r.mem.cache ==>
              StdLink(if Kept(cfg, StdMode, c) then c else CompilerFor(cfg, c, t), c, t, k) in r.mem.cache
    ensures Rustc(c, t, k) in r.mem.cache ==>
              RustcLink(if Kept(cfg, RustcMode, c) then c else CompilerFor(cfg, c, t), c, t, k) in r.mem.cache
  {
    StdAsksLink(cfg, c, t, k);
    RustcAsksLink(cfg, c, t, k);
  }

  lemma StdAsksLink(cfg: Config, c: Compiler, t: Target, k: nat)
    requires !cfg.downloadRustc && c.host == cfg.build
    ensures Call(StdLink(if Kept(cfg, StdMode, c) then c else CompilerFor(cfg, c, t), c, t, k)) in Body(cfg, Std(c, t, k))
  {
    var body := StdBody(cfg, c, t, k);
    assert body[|body| - 1].Call?;
  }

  lemma RustcAsksLink(cfg: Config, c: Compiler, t: Target, k: nat)
    requires !cfg.downloadRustc && c.host == cfg.build
    ensures Call(RustcLink(if Kept(cfg, RustcMode, c) then c else CompilerFor(cfg, c, t), c, t, k)) in Body(cfg, Rustc(c, t, k))
  {
    var body := RustcBody(cfg, c, t, k);
    assert body[|body| - 1].Call?;
  }

  /** The native tools ask for exactly the LLVMs that must be ready before they are. */
  lemma ToolsAsk(cfg: Config, tool: Tool, t: Target, d: Step)
    ensures Call(d) in Body(cfg, Native(tool, t)) <==> d.Native? && Ready(d.tool, d.triple) in ToolBefore(cfg, tool, t)
  {
    var op: Op<Step, Event> := Call(d);
    match tool
    case Llvm => assert op in NativeBody(cfg, tool, t) <==> op in If(t != cfg.build && t !in cfg.llvmPrebuilt, [Call(Native(Llvm, cfg.build))]);
    case _ =>
  }

  // ------------------------------------------------------------------ directories

  /** The path a directory step returns is the one it wipes; a library directory lies in the
      sysroot of its own compiler. */
  lemma OutputsAreWiped(cfg: Config, c: Compiler, t: Target, dir: Dir)
    requires OutputOf(cfg, Sysroot(c)) == SysrootPath(dir)
    ensures Body(cfg, Sysroot(c))[0] == Emit(WipeSysroot(dir))
    ensures OutputOf(cfg, Libdir(c, t)) == LibdirPath(dir, t)
    ensures !cfg.downloadRustc ==> Emit(WipeLibdir(c, t)) in Body(cfg, Libdir(c, t))
  {
    assert !cfg.downloadRustc ==> Body(cfg, Libdir(c, t))[1] == Emit(WipeLibdir(c, t));
  }

  // ------------------------------------------------------------------ a downloaded compiler

  lemma DownloadedOps(cfg: Config, s: Step, op: Op<Step, Event>)
    requires cfg.downloadRustc && op in Body(cfg, s) && op.Emit?
    ensures op.event.CargoBuild? && !op.event.mode.CodegenMode? ==> op.event.compiler.stage == 0
    ensures !op.event.WipeLibdir? && !op.event.Assembled?
  {
    match s
    case Sysroot(c) => if op in WipeOtherStages(cfg, c, 3) { WipesOnly(cfg, c, 3, op); }
    case Std(c, t, k) => StdCases(cfg, c, t, k, op);
    case _ =>
  }

  lemma DownloadedAsks(cfg: Config, c: Compiler)
    requires cfg.downloadRustc && c.stage > 0
    ensures Call(Assemble(BuildCompiler(cfg, c.stage - 1))) in Body(cfg, Assemble(c))
    ensures Call(Sysroot(c)) in Body(cfg, Assemble(c)) && Emit(CopyCiRustc(c)) in Body(cfg, Sysroot(c))
  {
    assert Body(cfg, Assemble(c))[0] == Call(Assemble(BuildCompiler(cfg, c.stage - 1)));
    assert Body(cfg, Assemble(c))[1] == Call(Sysroot(c));
    assert Body(cfg, Sysroot(c))[|Body(cfg, Sysroot(c))| - 1] == Emit(CopyCiRustc(c));
  }

  /** Libraries of stage 0 are built all the same, and any later `Rustc` makes do with the copy. */
  ghost predicate LibrariesAnyway(cfg: Config, r: Outcome)
    requires r.Done?
  {
    && (forall c, t, k :: Std(c, t, k) in r.mem.cache && c.stage == 0 && !Kept(cfg, StdMode, c) ==>
          Happened(r.mem.log, CargoBuild(StdMode, c, t)))
    && (forall c, t, k :: Rustc(c, t, k) in r.mem.cache && c.stage == 0 && !Kept(cfg, RustcMode, c) ==>
          Happened(r.mem.log, CargoBuild(RustcMode, c, t)))
    && (forall c, t, k :: Rustc(c, t, k) in r.mem.cache && c.stage > 0 ==> Happened(r.mem.log, CopyCiRustc(c)))
  }

  lemma Performs(cfg: Config, r: Outcome, s: Step, e: Event)
    requires Settled(cfg, r) && s in r.mem.cache && Emit(e) in Body(cfg, s)
    ensures Happened(r.mem.log, e)
  {
    var p :| 0 <= p < |Body(cfg, s)| && Body(cfg, s)[p] == Emit(e);
    assert AllOnce(cfg, r.mem.log, s) && Once(r.mem.log, Entry(s, p, e));
  }

  lemma CopyPerformed(cfg: Config, r: Outcome, c: Compiler)
    requires Settled(cfg, r) && cfg.downloadRustc && c.stage > 0 && Sysroot(c) in r.mem.cache
    ensures Happened(r.mem.log, CopyCiRustc(c))
  {
    DownloadedAsks(cfg, c);
    Performs(cfg, r, Sysroot(c), CopyCiRustc(c));
  }

  lemma {:induction false} DownloadedStages(cfg: Config, r: Outcome, c: Compiler, j: nat)
    requires Settled(cfg, r) && cfg.downloadRustc && Assemble(c) in r.mem.cache && 0 < j <= c.stage
    ensures Happened(r.mem.log, CopyCiRustc(if j == c.stage then c else BuildCompiler(cfg, j)))
    decreases c.stage
  {
    DownloadedAsks(cfg, c);
    if j == c.stage {
      CopyPerformed(cfg, r, c);
    } else {
      DownloadedStages(cfg, r, BuildCompiler(cfg, c.stage - 1), j);
    }
  }

  lemma FirstStageBuilds(cfg: Config, c: Compiler, t: Target, k: nat)
    requires c.stage == 0
    ensures !Kept(cfg, StdMode, c) ==> Emit(CargoBuild(StdMode, c, t)) in Body(cfg, Std(c, t, k))
    ensures !Kept(cfg, RustcMode, c) ==> Emit(CargoBuild(RustcMode, c, t)) in Body(cfg, Rustc(c, t, k))
  {
    if !Kept(cfg, StdMode, c) {
      var b := StdBody(cfg, c, t, k);
      assert b[|b| - 4] == Emit(CargoBuild(StdMode, c, t));
    }
    if !Kept(cfg, RustcMode, c) {
      var b := RustcBody(cfg, c, t, k);
      assert b[|b| - 4] == Emit(CargoBuild(RustcMode, c, t));
    }
  }

  lemma DownloadedLibraries(cfg: Config, r: Outcome)
    requires Settled(cfg, r) && cfg.downloadRustc
    ensures LibrariesAnyway(cfg, r)
  {
    forall c, t, k | Std(c, t, k) in r.mem.cache && c.stage == 0 && !Kept(cfg, StdMode, c)
      ensures Happened(r.mem.log, CargoBuild(StdMode, c, t))
    {
      FirstStageBuilds(cfg, c, t, k);
      Performs(cfg, r, Std(c, t, k), CargoBuild(StdMode, c, t));
    }
    forall c, t, k | Rustc(c, t, k) in r.mem.cache && c.stage == 0 && !Kept(cfg, RustcMode, c)
      ensures Happened(r.mem.log, CargoBuild(RustcMode, c, t))
    {
      FirstStageBuilds(cfg, c, t, k);
      Performs(cfg, r, Rustc(c, t, k), CargoBuild(RustcMode, c, t));
    }
    forall c, t, k | Rustc(c, t, k) in r.mem.cache && c.stage > 0 ensures Happened(r.mem.log, CopyCiRustc(c)) {
      assert Body(cfg, Rustc(c, t, k))[0] == Call(Sysroot(c));
      CopyPerformed(cfg, r, c);
    }
  }

  /** With a downloaded compiler, and no compiler asked for that would run elsewhere: the run
      finishes; the download is copied for every stage from 1 to the one asked for, and for every
      compiler whose libraries are asked for; std and rustc are built with stage 0, where they
      are not kept, and only with stage 0; and no library directory is wiped. */
  lemma DownloadedRuns(cfg: Config, q: Request, r: Outcome)
    requires BootRun(cfg, q, r) && Ticking(q) && cfg.downloadRustc
    requires forall c :: Assemble(c) in q.roots ==> c.host == cfg.build
    ensures r.Done?
    ensures forall c, j: nat :: Assemble(c) in q.roots && 0 < j <= c.stage ==>
              Happened(r.mem.log, CopyCiRustc(BuildCompiler(cfg, j)))
    ensures LibrariesAnyway(cfg, r)
    ensures forall i :: 0 <= i < |r.Log()| ==>
              && !r.Log()[i].event.WipeLibdir?
              && (r.Log()[i].event.CargoBuild? && !r.Log()[i].event.mode.CodegenMode? ==> r.Log()[i].event.compiler.stage == 0)
  {
    forall s | s in q.roots ensures Buildable(cfg, s) {
      if s.Assemble? { assert s == Assemble(s.target); }
    }
    RunsSettle(cfg, q, r);
    DownloadedLibraries(cfg, r);
    forall c, j: nat | Assemble(c) in q.roots && 0 < j <= c.stage
      ensures Happened(r.mem.log, CopyCiRustc(BuildCompiler(cfg, j)))
    {
      DownloadedStages(cfg, r, c, j);
    }
    forall i | 0 <= i < |r.Log()|
      ensures !r.Log()[i].event.WipeLibdir?
      ensures r.Log()[i].event.CargoBuild? && !r.Log()[i].event.mode.CodegenMode? ==> r.Log()[i].event.compiler.stage == 0
    {
      EventOrigin(cfg, q, r, i);
      DownloadedOps(cfg, r.Log()[i].step, Emit(r.Log()[i].event));
    }
  }

  /** The directory of stage `j`, if it is not the compiler's own and not the shared one, which
      only the top stage does not use. */
  ghost predicate Stale(cfg: Config, c: Compiler, j: nat, d: Dir) {
    j != c.stage && (j == 0 || c.stage == cfg.topStage) && d == Dir(c.host, if j == 0 then Stage0Sysroot else StageDir(j))
  }

  /** Which other toolchain directories `Sysroot` removes then: the stale ones of stages 0 to 2. */
  lemma {:induction false} DownloadedWipes(cfg: Config, c: Compiler, stages: nat, d: Dir)
    requires cfg.downloadRustc
    ensures Emit(WipeSysroot(d)) in WipeOtherStages(cfg, c, stages) <==> exists j :: 0 <= j < stages && Stale(cfg, c, j, d)
  {
    if stages > 0 {
      DownloadedWipes(cfg, c, stages - 1, d);
      var j: nat := stages - 1;
      var dir := SysrootDirOf(cfg, c, j);
      assert Emit(WipeSysroot(d)) in If(j != c.stage && dir.name != CiRustcSysroot, [Emit(WipeSysroot(dir))])
        <==> Stale(cfg, c, j, d);
      if i :| 0 <= i < stages && Stale(cfg, c, i, d) {
        assert i < stages - 1 || i == j;
      }
    }
  }

  /** So `Sysroot` wipes its own directory first, and then those. */
  lemma SysrootWipes(cfg: Config, c: Compiler, d: Dir)
    requires cfg.downloadRustc && c.stage != 0
    ensures Body(cfg, Sysroot(c))[0] == Emit(WipeSysroot(SysrootDir(cfg, c)))
    ensures Emit(WipeSysroot(d)) in Body(cfg, Sysroot(c)) <==>
            d == SysrootDir(cfg, c) || exists j :: 0 <= j < 3 && Stale(cfg, c, j, d)
  {
    DownloadedWipes(cfg, c, 3, d);
  }

  // ------------------------------------------------------------------ wipes

  lemma WipePlace(cfg: Config, s: Step, pos: nat, e: Event)
    requires !cfg.downloadRustc && pos < |Body(cfg, s)| && Body(cfg, s)[pos] == Emit(e)
    requires e.WipeSysroot? || e.WipeLibdir?
    ensures e.WipeSysroot? ==> s.Sysroot? && pos == 0 && e.dir == SysrootDir(cfg, s.compiler)
    ensures e.WipeLibdir? ==> s == Libdir(e.compiler, e.triple) && pos == 1
  {
    assert Emit(e) in Body(cfg, s);
    AllOps(cfg, 0, {}, {}, s, Emit(e));
  }

  /** Each library directory and each sysroot is wiped at most once. */
  lemma WipedOnce(cfg: Config, q: Request, r: Outcome, i: nat, j: nat)
    requires BootRun(cfg, q, r) && !cfg.downloadRustc
    requires i < |r.Log()| && j < |r.Log()| && r.Log()[i].event == r.Log()[j].event
    requires r.Log()[i].event.WipeSysroot? || r.Log()[i].event.WipeLibdir?
    ensures i == j
  {
    var g := BootGraph(cfg, q);
    var a := r.Log()[i];
    RunTagged(cfg, q, r);
    EventOrigin(cfg, q, r, i);
    WipePlace(cfg, a.step, a.pos, a.event);
    forall t, p: nat | t in g.universe && p < |g.body(t)| && g.body(t)[p] == Emit(a.event)
      ensures t == a.step && p == a.pos
    {
      WipePlace(cfg, t, p, a.event);
    }
    OnceOnly(g, r.Log(), a.step, a.pos, i, j);
  }

  /** Whatever is copied into a sysroot (libraries, dylibs, codegen backends, the compiler
      itself) is not deleted later in the run, neither by wiping its directory nor by wiping the
      sysroot around it. */
  lemma NothingCopiedIsDeleted(cfg: Config, q: Request, r: Outcome, i: nat, j: nat)
    requires BootRun(cfg, q, r) && !cfg.downloadRustc && i < j < |r.Log()|
    ensures r.Log()[j].event !in Undoes(cfg, r.Log()[i].event)
  {
    var e := r.Log()[j].event;
    if e in Undoes(cfg, r.Log()[i].event) {
      WipesRespect(cfg, BootGraph(cfg, q));
      HappensBefore(BootGraph(cfg, q), WipeContract(cfg), Empty(), q.roots, r);
      OccursBefore(WipeContract(cfg), r.Log(), i, e);
      var h :| 0 <= h < i && r.Log()[h].event == e;
      WipedOnce(cfg, q, r, h, j);
      assert false;
    }
  }

  // ------------------------------------------------------------------ how much is built

  /** The distinct standard-library and compiler builds of a run. */
  ghost function Builds(log: Log): set<Event> {
    set x | x in log && x.event.CargoBuild? && !x.event.mode.CodegenMode? :: x.event
  }

  function BuildsOf(mode: Mode, c: Compiler, ts: set<Target>): set<Event> {
    set t | t in ts :: CargoBuild(mode, c, t)
  }

  lemma {:induction false} BuildsOfSize(mode: Mode, c: Compiler, ts: set<Target>)
    ensures |BuildsOf(mode, c, ts)| <= |ts|
    decreases |ts|
  {
    if ts != {} {
      var x :| x in ts;
      BuildsOfSize(mode, c, ts - {x});
      assert BuildsOf(mode, c, ts) == BuildsOf(mode, c, ts - {x}) + {CargoBuild(mode, c, x)};
    }
  }

  lemma FourFamilies(cfg: Config, ts: set<Target>, s: set<Event>)
    requires forall e :: e in s ==>
               && e.CargoBuild? && (e.mode == StdMode || e.mode == RustcMode)
               && e.compiler.host == cfg.build && e.compiler.stage <= 1 && e.triple in ts
    ensures |s| <= 4 * |ts|
  {
    var c0, c1 := BuildCompiler(cfg, 0), BuildCompiler(cfg, 1);
    var stds := BuildsOf(StdMode, c0, ts) + BuildsOf(StdMode, c1, ts);
    var rustcs := BuildsOf(RustcMode, c0, ts) + BuildsOf(RustcMode, c1, ts);
    forall e | e in s ensures e in stds + rustcs {
      assert e == CargoBuild(e.mode, e.compiler, e.triple) && (e.compiler == c0 || e.compiler == c1);
    }
    BuildsOfSize(StdMode, c0, ts);
    BuildsOfSize(StdMode, c1, ts);
    BuildsOfSize(RustcMode, c0, ts);
    BuildsOfSize(RustcMode, c1, ts);
    assert stds + rustcs == s + (stds + rustcs - s);
  }

  /** Without a full bootstrap, however high the stage asked for, cargo is run only with the
      stage-0 and stage-1 compilers of the build machine, and std and rustc are built at most
      four times per triple: at most eight when one host is assembled. */
  lemma FewBuilds(cfg: Config, q: Request, r: Outcome)
    requires BootRun(cfg, q, r) && !cfg.fullBootstrap
    requires forall t :: t in q.triples ==> t in cfg.hosts || t == cfg.build
    ensures forall e :: e in r.Log() && e.event.CargoBuild? ==>
              e.event.compiler.host == cfg.build && e.event.compiler.stage <= 1 && e.event.triple in q.triples
    ensures |Builds(r.Log())| <= 4 * |q.triples|
  {
    forall e | e in r.Log() && e.event.CargoBuild?
      ensures e.event.compiler.host == cfg.build && e.event.compiler.stage <= 1 && e.event.triple in q.triples
    {
      var i :| 0 <= i < |r.Log()| && r.Log()[i] == e;
      EventOrigin(cfg, q, r, i);
    }
    FourFamilies(cfg, q.triples, Builds(r.Log()));
  }

  /** There is such a run for every request: the universe of steps is closed. */
  lemma RunsExist(cfg: Config, q: Request)
    requires Valid(cfg, q)
    ensures exists r :: BootRun(cfg, q, r)
  {
    GraphsClosed(cfg, q.stages, q.triples, q.crates, q.clock);
    assert BootRun(cfg, q, EnsureAll(BootGraph(cfg, q), Empty(), q.roots));
  }
}
