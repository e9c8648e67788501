/** The bootstrap stage graph is well-founded for every configuration, and an assertion fails in
    it exactly when the host assertions of `Assemble` and `Sysroot` say so.  Whether the files
    that steps read are there is the subject of `StageDisk`. */
module StageProofs {
  import opened Wrappers
  import opened StepEngine
  import opened StepRefinement
  import opened StageGraph

  // ------------------------------------------------------------------ what bodies contain

  lemma {:induction false} BackendCallsOnly(c: Compiler, t: Target, backends: seq<string>, op: Op<Step, Event>)
    requires op in BackendCalls(c, t, backends)
    ensures op.Call? && op.step.CodegenBackend?
    ensures op.step == CodegenBackend(c, t, op.step.backend) && op.step.backend in backends
    ensures op.step.backend != "llvm"
    decreases |backends|
  {
    var front := backends[..|backends| - 1];
    if op in BackendCalls(c, t, front) { BackendCallsOnly(c, t, front, op); }
  }

  lemma {:induction false} BackendCopiesOnly(b: Compiler, c: Compiler, backends: seq<string>, op: Op<Step, Event>)
    requires op in BackendCopies(b, c, backends)
    ensures op.Emit?
    ensures op.event.InstallBackend? || (op.event.ReadStamp? && op.event.mode.CodegenMode?
                                         && op.event == ReadStamp(op.event.mode, b, c.host)
                                         && op.event.mode.backend in backends && op.event.mode.backend != "llvm")
    decreases |backends|
  {
    var front := backends[..|backends| - 1];
    if op in BackendCopies(b, c, front) { BackendCopiesOnly(b, c, front, op); }
  }

  lemma {:induction false} WipesOnly(cfg: Config, c: Compiler, stages: nat, op: Op<Step, Event>)
    requires op in WipeOtherStages(cfg, c, stages)
    ensures op.Emit? && op.event.WipeSysroot?
    decreases stages
  {
    if op in WipeOtherStages(cfg, c, stages - 1) { WipesOnly(cfg, c, stages - 1, op); }
  }

  // ------------------------------------------------------------------ well-foundedness

  function Rank(cfg: Config, s: Step): nat {
    match s
    case Native(tool, t) => if tool == Llvm then (if t == cfg.build then 0 else 1) else 2
    case Sysroot(_) => 0
    case Libdir(_, _) => 1
    case StdLink(_, _, _, _) => 2
    case RustcLink(_, _, _, _) => 2
    case StartupObjects(_, _) => 2
    case Assemble(c) => 8 * c.stage + 3
    case Std(c, _, _) => 8 * c.stage + 4
    case Rustc(c, _, _) => 8 * c.stage + 5
    case CodegenBackend(c, _, _) => 8 * c.stage + 6
  }

  /** A request goes down in rank, stays within the stages, triples and crate lists at hand,
      and preserves `BuiltHere`. */
  ghost predicate Fine(cfg: Config, n: nat, ts: set<Target>, ks: set<nat>, s: Step, d: Step) {
    && Rank(cfg, d) < Rank(cfg, s)
    && (cfg.build in ts && 0 in ks && Within(cfg, n, ts, ks, s) ==> Within(cfg, n, ts, ks, d))
    && (BuiltHere(cfg, s) ==> BuiltHere(cfg, d))
    && (Buildable(cfg, s) ==> Buildable(cfg, d))
    && (BuiltHere(cfg, s) && d.Assemble? ==> d.target.host == cfg.build)
  }

  /** Where the effects that matter can come from. */
  ghost predicate FineEvent(cfg: Config, s: Step, e: Event) {
    match e
    case WipeSysroot(_) => s.Sysroot?
    case WipeLibdir(c, t) => s == Libdir(c, t)
    case ReadStamp(mode, c, t) =>
      if s.Assemble? then
        && s.target.stage > 0 && c == BuildCompiler(cfg, s.target.stage - 1) && t == s.target.host
        && (mode == RustcMode || (mode.CodegenMode? && mode.backend in cfg.backends && mode.backend != "llvm"))
      else (s.StdLink? || s.RustcLink?) && c == s.compiler && t == s.triple
    case Assembled(c) => s == Assemble(c)
    case WriteStamp(mode, c, t) => BuiltBy(cfg, mode, c, t, s)
    case CargoBuild(mode, c, t) => BuiltBy(cfg, mode, c, t, s)
    case _ => true
  }

  /** The step that runs cargo for `c`: its artifacts are neither lifted nor kept. */
  ghost predicate BuiltBy(cfg: Config, mode: Mode, c: Compiler, t: Target, s: Step) {
    && !Unmade(cfg, mode, c, t)
    && match mode
       case StdMode => s.Std? && s.compiler == c && s.triple == t
       case RustcMode => s.Rustc? && s.compiler == c && s.triple == t
       case CodegenMode(b) => s == CodegenBackend(c, t, b)
  }

  lemma ObjectsOnly(cfg: Config, c: Compiler, t: Target, op: Op<Step, Event>)
    requires op in ThirdPartyOps(cfg, c, t) || op in SelfContainedOps(cfg, c, t)
    ensures (op.Emit? && op.event.CopyInto? && op.event == CopyInto(c, t, op.event.payload)) || op == Call(Libdir(c, t))
            || (op.Call? && op.step.Native? && op.step.triple == t)
  {
  }

  /** The operations of `Std`, one by one. */
  lemma StdCases(cfg: Config, c: Compiler, t: Target, k: nat, op: Op<Step, Event>)
    requires op in StdBody(cfg, c, t, k)
    ensures c.stage > 0 ==> !cfg.downloadRustc
    ensures var u, b := CompilerFor(cfg, c, t), BuildCompiler(cfg, c.stage);
      || (op == Call(StdLink(c, c, t, k)) && (Kept(cfg, StdMode, c)))
      || op == Call(StartupObjects(c, t)) || op == Call(Assemble(u)) || op == Call(Assemble(b))
      || (op.Emit? && op.event.CopyInto? && op.event == CopyInto(c, t, op.event.payload)) || op == Call(Libdir(c, t))
      || (op.Call? && op.step.Native? && op.step.triple == t)
      || (u != c && (op == Call(Std(u, t, 0)) || op == Call(StdLink(u, c, t, k))))
      || (u == c && (|| op == Call(StdLink(b, c, t, k)) || op == Call(Libdir(c, c.host)) || op == Call(Sysroot(c))
                     || op == Emit(CargoBuild(StdMode, c, t)) || op == Emit(WriteStamp(StdMode, c, t))))
  {
    if op in ThirdPartyOps(cfg, c, t) || op in SelfContainedOps(cfg, c, t) {
      ObjectsOnly(cfg, c, t, op);
    }
  }

  lemma StdOps(cfg: Config, n: nat, ts: set<Target>, ks: set<nat>, s: Step, op: Op<Step, Event>)
    requires s.Std? && op in Body(cfg, s)
    ensures !op.Abort? && (op.Call? ==> Fine(cfg, n, ts, ks, s, op.step))
    ensures op.Emit? ==> FineEvent(cfg, s, op.event)
  {
    var c, t, k := s.compiler, s.triple, s.crates;
    StdCases(cfg, c, t, k, op);
    if op.Call? && op.step.StdLink? {
      StdLinkFine(cfg, n, ts, ks, c, t, k, op.step);
    } else if op.Call? {
      StdCallFine(cfg, n, ts, ks, c, t, k, op.step);
    }
  }

  lemma StdCallFine(cfg: Config, n: nat, ts: set<Target>, ks: set<nat>, c: Compiler, t: Target, k: nat, d: Step)
    requires c.stage > 0 ==> !cfg.downloadRustc
    requires var u, b := CompilerFor(cfg, c, t), BuildCompiler(cfg, c.stage);
      || d == StartupObjects(c, t) || d == Assemble(u) || d == Assemble(b) || d == Libdir(c, t)
      || (d.Native? && d.triple == t) || (u != c && d == Std(u, t, 0)) || d == Libdir(c, c.host) || d == Sysroot(c)
    ensures Fine(cfg, n, ts, ks, Std(c, t, k), d)
  {
  }

  lemma StdLinkFine(cfg: Config, n: nat, ts: set<Target>, ks: set<nat>, c: Compiler, t: Target, k: nat, d: Step)
    requires c.stage > 0 ==> !cfg.downloadRustc
    requires || (d == StdLink(c, c, t, k) && (Kept(cfg, StdMode, c)))
             || d == StdLink(CompilerFor(cfg, c, t), c, t, k)
             || (d == StdLink(BuildCompiler(cfg, c.stage), c, t, k) && CompilerFor(cfg, c, t) == c)
    ensures Fine(cfg, n, ts, ks, Std(c, t, k), d)
  {
  }

  lemma RustcOps(cfg: Config, n: nat, ts: set<Target>, ks: set<nat>, s: Step, op: Op<Step, Event>)
    requires s.Rustc? && op in Body(cfg, s)
    ensures !op.Abort? && (op.Call? ==> Fine(cfg, n, ts, ks, s, op.step))
    ensures op.Emit? ==> FineEvent(cfg, s, op.event)
  {
  }

  lemma CodegenOps(cfg: Config, n: nat, ts: set<Target>, ks: set<nat>, s: Step, op: Op<Step, Event>)
    requires s.CodegenBackend? && op in Body(cfg, s)
    ensures !op.Abort? && (op.Call? ==> Fine(cfg, n, ts, ks, s, op.step))
    ensures op.Emit? ==> FineEvent(cfg, s, op.event)
  {
  }

  lemma AssembleLibsOps(cfg: Config, n: nat, ts: set<Target>, ks: set<nat>, c: Compiler, op: Op<Step, Event>)
    requires c.stage > 0 && !cfg.downloadRustc && op in AssembleLibs(cfg, BuildCompiler(cfg, c.stage - 1), c)
    ensures op.Call? && Fine(cfg, n, ts, ks, Assemble(c), op.step)
  {
    var b := BuildCompiler(cfg, c.stage - 1);
    if op in BackendCalls(b, c.host, cfg.backends) { BackendCallsOnly(b, c.host, cfg.backends, op); }
  }

  lemma AssembleSysrootOps(cfg: Config, n: nat, ts: set<Target>, ks: set<nat>, c: Compiler, op: Op<Step, Event>)
    requires c.stage > 0 && !cfg.downloadRustc && op in AssembleSysroot(cfg, BuildCompiler(cfg, c.stage - 1), c)
    ensures !op.Abort? && (op.Call? ==> Fine(cfg, n, ts, ks, Assemble(c), op.step))
    ensures op.Emit? ==> FineEvent(cfg, Assemble(c), op.event)
  {
    var b := BuildCompiler(cfg, c.stage - 1);
    if op in BackendCopies(b, c, cfg.backends) { BackendCopiesOnly(b, c, cfg.backends, op); }
  }

  lemma AssembleFinishOps(cfg: Config, n: nat, ts: set<Target>, ks: set<nat>, c: Compiler, op: Op<Step, Event>)
    requires c.stage > 0 && !cfg.downloadRustc && op in AssembleFinish(cfg, c)
    ensures !op.Abort? && (op.Call? ==> Fine(cfg, n, ts, ks, Assemble(c), op.step))
    ensures op.Emit? ==> FineEvent(cfg, Assemble(c), op.event)
  {
  }

  lemma AssembleOps(cfg: Config, n: nat, ts: set<Target>, ks: set<nat>, s: Step, op: Op<Step, Event>)
    requires s.Assemble? && op in Body(cfg, s)
    ensures op.Abort? ==> s.target.stage == 0 && s.target.host != cfg.build
    ensures op.Call? ==> Fine(cfg, n, ts, ks, s, op.step)
    ensures op.Emit? ==> FineEvent(cfg, s, op.event)
  {
    var c := s.target;
    if c.stage > 0 && !cfg.downloadRustc {
      var b := BuildCompiler(cfg, c.stage - 1);
      if op in AssembleLibs(cfg, b, c) {
        AssembleLibsOps(cfg, n, ts, ks, c, op);
      } else if op in AssembleSysroot(cfg, b, c) {
        AssembleSysrootOps(cfg, n, ts, ks, c, op);
      } else {
        AssembleFinishOps(cfg, n, ts, ks, c, op);
      }
    }
  }

  lemma LeafOps(cfg: Config, n: nat, ts: set<Target>, ks: set<nat>, s: Step, op: Op<Step, Event>)
    requires s.StdLink? || s.RustcLink? || s.Sysroot? || s.Libdir? || s.StartupObjects? || s.Native?
    requires op in Body(cfg, s)
    ensures op.Abort? ==> s.Sysroot? && cfg.downloadRustc && s.compiler.stage != 0 && s.compiler.host != cfg.build
    ensures op.Call? ==> Fine(cfg, n, ts, ks, s, op.step)
    ensures op.Emit? ==> FineEvent(cfg, s, op.event)
  {
    if s.Sysroot? && op in WipeOtherStages(cfg, s.compiler, 3) {
      WipesOnly(cfg, s.compiler, 3, op);
    }
  }

  lemma AllOps(cfg: Config, n: nat, ts: set<Target>, ks: set<nat>, s: Step, op: Op<Step, Event>)
    requires op in Body(cfg, s)
    ensures op.Call? ==> Fine(cfg, n, ts, ks, s, op.step)
    ensures op.Emit? ==> FineEvent(cfg, s, op.event)
    ensures op.Abort? ==>
      || (s.Assemble? && s.target.stage == 0 && s.target.host != cfg.build)
      || (s.Sysroot? && cfg.downloadRustc && s.compiler.stage != 0 && s.compiler.host != cfg.build)
  {
    match s
    case Assemble(_) => AssembleOps(cfg, n, ts, ks, s, op);
    case Std(_, _, _) => StdOps(cfg, n, ts, ks, s, op);
    case Rustc(_, _, _) => RustcOps(cfg, n, ts, ks, s, op);
    case CodegenBackend(_, _, _) => CodegenOps(cfg, n, ts, ks, s, op);
    case _ => LeafOps(cfg, n, ts, ks, s, op);
  }

  /** Whatever the stage, hosts, targets and flags (including kept stages and a downloaded
      compiler), a step asks only for steps of smaller rank. */
  lemma CallsDescend(cfg: Config, s: Step, d: Step)
    requires Call(d) in Body(cfg, s)
    ensures Rank(cfg, d) < Rank(cfg, s)
    ensures Buildable(cfg, s) ==> Buildable(cfg, d)
  {
    AllOps(cfg, 0, {}, {}, s, Call(d));
  }

  lemma GraphsClosed(cfg: Config, n: nat, ts: set<Target>, ks: set<nat>, clock: nat -> nat)
    requires cfg.build in ts && 0 in ks
    ensures Closed(StageGraphOf(cfg, AllSteps(cfg, n, ts, ks), clock))
    ensures Closed(StageGraphOf(cfg, BootSteps(cfg, n, ts, ks), clock))
  {
    forall s, op | op in Body(cfg, s) && op.Call?
      ensures s in AllSteps(cfg, n, ts, ks) ==> op.step in AllSteps(cfg, n, ts, ks)
      ensures s in BootSteps(cfg, n, ts, ks) ==> op.step in BootSteps(cfg, n, ts, ks)
    {
      AllStepsAreWithin(cfg, n, ts, ks, s);
      AllStepsAreWithin(cfg, n, ts, ks, op.step);
      AllOps(cfg, n, ts, ks, s, op);
    }
  }

  // ------------------------------------------------------------------ no cycle, no failed assertion

  lemma EdgeDescends(cfg: Config, g: Graph<Step, Event, Output>, a: Step, b: Step)
    requires g == StageGraphOf(cfg, g.universe, g.clock) && Calls(g, a, b)
    ensures Rank(cfg, b) < Rank(cfg, a)
    ensures Buildable(cfg, a) ==> Buildable(cfg, b)
  {
    assert g.body(a) == Body(cfg, a);
    CallsDescend(cfg, a, b);
  }

  lemma WalkStep(g: Graph<Step, Event, Output>, p: seq<Step>, j: nat)
    requires Walk(g, p) && 0 < j < |p|
    ensures Calls(g, p[j - 1], p[j])
  {
  }

  /** Along any walk the rank goes down. */
  lemma WalkDescends(cfg: Config, g: Graph<Step, Event, Output>, p: seq<Step>)
    requires g == StageGraphOf(cfg, g.universe, g.clock) && Walk(g, p)
    ensures Descending(cfg, p)
  {
    forall i | 0 < i < |p| ensures Rank(cfg, p[i]) < Rank(cfg, p[i - 1]) {
      WalkStep(g, p, i);
      EdgeDescends(cfg, g, p[i - 1], p[i]);
    }
  }

  ghost predicate Descending(cfg: Config, p: seq<Step>) {
    forall i :: 0 < i < |p| ==> Rank(cfg, p[i]) < Rank(cfg, p[i - 1])
  }

  lemma {:induction false} RankFalls(cfg: Config, p: seq<Step>, i: nat, j: nat)
    requires Descending(cfg, p) && i <= j < |p|
    ensures Rank(cfg, p[j]) <= Rank(cfg, p[i]) - (j - i)
    decreases j
  {
    if i < j { RankFalls(cfg, p, i, j - 1); }
  }

  /** For every configuration and every root step, "Cycle in build" is never reported. */
  lemma NeverCycles(cfg: Config, g: Graph<Step, Event, Output>, m: Mem<Step, Event, Output>, s: Step,
                    r: Result<Step, Event, Output>)
    requires g == StageGraphOf(cfg, g.universe, g.clock) && Inv(g, [], m) && s in g.universe
    requires r == Ensure(g, [], m, s)
    ensures r.Panic? ==> r.why == Failed && TraceOk(g, [s], r.why, r.trace)
  {
    EnsureRefines(g, m, s, r);
    if r.Panic? && r.why == Cycle {
      NoWalkRepeats(cfg, g, r.trace);
    }
  }

  lemma NoWalkRepeats(cfg: Config, g: Graph<Step, Event, Output>, p: seq<Step>)
    requires g == StageGraphOf(cfg, g.universe, g.clock) && Walk(g, p)
    ensures !Repeats(p)
  {
    if Repeats(p) {
      var n := |p| - 1;
      var i :| 0 <= i < n && p[i] == p[n];
      WalkDescends(cfg, g, p);
      RankFalls(cfg, p, i, n);
    }
  }

  lemma BuildableRanked(cfg: Config, g: Graph<Step, Event, Output>, good: set<Step>)
    requires g == StageGraphOf(cfg, g.universe, g.clock) && Closed(g)
    requires good == set x | x in g.universe && Buildable(cfg, x)
    ensures Ranked(g, good, x => Rank(cfg, x))
  {
    forall a, op | a in good && op in g.body(a)
      ensures !op.Abort? && (op.Call? ==> op.step in good && Rank(cfg, op.step) < Rank(cfg, a))
    {
      BuildableOp(cfg, a, op);
    }
  }

  lemma BuildableOp(cfg: Config, s: Step, op: Op<Step, Event>)
    requires op in Body(cfg, s) && Buildable(cfg, s)
    ensures !op.Abort? && (op.Call? ==> Buildable(cfg, op.step) && Rank(cfg, op.step) < Rank(cfg, s))
  {
    AllOps(cfg, 0, {}, {}, s, op);
  }

  /** From a root with no host assertion in reach, no assertion fails and no cycle is found, and
      the output is what the step's type says: asking for the compiler of a stage and host
      returns that compiler.  Whether the stamps it reads are there is another matter:
      `StageDisk`. */
  lemma BuildableBuilds(cfg: Config, g: Graph<Step, Event, Output>, m: Mem<Step, Event, Output>, s: Step,
                        r: Result<Step, Event, Output>)
    requires g == StageGraphOf(cfg, g.universe, g.clock) && Inv(g, [], m) && s in g.universe
    requires r == Ensure(g, [], m, s) && Buildable(cfg, s)
    ensures r.Ok? && r.value == OutputOf(cfg, s)
  {
    var good := set x | x in g.universe && Buildable(cfg, x);
    BuildableRanked(cfg, g, good);
    RankedBuilds(g, good, x => Rank(cfg, x), m, s, r);
    EnsureRefines(g, m, s, r);
    var fuel: nat :| Plain(g, fuel, s) == Some(r.value);
    assert fuel > 0;
  }

  /** Any number of such roots, one after the other. */
  lemma {:induction false} AllBuild(cfg: Config, g: Graph<Step, Event, Output>, m: Mem<Step, Event, Output>,
                                    roots: seq<Step>, r: BodyResult<Step, Event, Output>)
    requires g == StageGraphOf(cfg, g.universe, g.clock) && Inv(g, [], m)
    requires forall s :: s in roots ==> s in g.universe && Buildable(cfg, s)
    requires r == EnsureAll(g, m, roots)
    ensures r.Done? && |r.outs| == |roots| && forall i :: 0 <= i < |roots| ==> r.outs[i] == OutputOf(cfg, roots[i])
    decreases |roots|
  {
    if roots != [] {
      var c := Ensure(g, [], m, roots[0]);
      BuildableBuilds(cfg, g, m, roots[0], c);
      EnsureRefines(g, m, roots[0], c);
      AllBuild(cfg, g, c.mem, roots[1..], EnsureAll(g, c.mem, roots[1..]));
    }
  }

  /** Assembling a compiler fails one of the two host assertions exactly when it is a stage-0
      compiler for another machine, or a downloaded one for another machine. */
  lemma HostAssertionsExactly(cfg: Config, g: Graph<Step, Event, Output>, m: Mem<Step, Event, Output>, c: Compiler,
                              r: Result<Step, Event, Output>)
    requires g == StageGraphOf(cfg, g.universe, g.clock) && Inv(g, [], m) && Assemble(c) in g.universe
    requires r == Ensure(g, [], m, Assemble(c))
    ensures r.Panic? <==> c.host != cfg.build && (c.stage == 0 || cfg.downloadRustc)
    ensures r.Panic? ==> r.why == Failed
    ensures r.Ok? ==> r.value == Built(c)
  {
    var s := Assemble(c);
    NeverCycles(cfg, g, m, s, r);
    if c.host == cfg.build || (c.stage > 0 && !cfg.downloadRustc) {
      BuildableBuilds(cfg, g, m, s, r);
    } else {
      var p := if c.stage == 0 then [s] else [s, Sysroot(c)];
      assert c.stage > 0 ==> g.body(s)[1] == Call(Sysroot(c)) && Calls(g, s, Sysroot(c));
      assert c.stage > 0 ==> g.body(Sysroot(c))[1] == Abort;
      assert c.stage == 0 ==> g.body(s)[0] == Abort;
      assert Walk(g, p) && Abort in g.body(p[|p| - 1]);
      PanicsExactly(g, m, s, r);
    }
  }
}
