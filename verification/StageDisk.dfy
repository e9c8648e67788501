/** Runs on a real disk.  Reading a stamp that is not there, and copying a compiler binary that
    is not there, is fatal.  In the runs of `StageTheorems` these are effects like any other; a
    run on a disk goes as far as its first miss.  Here is when it gets to its end. */
module StageDisk {
  import opened StepEngine
  import opened StepOrder
  import opened StageGraph
  import opened StageProofs
  import opened StageOrder
  import opened StageTheorems
  import StagePaths

  /** What must be on disk for an effect to be possible, named by the effect that puts it there. */
  function Uses(cfg: Config, e: Event): set<Event> {
    match e
    case ReadStamp(mode, c, t) => {WriteStamp(mode, c, t)}
    case Assembled(c) => if c.stage == 0 then {} else {CargoBuild(RustcMode, BuildCompiler(cfg, c.stage - 1), c.host)}
    case _ => {}
  }

  /** The effect at `i` is impossible: something it uses was left on `disk` by no earlier run,
      and has not been made in this one. */
  ghost predicate Misses(cfg: Config, disk: set<Event>, log: Log, i: nat) {
    i < |log| && exists u :: u in Uses(cfg, log[i].event) && u !in disk && !Earlier(log, i, u)
  }

  /** The run gets to its end: no assertion fails, and nothing it uses is missing. */
  ghost predicate GetsThrough(cfg: Config, disk: set<Event>, r: Outcome) {
    r.Done? && forall i :: 0 <= i < |r.mem.log| ==> !Misses(cfg, disk, r.mem.log, i)
  }

  // ------------------------------------------------------------------ what is taken from earlier runs

  ghost function Lifted(cfg: Config): Compiler { BuildCompiler(cfg, 1) }

  /** What assembling `c` takes from earlier runs. */
  ghost function AssembleTakes(cfg: Config, c: Compiler): set<Event>
    decreases 8 * c.stage + 3
  {
    if c.stage == 0 then {}
    else
      var b := BuildCompiler(cfg, c.stage - 1);
      AssembleTakes(cfg, b) + RustcTakes(cfg, b, c.host) + OwnTakes(cfg, b, c.host)
  }

  /** The stamps and the binary that `Assemble` itself reads, of builds that no run makes. */
  ghost function OwnTakes(cfg: Config, b: Compiler, host: Target): set<Event> {
    (if Unmade(cfg, RustcMode, b, host) then {WriteStamp(RustcMode, b, host), CargoBuild(RustcMode, b, host)} else {})
    + (set x | x in cfg.backends && x != "llvm" && Unmade(cfg, CodegenMode(x), b, host) :: WriteStamp(CodegenMode(x), b, host))
  }

  ghost function StdTakes(cfg: Config, c: Compiler, t: Target): set<Event>
    decreases 8 * c.stage + 4
  {
    if Kept(cfg, StdMode, c) then {WriteStamp(StdMode, c, t)}
    else if ForceUseStage1(cfg, c, t) then AssembleTakes(cfg, Lifted(cfg)) + StdTakes(cfg, Lifted(cfg), t)
    else AssembleTakes(cfg, c)
  }

  ghost function RustcTakes(cfg: Config, c: Compiler, t: Target): set<Event>
    decreases 8 * c.stage + 5
  {
    StdTakes(cfg, c, t)
    + (if Kept(cfg, RustcMode, c) then {WriteStamp(RustcMode, c, t)}
       else if ForceUseStage1(cfg, c, t) then AssembleTakes(cfg, Lifted(cfg)) + RustcTakes(cfg, Lifted(cfg), t)
       else AssembleTakes(cfg, c) + StdTakes(cfg, BuildCompiler(cfg, c.stage), cfg.build))
  }

  ghost function LinkTakes(cfg: Config, mode: Mode, u: Compiler, t: Target): set<Event> {
    if Unmade(cfg, mode, u, t) then {WriteStamp(mode, u, t)} else {}
  }

  /** What a step and all it asks for take from earlier runs. */
  ghost function Takes(cfg: Config, s: Step): set<Event> {
    match s
    case Assemble(c) => AssembleTakes(cfg, c)
    case Std(c, t, _) => StdTakes(cfg, c, t)
    case Rustc(c, t, _) => RustcTakes(cfg, c, t)
    case CodegenBackend(c, t, _) => RustcTakes(cfg, c, t)
    case StdLink(u, _, t, _) => LinkTakes(cfg, StdMode, u, t)
    case RustcLink(u, _, t, _) => LinkTakes(cfg, RustcMode, u, t)
    case _ => {}
  }

  // ------------------------------------------------------------------ what is missed is taken

  /** Of what `Std` asks for, the steps that take something. */
  lemma StdRequests(cfg: Config, c: Compiler, t: Target, n: nat, d: Step)
    requires !cfg.downloadRustc && c.host == cfg.build && Call(d) in StdBody(cfg, c, t, n)
    ensures Kept(cfg, StdMode, c) ==> d == StdLink(c, c, t, n)
    ensures d.Assemble? ==> d.target == CompilerFor(cfg, c, t)
    ensures d.Std? ==> ForceUseStage1(cfg, c, t) && d == Std(Lifted(cfg), t, 0)
    ensures d.StdLink? ==> d.triple == t && d.compiler == if Kept(cfg, StdMode, c) then c else CompilerFor(cfg, c, t)
    ensures !d.Rustc? && !d.CodegenBackend? && !d.RustcLink?
  {
    StdCases(cfg, c, t, n, Call(d));
  }

  lemma StdAsksTaken(cfg: Config, c: Compiler, t: Target, n: nat, d: Step)
    requires !cfg.downloadRustc && c.host == cfg.build && Call(d) in StdBody(cfg, c, t, n)
    ensures Takes(cfg, d) <= StdTakes(cfg, c, t)
  {
    StdRequests(cfg, c, t, n, d);
  }

  lemma RustcAsksTaken(cfg: Config, c: Compiler, t: Target, n: nat, d: Step)
    requires !cfg.downloadRustc && c.host == cfg.build && Call(d) in RustcBody(cfg, c, t, n)
    ensures Takes(cfg, d) <= RustcTakes(cfg, c, t)
  {
  }

  lemma CodegenAsksTaken(cfg: Config, c: Compiler, t: Target, b: string, d: Step)
    requires !cfg.downloadRustc && c.host == cfg.build && Call(d) in CodegenBody(cfg, c, t, b)
    ensures Takes(cfg, d) <= RustcTakes(cfg, c, t)
  {
  }

  lemma LibsAskTaken(cfg: Config, c: Compiler, d: Step)
    requires c.stage > 0 && Call(d) in AssembleLibs(cfg, BuildCompiler(cfg, c.stage - 1), c)
    ensures Takes(cfg, d) <= AssembleTakes(cfg, c)
  {
    var b := BuildCompiler(cfg, c.stage - 1);
    if Call(d) in BackendCalls(b, c.host, cfg.backends) {
      BackendCallsOnly(b, c.host, cfg.backends, Call(d));
    }
  }

  lemma AssembleParts(cfg: Config, c: Compiler, op: Op<Step, Event>)
    requires !cfg.downloadRustc && op.Call? && op in AssembleBody(cfg, c)
    ensures c.stage > 0
    ensures var b := BuildCompiler(cfg, c.stage - 1);
            op in AssembleLibs(cfg, b, c) || op in AssembleSysroot(cfg, b, c) || op in AssembleFinish(cfg, c)
  {
  }

  lemma AssembleAsksTaken(cfg: Config, c: Compiler, d: Step)
    requires !cfg.downloadRustc && Call(d) in AssembleBody(cfg, c)
    ensures Takes(cfg, d) <= AssembleTakes(cfg, c)
  {
    AssembleParts(cfg, c, Call(d));
    var b := BuildCompiler(cfg, c.stage - 1);
    if Call(d) in AssembleLibs(cfg, b, c) {
      LibsAskTaken(cfg, c, d);
    } else {
      AssemblyAsksNothing(cfg, b, c, d);
    }
  }

  lemma AssemblyAsksNothing(cfg: Config, b: Compiler, c: Compiler, d: Step)
    requires Call(d) in AssembleSysroot(cfg, b, c) || Call(d) in AssembleFinish(cfg, c)
    ensures Takes(cfg, d) == {}
  {
    if Call(d) in BackendCopies(b, c, cfg.backends) { BackendCopiesOnly(b, c, cfg.backends, Call(d)); }
  }

  lemma LeafAsksTaken(cfg: Config, s: Step, d: Step)
    requires !cfg.downloadRustc && Call(d) in Body(cfg, s)
    requires !s.Assemble? && !s.Std? && !s.Rustc? && !s.CodegenBackend?
    ensures Takes(cfg, d) == {}
  {
  }

  lemma AsksTaken(cfg: Config, s: Step, d: Step)
    requires !cfg.downloadRustc && BuiltHere(cfg, s) && Call(d) in Body(cfg, s)
    ensures Takes(cfg, d) <= Takes(cfg, s)
  {
    match s
    case Assemble(c) => AssembleAsksTaken(cfg, c, d);
    case Std(c, t, n) => StdAsksTaken(cfg, c, t, n, d);
    case Rustc(c, t, n) => RustcAsksTaken(cfg, c, t, n, d);
    case CodegenBackend(c, t, b) => CodegenAsksTaken(cfg, c, t, b, d);
    case _ => LeafAsksTaken(cfg, s, d);
  }

  /** What a run uses and has not made is not made by any run, and is taken by the step. */
  lemma MissOrigin(cfg: Config, q: Request, r: Outcome, i: nat, u: Event)
    requires BootRun(cfg, q, r) && !cfg.downloadRustc
    requires i < |r.Log()| && u in Uses(cfg, r.Log()[i].event) && !Earlier(r.Log(), i, u)
    ensures Unmade(cfg, u.mode, u.compiler, u.triple) && u in Takes(cfg, r.Log()[i].step)
  {
    EventOrigin(cfg, q, r, i);
    if r.Log()[i].event.ReadStamp? {
      StampsReadExactly(cfg, q, r, i);
    } else {
      BinaryBuiltExactly(cfg, q, r, i);
    }
    UseIsTaken(cfg, r.Log()[i].step, r.Log()[i].event, u);
  }

  lemma UseIsTaken(cfg: Config, s: Step, e: Event, u: Event)
    requires FineEvent(cfg, s, e) && u in Uses(cfg, e) && Unmade(cfg, u.mode, u.compiler, u.triple)
    requires e.ReadStamp? && s.StdLink? ==> e.mode == StdMode
    requires e.ReadStamp? && s.RustcLink? ==> e.mode == RustcMode
    ensures u in Takes(cfg, s)
  {
    if s.Assemble? {
      assert u in OwnTakes(cfg, BuildCompiler(cfg, s.target.stage - 1), s.target.host);
    }
  }

  lemma RunsTake(cfg: Config, q: Request, r: Outcome, i: nat)
    requires BootRun(cfg, q, r) && !cfg.downloadRustc && i < |r.Log()|
    ensures exists root :: root in q.roots && Takes(cfg, r.Log()[i].step) <= Takes(cfg, root)
  {
    var g := BootGraph(cfg, q);
    var p := set s | s in g.universe && exists root :: root in q.roots && Takes(cfg, s) <= Takes(cfg, root);
    forall s, op | s in p && op in g.body(s) && op.Call? ensures op.step in p {
      AsksTaken(cfg, s, op.step);
      var root :| root in q.roots && Takes(cfg, s) <= Takes(cfg, root);
      assert Takes(cfg, op.step) <= Takes(cfg, root);
    }
    AllStay(g, p, Empty(), q.roots, r);
    assert r.Log()[i] in r.Log();
  }

  // ------------------------------------------------------------------ what is taken is missed

  lemma {:induction false} BackendRead(b: Compiler, c: Compiler, backends: seq<string>, x: string)
    requires x in backends && x != "llvm"
    ensures Emit(ReadStamp(CodegenMode(x), b, c.host)) in BackendCopies(b, c, backends)
    decreases |backends|
  {
    var n := |backends| - 1;
    if x != backends[n] {
      assert x in backends[..n];
      BackendRead(b, c, backends[..n], x);
    } else {
      assert BackendCopy(b, c, x)[0] == Emit(ReadStamp(CodegenMode(x), b, c.host));
      assert Emit(ReadStamp(CodegenMode(x), b, c.host)) in BackendCopy(b, c, x);
    }
  }

  /** What a step takes, one of its own effects uses, or a step that it asks for takes it. */
  ghost predicate Taken(cfg: Config, s: Step, u: Event) {
    || (exists e :: Emit(e) in Body(cfg, s) && u in Uses(cfg, e))
    || (exists d :: Call(d) in Body(cfg, s) && u in Takes(cfg, d))
  }

  lemma OwnTaken(cfg: Config, c: Compiler, u: Event)
    requires !cfg.downloadRustc && c.stage > 0 && u in OwnTakes(cfg, BuildCompiler(cfg, c.stage - 1), c.host)
    ensures Taken(cfg, Assemble(c), u)
  {
    var b := BuildCompiler(cfg, c.stage - 1);
    var e := if u.CargoBuild? then Assembled(c) else ReadStamp(u.mode, b, c.host);
    assert AssembleSysroot(cfg, b, c)[0] == Emit(ReadStamp(RustcMode, b, c.host));
    assert AssembleFinish(cfg, c)[|AssembleFinish(cfg, c)| - 1] == Emit(Assembled(c));
    if u.mode.CodegenMode? { BackendRead(b, c, cfg.backends, u.mode.backend); }
    assert Emit(e) in Body(cfg, Assemble(c)) && u in Uses(cfg, e);
  }

  lemma AssembleAsks(cfg: Config, c: Compiler, b: Compiler)
    requires !cfg.downloadRustc && c.stage > 0 && b == BuildCompiler(cfg, c.stage - 1)
    ensures Call(Assemble(b)) in Body(cfg, Assemble(c)) && Call(Rustc(b, c.host, 0)) in Body(cfg, Assemble(c))
  {
    assert AssembleBody(cfg, c)[0] == Call(Assemble(b)) && AssembleBody(cfg, c)[1] == Call(Rustc(b, c.host, 0));
  }

  function Previous(cfg: Config, c: Compiler): Compiler {
    BuildCompiler(cfg, if c.stage == 0 then 0 else c.stage - 1)
  }

  lemma AssembleCases(cfg: Config, c: Compiler, b: Compiler, u: Event)
    requires b == Previous(cfg, c) && u in AssembleTakes(cfg, c)
    ensures c.stage > 0
    ensures u in OwnTakes(cfg, b, c.host) || u in Takes(cfg, Assemble(b)) || u in Takes(cfg, Rustc(b, c.host, 0))
  {
  }

  lemma AssembleTaken(cfg: Config, c: Compiler, u: Event)
    requires !cfg.downloadRustc && u in Takes(cfg, Assemble(c))
    ensures Taken(cfg, Assemble(c), u)
  {
    var b := Previous(cfg, c);
    AssembleCases(cfg, c, b, u);
    AssembleAsks(cfg, c, b);
    if u in OwnTakes(cfg, b, c.host) {
      OwnTaken(cfg, c, u);
    } else if u in Takes(cfg, Assemble(b)) {
      TakenByCall(cfg, Assemble(c), Assemble(b), u);
    } else {
      TakenByCall(cfg, Assemble(c), Rustc(b, c.host, 0), u);
    }
  }

  lemma TakenByCall(cfg: Config, s: Step, d: Step, u: Event)
    requires Call(d) in Body(cfg, s) && u in Takes(cfg, d)
    ensures Taken(cfg, s, u)
  {
  }

  lemma StdTaken(cfg: Config, c: Compiler, t: Target, n: nat, u: Event)
    requires !cfg.downloadRustc && c.host == cfg.build && u in StdTakes(cfg, c, t)
    ensures Taken(cfg, Std(c, t, n), u)
  {
    var d;
    if Kept(cfg, StdMode, c) {
      d := StdLink(c, c, t, n);
      assert StdBody(cfg, c, t, n)[0] == Call(d);
    } else if u in AssembleTakes(cfg, CompilerFor(cfg, c, t)) {
      d := Assemble(CompilerFor(cfg, c, t));
      assert StdBody(cfg, c, t, n)[1] == Call(d);
    } else {
      d := Std(Lifted(cfg), t, 0);
      assert StdBody(cfg, c, t, n)[2] == Call(d);
    }
    assert Call(d) in Body(cfg, Std(c, t, n)) && u in Takes(cfg, d);
  }

  lemma RustcTaken(cfg: Config, c: Compiler, t: Target, n: nat, u: Event)
    requires !cfg.downloadRustc && c.host == cfg.build && u in RustcTakes(cfg, c, t)
    ensures Taken(cfg, Rustc(c, t, n), u)
  {
    var d;
    var body := RustcBody(cfg, c, t, n);
    if u in StdTakes(cfg, c, t) {
      d := Std(c, t, 0);
      assert body[0] == Call(d);
    } else if Kept(cfg, RustcMode, c) {
      d := RustcLink(c, c, t, n);
      assert body[1] == Call(d);
    } else if u in AssembleTakes(cfg, CompilerFor(cfg, c, t)) {
      d := Assemble(CompilerFor(cfg, c, t));
      assert body[1] == Call(d);
    } else if ForceUseStage1(cfg, c, t) {
      d := Rustc(Lifted(cfg), t, 0);
      assert body[2] == Call(d);
    } else {
      d := Std(BuildCompiler(cfg, c.stage), cfg.build, 0);
      assert body[3] == Call(d);
    }
    assert Call(d) in Body(cfg, Rustc(c, t, n)) && u in Takes(cfg, d);
  }

  lemma CodegenTaken(cfg: Config, c: Compiler, t: Target, b: string, u: Event)
    requires u in RustcTakes(cfg, c, t)
    ensures Taken(cfg, CodegenBackend(c, t, b), u)
  {
    var d := Rustc(c, t, 0);
    assert CodegenBody(cfg, c, t, b)[0] == Call(d);
    assert Call(d) in Body(cfg, CodegenBackend(c, t, b)) && u in Takes(cfg, d);
  }

  lemma LinkTaken(cfg: Config, mode: Mode, v: Compiler, c: Compiler, t: Target)
    ensures Emit(ReadStamp(mode, v, t)) in LinkBody(mode, v, c, t)
  {
    assert LinkBody(mode, v, c, t)[2] == Emit(ReadStamp(mode, v, t));
  }

  lemma TakenBy(cfg: Config, s: Step, u: Event)
    requires !cfg.downloadRustc && BuiltHere(cfg, s) && u in Takes(cfg, s)
    ensures Taken(cfg, s, u)
  {
    match s
    case Assemble(c) => AssembleTaken(cfg, c, u);
    case Std(c, t, n) => StdTaken(cfg, c, t, n, u);
    case Rustc(c, t, n) => RustcTaken(cfg, c, t, n, u);
    case CodegenBackend(c, t, b) => CodegenTaken(cfg, c, t, b, u);
    case StdLink(v, c, t, _) =>
      LinkTaken(cfg, StdMode, v, c, t);
      assert u in Uses(cfg, ReadStamp(StdMode, v, t));
    case RustcLink(v, c, t, _) =>
      LinkTaken(cfg, RustcMode, v, c, t);
      assert u in Uses(cfg, ReadStamp(RustcMode, v, t));
  }

  lemma Performs(cfg: Config, r: Outcome, s: Step, e: Event) returns (i: nat)
    requires Settled(cfg, r) && s in r.mem.cache && Emit(e) in Body(cfg, s)
    ensures i < |r.mem.log| && r.mem.log[i].event == e
  {
    var p :| 0 <= p < |Body(cfg, s)| && Body(cfg, s)[p] == Emit(e);
    assert AllOnce(cfg, r.mem.log, s);
    assert Once(r.mem.log, Entry(s, p, e));
    i :| 0 <= i < |r.mem.log| && r.mem.log[i] == Entry(s, p, e);
  }

  lemma {:induction false} TakenIsUsed(cfg: Config, r: Outcome, s: Step, u: Event) returns (i: nat)
    requires Settled(cfg, r) && !cfg.downloadRustc && BuiltHere(cfg, s) && s in r.mem.cache && u in Takes(cfg, s)
    ensures i < |r.mem.log| && u in Uses(cfg, r.mem.log[i].event)
    decreases Rank(cfg, s)
  {
    TakenBy(cfg, s, u);
    if e :| Emit(e) in Body(cfg, s) && u in Uses(cfg, e) {
      i := Performs(cfg, r, s, e);
    } else {
      var d :| Call(d) in Body(cfg, s) && u in Takes(cfg, d);
      AllOps(cfg, 0, {}, {}, s, Call(d));
      i := TakenIsUsed(cfg, r, d, u);
    }
  }

  // ------------------------------------------------------------------ nothing taken is made

  lemma {:induction false} AssembleTakesUnmade(cfg: Config, c: Compiler, u: Event)
    requires u in AssembleTakes(cfg, c)
    ensures (u.WriteStamp? || u.CargoBuild?) && Unmade(cfg, u.mode, u.compiler, u.triple)
    decreases 8 * c.stage + 3
  {
    var b := BuildCompiler(cfg, c.stage - 1);
    if u in AssembleTakes(cfg, b) { AssembleTakesUnmade(cfg, b, u); }
    else if u in RustcTakes(cfg, b, c.host) { RustcTakesUnmade(cfg, b, c.host, u); }
  }

  lemma {:induction false} StdTakesUnmade(cfg: Config, c: Compiler, t: Target, u: Event)
    requires u in StdTakes(cfg, c, t)
    ensures (u.WriteStamp? || u.CargoBuild?) && Unmade(cfg, u.mode, u.compiler, u.triple)
    decreases 8 * c.stage + 4
  {
    if !Kept(cfg, StdMode, c) {
      if u in AssembleTakes(cfg, CompilerFor(cfg, c, t)) { AssembleTakesUnmade(cfg, CompilerFor(cfg, c, t), u); }
      else { StdTakesUnmade(cfg, Lifted(cfg), t, u); }
    }
  }

  lemma {:induction false} RustcTakesUnmade(cfg: Config, c: Compiler, t: Target, u: Event)
    requires u in RustcTakes(cfg, c, t)
    ensures (u.WriteStamp? || u.CargoBuild?) && Unmade(cfg, u.mode, u.compiler, u.triple)
    decreases 8 * c.stage + 5
  {
    if u in StdTakes(cfg, c, t) { StdTakesUnmade(cfg, c, t, u); }
    else if !Kept(cfg, RustcMode, c) {
      if u in AssembleTakes(cfg, CompilerFor(cfg, c, t)) { AssembleTakesUnmade(cfg, CompilerFor(cfg, c, t), u); }
      else if ForceUseStage1(cfg, c, t) { RustcTakesUnmade(cfg, Lifted(cfg), t, u); }
      else { StdTakesUnmade(cfg, BuildCompiler(cfg, c.stage), cfg.build, u); }
    }
  }

  lemma TakesUnmade(cfg: Config, s: Step, u: Event)
    requires u in Takes(cfg, s)
    ensures (u.WriteStamp? || u.CargoBuild?) && Unmade(cfg, u.mode, u.compiler, u.triple)
  {
    match s
    case Assemble(c) => AssembleTakesUnmade(cfg, c, u);
    case Std(c, t, _) => StdTakesUnmade(cfg, c, t, u);
    case Rustc(c, t, _) => RustcTakesUnmade(cfg, c, t, u);
    case CodegenBackend(c, t, _) => RustcTakesUnmade(cfg, c, t, u);
    case StdLink(_, _, _, _) =>
    case RustcLink(_, _, _, _) =>
  }

  // ------------------------------------------------------------------ main results

  /** A run gets to its end exactly when the disk holds what its roots take from earlier runs:
      what is lifted or kept on the way to them. */
  lemma GetsThroughExactly(cfg: Config, q: Request, r: Outcome, disk: set<Event>)
    requires BootRun(cfg, q, r) && Ticking(q) && !cfg.downloadRustc
    ensures GetsThrough(cfg, disk, r) <==> forall s :: s in q.roots ==> Takes(cfg, s) <= disk
  {
    RunsComplete(cfg, q, r);
    forall s, u | s in q.roots && u in Takes(cfg, s) && u !in disk ensures !GetsThrough(cfg, disk, r) {
      var i := TakenIsUsed(cfg, r, s, u);
      TakesUnmade(cfg, s, u);
      NeverMade(cfg, q, r, i, u);
      assert Misses(cfg, disk, r.mem.log, i);
    }
    forall i | 0 <= i < |r.mem.log| && Misses(cfg, disk, r.mem.log, i)
      ensures exists s :: s in q.roots && !(Takes(cfg, s) <= disk)
    {
      var u :| u in Uses(cfg, r.mem.log[i].event) && u !in disk && !Earlier(r.mem.log, i, u);
      MissOrigin(cfg, q, r, i, u);
      RunsTake(cfg, q, r, i);
      var root :| root in q.roots && Takes(cfg, r.mem.log[i].step) <= Takes(cfg, root);
      assert u in Takes(cfg, root);
    }
  }

  /** No stage below `n` is kept. */
  predicate NoneKept(cfg: Config, n: nat) {
    forall j: nat :: j < n ==> j !in cfg.keepStage && j !in cfg.keepStageStd
  }

  /** The compilers that can be assembled in an empty build directory. */
  predicate FromScratch(cfg: Config, c: Compiler) {
    && NoneKept(cfg, c.stage)
    && (cfg.fullBootstrap || c.stage <= 2 || (c.stage == 3 && c.host !in cfg.hosts && c.host != cfg.build))
  }

  /** The steps that can be run there. */
  predicate Fresh(cfg: Config, s: Step) {
    match s
    case Assemble(c) => FromScratch(cfg, c)
    case Std(c, t, _) => FreshBuild(cfg, c, t)
    case Rustc(c, t, _) => FreshBuild(cfg, c, t)
    case CodegenBackend(c, t, _) => FreshBuild(cfg, c, t)
    case _ => true
  }

  /** Libraries: neither the compiler nor, if it differs, the one they are lifted from is kept,
      and that one can be assembled. */
  predicate FreshBuild(cfg: Config, c: Compiler, t: Target) {
    && !Kept(cfg, StdMode, c) && !Kept(cfg, StdMode, CompilerFor(cfg, c, t))
    && FromScratch(cfg, CompilerFor(cfg, c, t))
  }

  lemma {:induction false} AssembleFresh(cfg: Config, c: Compiler)
    ensures AssembleTakes(cfg, c) == {} <==> FromScratch(cfg, c)
    decreases 8 * c.stage + 3
  {
    if c.stage > 0 {
      var b := BuildCompiler(cfg, c.stage - 1);
      AssembleFresh(cfg, b);
      RustcFresh(cfg, b, c.host);
      OwnFresh(cfg, b, c.host);
      assert NoneKept(cfg, c.stage) <==> NoneKept(cfg, c.stage - 1) && !Kept(cfg, StdMode, b);
      assert FromScratch(cfg, Lifted(cfg)) <==> NoneKept(cfg, 1);
    }
  }

  lemma OwnFresh(cfg: Config, b: Compiler, host: Target)
    ensures OwnTakes(cfg, b, host) == {} <==> !Unmade(cfg, RustcMode, b, host)
  {
    assert Unmade(cfg, RustcMode, b, host) ==> CargoBuild(RustcMode, b, host) in OwnTakes(cfg, b, host);
  }

  lemma {:induction false} StdFresh(cfg: Config, c: Compiler, t: Target)
    requires c.host == cfg.build
    ensures StdTakes(cfg, c, t) == {} <==> FreshBuild(cfg, c, t)
    decreases 8 * c.stage + 4
  {
    if Kept(cfg, StdMode, c) {
      assert WriteStamp(StdMode, c, t) in StdTakes(cfg, c, t);
    } else if ForceUseStage1(cfg, c, t) {
      AssembleFresh(cfg, Lifted(cfg));
      StdFresh(cfg, Lifted(cfg), t);
    } else {
      AssembleFresh(cfg, c);
    }
  }

  lemma {:induction false} RustcFresh(cfg: Config, c: Compiler, t: Target)
    requires c.host == cfg.build
    ensures RustcTakes(cfg, c, t) == {} <==> FreshBuild(cfg, c, t)
    decreases 8 * c.stage + 5
  {
    StdFresh(cfg, c, t);
    if !Kept(cfg, StdMode, c) {
      if ForceUseStage1(cfg, c, t) {
        AssembleFresh(cfg, Lifted(cfg));
        RustcFresh(cfg, Lifted(cfg), t);
      } else {
        AssembleFresh(cfg, c);
        StdFresh(cfg, c, cfg.build);
        assert c.stage >= 2 && NoneKept(cfg, c.stage) ==> NoneKept(cfg, 1) && !Kept(cfg, StdMode, Lifted(cfg));
      }
    }
  }

  /** In an empty build directory, with any stages kept: compilers can be assembled exactly with
      a full bootstrap, or up to stage 2, or stage 3 for a host that is neither listed nor the
      build machine, and never above a kept stage; libraries and backends as `FreshBuild`
      says. */
  lemma FreshExactly(cfg: Config, q: Request, r: Outcome)
    requires BootRun(cfg, q, r) && Ticking(q) && !cfg.downloadRustc
    ensures GetsThrough(cfg, {}, r) <==> forall s :: s in q.roots ==> Fresh(cfg, s)
  {
    GetsThroughExactly(cfg, q, r, {});
    forall s | s in q.roots ensures Takes(cfg, s) <= {} <==> Fresh(cfg, s) {
      match s
      case Assemble(c) => AssembleFresh(cfg, c);
      case Std(c, t, _) => StdFresh(cfg, c, t);
      case Rustc(c, t, _) => RustcFresh(cfg, c, t);
      case CodegenBackend(c, t, _) => RustcFresh(cfg, c, t);
    }
  }

  lemma MadeElsewhere(cfg: Config, u: Event, e: Event)
    requires (u.WriteStamp? || u.CargoBuild?) && Unmade(cfg, u.mode, u.compiler, u.triple)
    requires e.CargoBuild? && !Unmade(cfg, e.mode, e.compiler, e.triple)
    requires cfg.fullBootstrap || e.triple in cfg.hosts || e.triple == cfg.build
    ensures StagePaths.StageOut(u.compiler, u.mode) != StagePaths.StageOut(e.compiler, e.mode)
  {
    StagePaths.OutputsApart(u.compiler, u.mode, e.compiler, e.mode);
  }

  /** Cargo never runs in an output directory from which something is taken, as long as all
      triples are listed or the bootstrap is full: so a directory that `Builder::cargo` clears
      holds nothing that the run takes. */
  lemma TakenOutputsUntouched(cfg: Config, q: Request, r: Outcome, i: nat, root: Step, u: Event)
    requires BootRun(cfg, q, r) && i < |r.Log()| && r.Log()[i].event.CargoBuild?
    requires cfg.fullBootstrap || forall t :: t in q.triples ==> t in cfg.hosts || t == cfg.build
    requires root in q.roots && u in Takes(cfg, root)
    ensures u.WriteStamp? || u.CargoBuild?
    ensures StagePaths.StageOut(u.compiler, u.mode)
         != StagePaths.StageOut(r.Log()[i].event.compiler, r.Log()[i].event.mode)
  {
    var e := r.Log()[i];
    EventOrigin(cfg, q, r, i);
    assert e.step.triple in q.triples;
    TakesUnmade(cfg, root, u);
    MadeElsewhere(cfg, u, e.event);
  }
}
