/** Directories are wiped before anything is copied into them: the part of the happens-before
    contract that does not depend on what is built, so that it also holds when stages are
    kept. */
module StageWipes {
  import opened StepEngine
  import opened StepOrder
  import opened StageGraph
  import opened StageProofs
  import opened StageOrder

  // ------------------------------------------------------------------ the contract

  ghost function WipeGive(cfg: Config, s: Step): set<Event> {
    match s
    case Sysroot(c) => {WipeSysroot(SysrootDir(cfg, c))}
    case Libdir(c, t) => Wiped(cfg, c, t)
    case _ => {}
  }

  /** The deletions that would undo a copy: of the directory copied into, or of the sysroot
      around it. */
  ghost function Undoes(cfg: Config, e: Event): set<Event> {
    match e
    case CopyInto(c, t, _) => Wiped(cfg, c, t)
    case CopyDylibs(c) => {WipeSysroot(SysrootDir(cfg, c))}
    case InstallBackend(c, _) => {WipeSysroot(SysrootDir(cfg, c))}
    case Assembled(c) => {WipeSysroot(SysrootDir(cfg, c))}
    case _ => {}
  }

  ghost function WipeBefore(cfg: Config, e: Event): set<Event> {
    match e
    case WipeLibdir(c, _) => {WipeSysroot(SysrootDir(cfg, c))}
    case _ => Undoes(cfg, e)
  }

  ghost function WipeContract(cfg: Config): K {
    Contract(s => {}, s => WipeGive(cfg, s), e => WipeBefore(cfg, e))
  }

  lemma WipesAreFirst(cfg: Config)
    ensures WipesFirst(cfg, WipeContract(cfg))
  {
  }

  // ------------------------------------------------------------------ pieces

  /** Operations that neither copy nor wipe. */
  lemma {:induction false} QuietPiece(cfg: Config, k0: set<Event>, ops: Ops)
    requires forall op :: op in ops && op.Emit? ==> WipeBefore(cfg, op.event) == {}
    ensures Reaches(WipeContract(cfg), k0, ops, k0)
    decreases |ops|
  {
    var k := WipeContract(cfg);
    if ops == [] {
      Reach0(k, k0);
    } else {
      var front, last := ops[..|ops| - 1], ops[|ops| - 1];
      QuietPiece(cfg, k0, front);
      Reach1(k, k0, last);
      ReachSeq(k, k0, front, k0, [last], k0);
      assert ops == front + [last];
    }
  }

  lemma ObjectsWipes(cfg: Config, c: Compiler, t: Target)
    ensures Reaches(WipeContract(cfg), {}, ThirdPartyOps(cfg, c, t) + SelfContainedOps(cfg, c, t), {})
  {
    WipesAreFirst(cfg);
    ObjectsPiece(cfg, WipeContract(cfg), {}, c, t);
  }

  /** Requests, the objects of `Std`, and more that does not copy. */
  lemma AroundObjects(cfg: Config, c: Compiler, t: Target, a: Ops, z: Ops)
    requires forall op :: op in a && op.Emit? ==> WipeBefore(cfg, op.event) == {}
    requires forall op :: op in z && op.Emit? ==> WipeBefore(cfg, op.event) == {}
    ensures Checked(WipeContract(cfg), {}, a + (ThirdPartyOps(cfg, c, t) + SelfContainedOps(cfg, c, t)) + z)
  {
    QuietPiece(cfg, {}, a);
    ObjectsWipes(cfg, c, t);
    QuietPiece(cfg, {}, z);
    ReachSeq3(WipeContract(cfg), {}, a, {}, ThirdPartyOps(cfg, c, t) + SelfContainedOps(cfg, c, t), {}, z, {});
  }

  lemma StdLiftedWipes(cfg: Config, c: Compiler, t: Target, n: nat, u: Compiler)
    requires u == CompilerFor(cfg, c, t) != c
    requires !(cfg.downloadRustc && c.stage != 0) && !Kept(cfg, StdMode, c)
    ensures Checked(WipeContract(cfg), {}, StdBody(cfg, c, t, n))
  {
    var a := [Call(StartupObjects(c, t)), Call(Assemble(u)), Call(Std(u, t, 0))];
    var z := [Call(StdLink(u, c, t, n))];
    AroundObjects(cfg, c, t, a, z);
    assert StdBody(cfg, c, t, n) == a + (ThirdPartyOps(cfg, c, t) + SelfContainedOps(cfg, c, t)) + z;
  }

  lemma StdBuiltWipes(cfg: Config, c: Compiler, t: Target, n: nat, b: Compiler)
    requires CompilerFor(cfg, c, t) == c && b == BuildCompiler(cfg, c.stage)
    requires !(cfg.downloadRustc && c.stage != 0) && !Kept(cfg, StdMode, c)
    ensures Checked(WipeContract(cfg), {}, StdBody(cfg, c, t, n))
  {
    var a := [Call(StartupObjects(c, t)), Call(Assemble(c))];
    var z := CargoSetup(c) + CargoOps(StdMode, c, t) + [Call(Assemble(b)), Call(StdLink(b, c, t, n))];
    AroundObjects(cfg, c, t, a, z);
    BuiltBodyGrouped(cfg, c, t, n, b, a, z);
  }

  lemma BuiltBodyGrouped(cfg: Config, c: Compiler, t: Target, n: nat, b: Compiler, a: Ops, z: Ops)
    requires CompilerFor(cfg, c, t) == c && b == BuildCompiler(cfg, c.stage)
    requires !(cfg.downloadRustc && c.stage != 0) && !Kept(cfg, StdMode, c)
    requires a == [Call(StartupObjects(c, t)), Call(Assemble(c))]
    requires z == CargoSetup(c) + CargoOps(StdMode, c, t) + [Call(Assemble(b)), Call(StdLink(b, c, t, n))]
    ensures StdBody(cfg, c, t, n) == a + (ThirdPartyOps(cfg, c, t) + SelfContainedOps(cfg, c, t)) + z
  {
  }

  lemma StdWipes(cfg: Config, c: Compiler, t: Target, n: nat)
    ensures Checked(WipeContract(cfg), {}, StdBody(cfg, c, t, n))
  {
    if (cfg.downloadRustc && c.stage != 0) || Kept(cfg, StdMode, c) {
      QuietPiece(cfg, {}, StdBody(cfg, c, t, n));
    } else if CompilerFor(cfg, c, t) != c {
      StdLiftedWipes(cfg, c, t, n, CompilerFor(cfg, c, t));
    } else {
      StdBuiltWipes(cfg, c, t, n, BuildCompiler(cfg, c.stage));
    }
  }

  /** Nothing is copied by `Rustc` and `CodegenBackend` themselves. */
  lemma BuildsQuiet(cfg: Config, s: Step, op: Op<Step, Event>)
    requires (s.Rustc? || s.CodegenBackend?) && op in Body(cfg, s) && op.Emit?
    ensures WipeBefore(cfg, op.event) == {}
  {
  }

  lemma LinkWipes(cfg: Config, mode: Mode, u: Compiler, c: Compiler, t: Target)
    ensures Checked(WipeContract(cfg), {}, LinkBody(mode, u, c, t))
  {
    var k := WipeContract(cfg);
    var a := [Call(Libdir(c, t)), Call(Libdir(c, u.host)), Emit(ReadStamp(mode, u, t))];
    var b := [Emit(CopyInto(c, t, Libs(mode))), Emit(CopyInto(c, t, SelfContainedLibs(mode))), Emit(CopyInto(c, u.host, HostLibs(mode)))];
    var k1 := {} + Gain(k, a[0]) + Gain(k, a[1]) + Gain(k, a[2]);
    Reach3(k, {}, a[0], a[1], a[2]);
    Reach3(k, k1, b[0], b[1], b[2]);
    ReachSeq(k, {}, a, k1, b, k1);
  }

  lemma {:induction false} CopiesPiece(cfg: Config, k0: set<Event>, b: Compiler, c: Compiler, backends: seq<string>)
    requires WipeSysroot(SysrootDir(cfg, c)) in k0
    ensures Reaches(WipeContract(cfg), k0, BackendCopies(b, c, backends), k0)
    decreases |backends|
  {
    var k := WipeContract(cfg);
    if backends == [] {
      Reach0(k, k0);
    } else {
      var front, x := backends[..|backends| - 1], backends[|backends| - 1];
      CopiesPiece(cfg, k0, b, c, front);
      var copy := [Emit(ReadStamp(CodegenMode(x), b, c.host)), Emit(InstallBackend(c, x))];
      Reach2(k, k0, copy[0], copy[1]);
      ReachIf(k, k0, x != "llvm", copy);
      ReachSeq(k, k0, BackendCopies(b, c, front), k0, BackendCopy(b, c, x), k0);
    }
  }

  lemma AssembleWipes(cfg: Config, c: Compiler)
    ensures Checked(WipeContract(cfg), {}, AssembleBody(cfg, c))
  {
    if c.stage == 0 || cfg.downloadRustc {
      QuietPiece(cfg, {}, AssembleBody(cfg, c));
    } else {
      var k := WipeContract(cfg);
      var b := BuildCompiler(cfg, c.stage - 1);
      var k1 := {WipeSysroot(SysrootDir(cfg, c))};
      LibsPiece(cfg, b, c);
      SysrootPiece(cfg, b, c);
      FinishPiece(cfg, c);
      ReachSeq3(k, {}, AssembleLibs(cfg, b, c), {}, AssembleSysroot(cfg, b, c), k1, AssembleFinish(cfg, c), {});
    }
  }

  lemma LibsPiece(cfg: Config, b: Compiler, c: Compiler)
    ensures Reaches(WipeContract(cfg), {}, AssembleLibs(cfg, b, c), {})
  {
    forall op | op in AssembleLibs(cfg, b, c) ensures op.Call? {
      if op in BackendCalls(b, c.host, cfg.backends) { BackendCallsOnly(b, c.host, cfg.backends, op); }
    }
    QuietPiece(cfg, {}, AssembleLibs(cfg, b, c));
  }

  lemma SysrootPiece(cfg: Config, b: Compiler, c: Compiler)
    ensures Reaches(WipeContract(cfg), {}, AssembleSysroot(cfg, b, c), {WipeSysroot(SysrootDir(cfg, c))})
  {
    var k := WipeContract(cfg);
    var k1 := {WipeSysroot(SysrootDir(cfg, c))};
    var a := [Emit(ReadStamp(RustcMode, b, c.host)), Call(Sysroot(c))];
    var d := [Call(Libdir(b, c.host)), Emit(ReadLibdir(b, c.host)), Emit(CopyDylibs(c))];
    var l := [Call(Libdir(c, c.host))];
    Reach2(k, {}, a[0], a[1]);
    ReachLess(k, {}, a, {} + Gain(k, a[0]) + Gain(k, a[1]), k1);
    Reach3(k, k1, d[0], d[1], d[2]);
    ReachLess(k, k1, d, k1 + Gain(k, d[0]) + Gain(k, d[1]) + Gain(k, d[2]), k1);
    Reach1(k, k1, l[0]);
    CopiesPiece(cfg, k1, b, c, cfg.backends);
    ReachSeq(k, {}, a, k1, d, k1);
    ReachSeq3(k, {}, a + d, k1, l, k1, BackendCopies(b, c, cfg.backends), k1);
  }

  lemma FinishPiece(cfg: Config, c: Compiler)
    ensures Reaches(WipeContract(cfg), {WipeSysroot(SysrootDir(cfg, c))}, AssembleFinish(cfg, c), {})
  {
    var k := WipeContract(cfg);
    var k1 := {WipeSysroot(SysrootDir(cfg, c))};
    var calls := [Call(Libdir(c, c.host))] + If(cfg.lldEnabled, [Call(Native(LldWrapper, c.host))])
               + If(LlvmEnabled(cfg), [Call(Native(Llvm, c.host))]);
    var z := [Call(Sysroot(c)), Emit(Assembled(c))];
    QuietPiece(cfg, k1, calls);
    Reach2(k, k1, z[0], z[1]);
    ReachSeq(k, k1, calls, k1, z, {});
  }

  lemma ToolWipes(cfg: Config, tool: Tool, t: Target)
    ensures Checked(WipeContract(cfg), {}, NativeBody(cfg, tool, t))
  {
    forall op | op in NativeBody(cfg, tool, t) && op.Emit? ensures op.event == Ready(tool, t) { }
    QuietPiece(cfg, {}, NativeBody(cfg, tool, t));
  }

  lemma StartupWipes(cfg: Config, c: Compiler, t: Target)
    ensures Checked(WipeContract(cfg), {}, Body(cfg, StartupObjects(c, t)))
  {
    var k := WipeContract(cfg);
    var ops := [Call(Libdir(c, t)), Emit(CopyInto(c, t, StartupFiles))];
    Reach2(k, {}, ops[0], ops[1]);
    ReachIf(k, {}, t in cfg.windowsGnu, ops);
  }

  lemma LeafWipes(cfg: Config, s: Step)
    requires !cfg.downloadRustc && (s.Sysroot? || s.Libdir? || s.StartupObjects? || s.Native?)
    ensures Checked(WipeContract(cfg), {}, Body(cfg, s)) && WipeGive(cfg, s) <= After(WipeContract(cfg), {}, Body(cfg, s))
  {
    var k := WipeContract(cfg);
    match s
    case Sysroot(c) =>
      Reach1(k, {}, Emit(WipeSysroot(SysrootDir(cfg, c))));
      assert Body(cfg, s) == [Emit(WipeSysroot(SysrootDir(cfg, c)))];
    case Libdir(c, t) =>
      Reach2(k, {}, Call(Sysroot(c)), Emit(WipeLibdir(c, t)));
      assert Body(cfg, s) == [Call(Sysroot(c)), Emit(WipeLibdir(c, t))];
    case StartupObjects(c, t) => StartupWipes(cfg, c, t);
    case Native(tool, t) => ToolWipes(cfg, tool, t);
  }

  /** Every step body respects it, also with kept stages. */
  lemma WipesRespect(cfg: Config, g: Graph<Step, Event, Output>)
    requires !cfg.downloadRustc && g == StageGraphOf(cfg, g.universe, g.clock)
    ensures Respects(g, WipeContract(cfg))
  {
    var k := WipeContract(cfg);
    forall s | s in g.universe ensures Keeps(g, k, s) {
      match s
      case Assemble(c) => AssembleWipes(cfg, c);
      case Std(c, t, n) => StdWipes(cfg, c, t, n);
      case StdLink(u, c, t, _) => LinkWipes(cfg, StdMode, u, c, t);
      case RustcLink(u, c, t, _) => LinkWipes(cfg, RustcMode, u, c, t);
      case Rustc(_, _, _) =>
        forall op | op in Body(cfg, s) && op.Emit? ensures WipeBefore(cfg, op.event) == {} { BuildsQuiet(cfg, s, op); }
        QuietPiece(cfg, {}, Body(cfg, s));
      case CodegenBackend(_, _, _) =>
        forall op | op in Body(cfg, s) && op.Emit? ensures WipeBefore(cfg, op.event) == {} { BuildsQuiet(cfg, s, op); }
        QuietPiece(cfg, {}, Body(cfg, s));
      case _ => LeafWipes(cfg, s);
    }
  }
}
