/** The compiler bootstrap as steps: what `run` of each step in `compile.rs` (and of `Libdir`
    in `builder.rs`) asks for and does, in order, for an arbitrary configuration. */
module StageGraph {
  import opened StepEngine

  type Target = string

  datatype Compiler = Compiler(stage: nat, host: Target)

  datatype Config = Config(
    build: Target,
    hosts: seq<Target>,
    fullBootstrap: bool,
    downloadRustc: bool,
    topStage: nat,
    keepStage: set<nat>,
    keepStageStd: set<nat>,
    backends: seq<string>,
    lldEnabled: bool,
    llvmPrebuilt: set<Target>,
    sanitizers: set<Target>,
    libunwind: set<Target>,
    windowsGnu: set<Target>,
    wasi: set<Target>,
    musl: set<Target>,
    muslWithoutUnwind: set<Target>)

  /** Which cargo output directory; `stage_out` keeps these apart by suffix. */
  datatype Mode = StdMode | RustcMode | CodegenMode(backend: string)

  datatype Tool = Llvm | Lld | LldWrapper | Sanitizers | Libunwind | CrtBeginEnd

  /** `crates` is the interned list of crates; 0 is the default, empty list. */
  datatype Step =
    | Assemble(target: Compiler)
    | Std(compiler: Compiler, triple: Target, crates: nat)
    | Rustc(compiler: Compiler, triple: Target, crates: nat)
    | CodegenBackend(compiler: Compiler, triple: Target, backend: string)
    | StdLink(compiler: Compiler, targetCompiler: Compiler, triple: Target, crates: nat)
    | RustcLink(compiler: Compiler, targetCompiler: Compiler, triple: Target, crates: nat)
    | Sysroot(compiler: Compiler)
    | Libdir(compiler: Compiler, triple: Target)
    | StartupObjects(compiler: Compiler, triple: Target)
    | Native(tool: Tool, triple: Target)

  datatype DirName = Stage0Sysroot | CiRustcSysroot | StageDir(stage: nat)

  datatype Dir = Dir(host: Target, name: DirName)

  /** What is copied into a library directory: the artifacts of a cargo build, by dependency type,
      and the objects that particular targets need. */
  datatype Payload =
    | Libs(mode: Mode)
    | SelfContainedLibs(mode: Mode)
    | HostLibs(mode: Mode)
    | SanitizerLibs
    | UnwindLib
    | MuslObjects
    | CrtObjects
    | SelfContainedUnwind
    | WasiObjects
    | GnuObjects
    | StartupFiles

  datatype Event =
    | WipeSysroot(dir: Dir)
    | WipeLibdir(compiler: Compiler, triple: Target)
    | CopyInto(compiler: Compiler, triple: Target, payload: Payload)
    | ReadLibdir(compiler: Compiler, triple: Target)
    | ReadStamp(mode: Mode, compiler: Compiler, triple: Target)
    | WriteStamp(mode: Mode, compiler: Compiler, triple: Target)
    | CargoBuild(mode: Mode, compiler: Compiler, triple: Target)
    | CopyDylibs(compiler: Compiler)
    | InstallBackend(compiler: Compiler, backend: string)
    | CopyCiRustc(compiler: Compiler)
    | Assembled(compiler: Compiler)
    | Ready(tool: Tool, triple: Target)

  datatype Output = Nothing | Built(compiler: Compiler) | SysrootPath(dir: Dir) | LibdirPath(dir: Dir, triple: Target)

  type Ops = seq<Op<Step, Event>>

  // ------------------------------------------------------------------ choices

  /** `Build::force_use_stage1`. */
  predicate ForceUseStage1(cfg: Config, c: Compiler, t: Target) {
    !cfg.fullBootstrap && c.stage >= 2 && (t in cfg.hosts || t == cfg.build)
  }

  /** `Builder::compiler_for`, without the request it makes. */
  function CompilerFor(cfg: Config, c: Compiler, t: Target): Compiler {
    if ForceUseStage1(cfg, c, t) then Compiler(1, cfg.build) else c
  }

  /** The artifacts of this compiler are taken from an earlier run on request. */
  predicate Kept(cfg: Config, mode: Mode, c: Compiler) {
    c.stage in cfg.keepStage || (mode == StdMode && c.stage in cfg.keepStageStd)
  }

  /** No run makes these artifacts: they are lifted from stage 1, or kept. */
  predicate Unmade(cfg: Config, mode: Mode, c: Compiler, t: Target) {
    ForceUseStage1(cfg, c, t) || Kept(cfg, mode, c)
  }

  /** The closure `sysroot_dir` of step `Sysroot { compiler: c }`. */
  function SysrootDirOf(cfg: Config, c: Compiler, stage: nat): Dir {
    Dir(c.host,
        if stage == 0 then Stage0Sysroot
        else if cfg.downloadRustc && c.stage != cfg.topStage then CiRustcSysroot
        else StageDir(stage))
  }

  function SysrootDir(cfg: Config, c: Compiler): Dir {
    SysrootDirOf(cfg, c, c.stage)
  }

  function BuildCompiler(cfg: Config, stage: nat): Compiler {
    Compiler(stage, cfg.build)
  }

  // ------------------------------------------------------------------ bodies

  function If(cond: bool, ops: Ops): Ops {
    if cond then ops else []
  }

  function LlvmEnabled(cfg: Config): bool { "llvm" in cfg.backends }

  /** Requests for the separately built codegen backends. */
  function BackendCalls(c: Compiler, t: Target, backends: seq<string>): Ops {
    if backends == [] then []
    else BackendCalls(c, t, backends[..|backends| - 1])
         + If(backends[|backends| - 1] != "llvm", [Call(CodegenBackend(c, t, backends[|backends| - 1]))])
  }

  /** The loop of `copy_codegen_backends_to_sysroot`. */
  function BackendCopies(b: Compiler, c: Compiler, backends: seq<string>): Ops {
    if backends == [] then []
    else BackendCopies(b, c, backends[..|backends| - 1]) + BackendCopy(b, c, backends[|backends| - 1])
  }

  function BackendCopy(b: Compiler, c: Compiler, backend: string): Ops {
    If(backend != "llvm", [Emit(ReadStamp(CodegenMode(backend), b, c.host)), Emit(InstallBackend(c, backend))])
  }

  function AssembleBody(cfg: Config, c: Compiler): Ops {
    if c.stage == 0 then If(c.host != cfg.build, [Abort])
    else
      var b := BuildCompiler(cfg, c.stage - 1);
      if cfg.downloadRustc then [Call(Assemble(b)), Call(Sysroot(c))]
      else AssembleLibs(cfg, b, c) + AssembleSysroot(cfg, b, c) + AssembleFinish(cfg, c)
  }

  /** Build everything the new compiler consists of. */
  function AssembleLibs(cfg: Config, b: Compiler, c: Compiler): Ops {
    [Call(Assemble(b)), Call(Rustc(b, c.host, 0))]
    + BackendCalls(b, c.host, cfg.backends)
    + If(cfg.lldEnabled, [Call(Native(Lld, c.host))])
  }

  /** Read the stamp and copy libraries and backends into the new sysroot. */
  function AssembleSysroot(cfg: Config, b: Compiler, c: Compiler): Ops {
    [Emit(ReadStamp(RustcMode, b, c.host)), Call(Sysroot(c))]
    + [Call(Libdir(b, c.host)), Emit(ReadLibdir(b, c.host)), Emit(CopyDylibs(c))]
    + [Call(Libdir(c, c.host))]
    + BackendCopies(b, c, cfg.backends)
  }

  /** Tools, and last the compiler binary itself. */
  function AssembleFinish(cfg: Config, c: Compiler): Ops {
    [Call(Libdir(c, c.host))]
    + If(cfg.lldEnabled, [Call(Native(LldWrapper, c.host))])
    + If(LlvmEnabled(cfg), [Call(Native(Llvm, c.host))])
    + [Call(Sysroot(c)), Emit(Assembled(c))]
  }

  /** `copy_third_party_objects`. */
  function ThirdPartyOps(cfg: Config, c: Compiler, t: Target): Ops {
    If(t in cfg.sanitizers && c.stage != 0,
       [Call(Native(Sanitizers, t)), Call(Libdir(c, t)), Emit(CopyInto(c, t, SanitizerLibs))])
    + If(t in cfg.libunwind,
         [Call(Libdir(c, t)), Call(Native(Libunwind, t)), Emit(CopyInto(c, t, UnwindLib))])
  }

  /** `copy_self_contained_objects`. */
  function SelfContainedOps(cfg: Config, c: Compiler, t: Target): Ops {
    [Call(Libdir(c, t))]
    + (if t in cfg.musl then
         [Emit(CopyInto(c, t, MuslObjects)), Call(Native(CrtBeginEnd, t)), Emit(CopyInto(c, t, CrtObjects))]
         + If(t !in cfg.muslWithoutUnwind, [Call(Native(Libunwind, t)), Emit(CopyInto(c, t, SelfContainedUnwind))])
       else if t in cfg.wasi then [Emit(CopyInto(c, t, WasiObjects))]
       else If(t in cfg.windowsGnu, [Emit(CopyInto(c, t, GnuObjects))]))
  }

  /** What `Builder::cargo` asks for before cargo is run with compiler `c`. */
  function CargoSetup(c: Compiler): Ops {
    [Call(Libdir(c, c.host)), Call(Sysroot(c))]
  }

  function StdBody(cfg: Config, c: Compiler, t: Target, k: nat): Ops {
    if cfg.downloadRustc && c.stage != 0 then []
    else if Kept(cfg, StdMode, c) then [Call(StdLink(c, c, t, k))]
    else
      var u := CompilerFor(cfg, c, t);
      if u != c then
        [Call(StartupObjects(c, t)), Call(Assemble(u)), Call(Std(u, t, 0))]
        + ThirdPartyOps(cfg, c, t) + SelfContainedOps(cfg, c, t)
        + [Call(StdLink(u, c, t, k))]
      else
        [Call(StartupObjects(c, t)), Call(Assemble(c))]
        + ThirdPartyOps(cfg, c, t) + SelfContainedOps(cfg, c, t)
        + CargoSetup(c)
        + [Emit(CargoBuild(StdMode, c, t)), Emit(WriteStamp(StdMode, c, t))]
        + [Call(Assemble(BuildCompiler(cfg, c.stage))), Call(StdLink(BuildCompiler(cfg, c.stage), c, t, k))]
  }

  function RustcBody(cfg: Config, c: Compiler, t: Target, k: nat): Ops {
    if cfg.downloadRustc && c.stage != 0 then [Call(Sysroot(c))]
    else if Kept(cfg, RustcMode, c) then [Call(Std(c, t, 0)), Call(RustcLink(c, c, t, k))]
    else
      var u := CompilerFor(cfg, c, t);
      if u != c then [Call(Std(c, t, 0)), Call(Assemble(u)), Call(Rustc(u, t, 0)), Call(RustcLink(u, c, t, k))]
      else
        [Call(Std(c, t, 0)), Call(Assemble(c))]
        + [Call(Assemble(BuildCompiler(cfg, c.stage))), Call(Std(BuildCompiler(cfg, c.stage), cfg.build, 0))]
        + CargoSetup(c)
        + If(LlvmEnabled(cfg), [Call(Native(Llvm, t))])
        + [Emit(CargoBuild(RustcMode, c, t)), Emit(WriteStamp(RustcMode, c, t))]
        + [Call(Assemble(BuildCompiler(cfg, c.stage))), Call(RustcLink(BuildCompiler(cfg, c.stage), c, t, k))]
  }

  function CodegenBody(cfg: Config, c: Compiler, t: Target, backend: string): Ops {
    if Kept(cfg, CodegenMode(backend), c) then [Call(Rustc(c, t, 0))]
    else
      var u := CompilerFor(cfg, c, t);
      if u != c then [Call(Rustc(c, t, 0)), Call(Assemble(u)), Call(CodegenBackend(u, t, backend))]
      else
        [Call(Rustc(c, t, 0)), Call(Assemble(c))]
        + CargoSetup(c)
        + If(LlvmEnabled(cfg), [Call(Native(Llvm, t))])
        + [Emit(CargoBuild(CodegenMode(backend), c, t)), Emit(WriteStamp(CodegenMode(backend), c, t))]
  }

  /** `StdLink` and `RustcLink`: read the stamp, copy what it lists, by dependency type. */
  function LinkBody(mode: Mode, u: Compiler, c: Compiler, t: Target): Ops {
    [Call(Libdir(c, t)), Call(Libdir(c, u.host)), Emit(ReadStamp(mode, u, t))]
    + [Emit(CopyInto(c, t, Libs(mode))), Emit(CopyInto(c, t, SelfContainedLibs(mode))), Emit(CopyInto(c, u.host, HostLibs(mode)))]
  }

  /** Stale toolchain directories removed when a compiler is downloaded. */
  function WipeOtherStages(cfg: Config, c: Compiler, stages: nat): Ops {
    if stages == 0 then []
    else
      var stage := stages - 1;
      var dir := SysrootDirOf(cfg, c, stage);
      WipeOtherStages(cfg, c, stage) + If(stage != c.stage && dir.name != CiRustcSysroot, [Emit(WipeSysroot(dir))])
  }

  function SysrootBody(cfg: Config, c: Compiler): Ops {
    [Emit(WipeSysroot(SysrootDir(cfg, c)))]
    + (if cfg.downloadRustc && c.stage != 0 then
         If(cfg.build != c.host, [Abort]) + WipeOtherStages(cfg, c, 3) + [Emit(CopyCiRustc(c))]
       else [])
  }

  /** LLVM asks for the build machine's LLVM when it has to be cross-compiled. */
  function NativeBody(cfg: Config, tool: Tool, t: Target): Ops {
    (match tool
     case Llvm => If(t != cfg.build && t !in cfg.llvmPrebuilt, [Call(Native(Llvm, cfg.build))])
     case Lld => [Call(Native(Llvm, t))]
     case Sanitizers => [Call(Native(Llvm, cfg.build))]
     case _ => [])
    + [Emit(Ready(tool, t))]
  }

  function Body(cfg: Config, s: Step): Ops {
    match s
    case Assemble(c) => AssembleBody(cfg, c)
    case Std(c, t, k) => StdBody(cfg, c, t, k)
    case Rustc(c, t, k) => RustcBody(cfg, c, t, k)
    case CodegenBackend(c, t, backend) => CodegenBody(cfg, c, t, backend)
    case StdLink(u, c, t, _) => LinkBody(StdMode, u, c, t)
    case RustcLink(u, c, t, _) => LinkBody(RustcMode, u, c, t)
    case Sysroot(c) => SysrootBody(cfg, c)
    case Libdir(c, t) => [Call(Sysroot(c))] + If(!cfg.downloadRustc, [Emit(WipeLibdir(c, t))])
    case StartupObjects(c, t) => If(t in cfg.windowsGnu, [Call(Libdir(c, t)), Emit(CopyInto(c, t, StartupFiles))])
    case Native(tool, t) => NativeBody(cfg, tool, t)
  }

  function OutputOf(cfg: Config, s: Step): Output {
    match s
    case Assemble(c) => Built(c)
    case Sysroot(c) => SysrootPath(SysrootDir(cfg, c))
    case Libdir(c, t) => LibdirPath(SysrootDir(cfg, c), t)
    case _ => Nothing
  }

  function StageGraphOf(cfg: Config, universe: set<Step>, clock: nat -> nat): Graph<Step, Event, Output> {
    Graph(universe, s => Body(cfg, s), (s, _) => OutputOf(cfg, s), clock)
  }

  // ------------------------------------------------------------------ universes

  function Compilers(n: nat, hosts: set<Target>): set<Compiler> {
    set i, h | 0 <= i <= n && h in hosts :: Compiler(i, h)
  }

  ghost predicate Known(n: nat, ts: set<Target>, c: Compiler) {
    c.stage <= n && c.host in ts
  }

  /** All steps of stage at most `n` over the triples `ts` and crate lists `ks`. */
  ghost predicate Within(cfg: Config, n: nat, ts: set<Target>, ks: set<nat>, s: Step) {
    match s
    case Assemble(c) => Known(n, ts, c)
    case Std(c, t, k) => Known(n, ts, c) && t in ts && k in ks
    case Rustc(c, t, k) => Known(n, ts, c) && t in ts && k in ks
    case CodegenBackend(c, t, b) => Known(n, ts, c) && t in ts && b in cfg.backends
    case StdLink(u, c, t, k) => Known(n, ts, u) && Known(n, ts, c) && t in ts && k in ks
    case RustcLink(u, c, t, k) => Known(n, ts, u) && Known(n, ts, c) && t in ts && k in ks
    case Sysroot(c) => Known(n, ts, c)
    case Libdir(c, t) => Known(n, ts, c) && t in ts
    case StartupObjects(c, t) => Known(n, ts, c) && t in ts
    case Native(_, t) => t in ts
  }

  function BuildSteps(cfg: Config, cs: set<Compiler>, ts: set<Target>, ks: set<nat>): set<Step> {
    (set c | c in cs :: Assemble(c))
    + (set c, t, k | c in cs && t in ts && k in ks :: Std(c, t, k))
    + (set c, t, k | c in cs && t in ts && k in ks :: Rustc(c, t, k))
    + (set c, t, b | c in cs && t in ts && b in cfg.backends :: CodegenBackend(c, t, b))
  }

  function LinkSteps(cs: set<Compiler>, ts: set<Target>, ks: set<nat>): set<Step> {
    (set u, c, t, k | u in cs && c in cs && t in ts && k in ks :: StdLink(u, c, t, k))
    + (set u, c, t, k | u in cs && c in cs && t in ts && k in ks :: RustcLink(u, c, t, k))
  }

  function DirSteps(cs: set<Compiler>, ts: set<Target>): set<Step> {
    (set c | c in cs :: Sysroot(c))
    + (set c, t | c in cs && t in ts :: Libdir(c, t))
    + (set c, t | c in cs && t in ts :: StartupObjects(c, t))
    + (set tool: Tool, t | t in ts :: Native(tool, t))
  }

  function AllSteps(cfg: Config, n: nat, ts: set<Target>, ks: set<nat>): set<Step> {
    var cs := Compilers(n, ts);
    BuildSteps(cfg, cs, ts, ks) + LinkSteps(cs, ts, ks) + DirSteps(cs, ts)
  }

  lemma AllStepsAreWithin(cfg: Config, n: nat, ts: set<Target>, ks: set<nat>, s: Step)
    ensures s in AllSteps(cfg, n, ts, ks) <==> Within(cfg, n, ts, ks, s)
  {
    var cs := Compilers(n, ts);
    assert forall c :: c in cs <==> Known(n, ts, c);
    assert s in BuildSteps(cfg, cs, ts, ks) <==>
           (s.Assemble? || s.Std? || s.Rustc? || s.CodegenBackend?) && Within(cfg, n, ts, ks, s);
    assert s in LinkSteps(cs, ts, ks) <==> (s.StdLink? || s.RustcLink?) && Within(cfg, n, ts, ks, s);
    assert s in DirSteps(cs, ts) <==>
           (s.Sysroot? || s.Libdir? || s.StartupObjects? || s.Native?) && Within(cfg, n, ts, ks, s);
  }

  /** Steps as they arise from `Assemble`: everything is built by compilers that run on the
      build machine, and the stage-0 compiler exists only there. */
  predicate BuiltHere(cfg: Config, s: Step) {
    match s
    case Assemble(c) => c.stage == 0 ==> c.host == cfg.build
    case Std(c, _, _) => c.host == cfg.build
    case Rustc(c, _, _) => c.host == cfg.build
    case CodegenBackend(c, _, _) => c.host == cfg.build
    case StdLink(u, c, t, _) => u.host == cfg.build && c.host == cfg.build && OwnArtifacts(cfg, StdMode, u, t)
    case RustcLink(u, c, t, _) => u.host == cfg.build && c.host == cfg.build && OwnArtifacts(cfg, RustcMode, u, t)
    case _ => true
  }

  /** Links are only made from compilers whose artifacts are their own, or kept. */
  predicate OwnArtifacts(cfg: Config, mode: Mode, u: Compiler, t: Target) {
    ForceUseStage1(cfg, u, t) ==> Kept(cfg, mode, u)
  }

  /** The steps from which no host assertion is in reach: with a downloaded compiler nothing
      may be built for a compiler on another machine. */
  predicate Buildable(cfg: Config, s: Step) {
    && BuiltHere(cfg, s)
    && (cfg.downloadRustc ==>
          match s
          case Assemble(c) => c.host == cfg.build
          case StdLink(_, c, _, _) => c.host == cfg.build
          case RustcLink(_, c, _, _) => c.host == cfg.build
          case Sysroot(c) => c.host == cfg.build
          case Libdir(c, _) => c.host == cfg.build
          case StartupObjects(c, _) => c.host == cfg.build
          case _ => true)
  }

  /** The steps at hand when compilers, standard libraries and backends are asked for. */
  function BootSteps(cfg: Config, n: nat, ts: set<Target>, ks: set<nat>): set<Step> {
    set s | s in AllSteps(cfg, n, ts, ks) && BuiltHere(cfg, s)
  }
}
