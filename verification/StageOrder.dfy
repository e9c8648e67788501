/** What happens before what while compilers are assembled: stamps are written before they are
    read, directories are wiped before they are filled, a compiler is complete before it is
    used.  The contract below is checked against every step body; `StepOrder.HappensBefore`
    turns it into facts about all runs. */
module StageOrder {
  import opened StepEngine
  import opened StepOrder
  import opened StageGraph
  import opened StageProofs

  type K = Contract<Step, Event>

  // ------------------------------------------------------------------ the contract

  ghost function Complete(c: Compiler): set<Event> {
    if c.stage > 0 then {Assembled(c)} else {}
  }

  /** A stamp that some step of the run writes. */
  ghost function Stamp(cfg: Config, mode: Mode, c: Compiler, t: Target): set<Event> {
    if Unmade(cfg, mode, c, t) then {} else {WriteStamp(mode, c, t)}
  }

  /** A link step relies on its caller for the stamp it reads, unless that is from an earlier
      run. */
  ghost function Need(cfg: Config, s: Step): set<Event> {
    match s
    case StdLink(u, _, t, _) => Stamp(cfg, StdMode, u, t)
    case RustcLink(u, _, t, _) => Stamp(cfg, RustcMode, u, t)
    case _ => {}
  }

  /** The artifacts of a cargo build that is really run for compiler `c`. */
  ghost function Artifacts(cfg: Config, mode: Mode, c: Compiler, t: Target): set<Event> {
    if Unmade(cfg, mode, c, t) then {} else {CargoBuild(mode, c, t), WriteStamp(mode, c, t)}
  }

  /** The artifacts of a build in the sysroot of `c`: those for the target, and those that run on
      the machine that made them. */
  ghost function Linked(mode: Mode, c: Compiler, t: Target, host: Target): set<Event> {
    {CopyInto(c, t, Libs(mode)), CopyInto(c, t, SelfContainedLibs(mode)), CopyInto(c, host, HostLibs(mode))}
  }

  ghost function Some1(cond: bool, e: Event): set<Event> {
    if cond then {e} else {}
  }

  /** The objects a target needs beside its standard library. */
  ghost function ThirdParty(cfg: Config, c: Compiler, t: Target): set<Event> {
    Some1(t in cfg.sanitizers && c.stage != 0, CopyInto(c, t, SanitizerLibs))
    + Some1(t in cfg.libunwind, CopyInto(c, t, UnwindLib))
  }

  ghost function SelfContained(cfg: Config, c: Compiler, t: Target): set<Event> {
    if t in cfg.musl then
      {CopyInto(c, t, MuslObjects), CopyInto(c, t, CrtObjects)}
      + Some1(t !in cfg.muslWithoutUnwind, CopyInto(c, t, SelfContainedUnwind))
    else if t in cfg.wasi then {CopyInto(c, t, WasiObjects)}
    else Some1(t in cfg.windowsGnu, CopyInto(c, t, GnuObjects))
  }

  ghost function Startup(cfg: Config, c: Compiler, t: Target): set<Event> {
    Some1(t in cfg.windowsGnu, CopyInto(c, t, StartupFiles))
  }

  ghost function Objects(cfg: Config, c: Compiler, t: Target): set<Event> {
    Startup(cfg, c, t) + ThirdParty(cfg, c, t) + SelfContained(cfg, c, t)
  }

  ghost function StdGives(cfg: Config, c: Compiler, t: Target): set<Event> {
    Artifacts(cfg, StdMode, c, t) + Linked(StdMode, c, t, cfg.build)
    + (if Kept(cfg, StdMode, c) then {} else Objects(cfg, c, t) + Complete(CompilerFor(cfg, c, t)))
  }

  ghost function RustcGives(cfg: Config, c: Compiler, t: Target): set<Event> {
    StdGives(cfg, c, t) + Artifacts(cfg, RustcMode, c, t) + Linked(RustcMode, c, t, cfg.build)
    + (if Kept(cfg, RustcMode, c) then {} else Complete(CompilerFor(cfg, c, t)))
  }

  /** A lifted backend is the one built with the compiler it is lifted from. */
  ghost function CodegenGives(cfg: Config, c: Compiler, t: Target, mode: Mode): set<Event> {
    RustcGives(cfg, c, t) + Artifacts(cfg, mode, c, t)
    + (if Kept(cfg, mode, c) then {} else Artifacts(cfg, mode, CompilerFor(cfg, c, t), t) + Complete(CompilerFor(cfg, c, t)))
  }

  ghost function Give(cfg: Config, s: Step): set<Event> {
    match s
    case Assemble(c) => Complete(c)
    case Std(c, t, _) => StdGives(cfg, c, t)
    case Rustc(c, t, _) => RustcGives(cfg, c, t)
    case CodegenBackend(c, t, b) => CodegenGives(cfg, c, t, CodegenMode(b))
    case StdLink(u, c, t, _) => Linked(StdMode, c, t, u.host)
    case RustcLink(u, c, t, _) => Linked(RustcMode, c, t, u.host)
    case Sysroot(c) => {WipeSysroot(SysrootDir(cfg, c))}
    case Libdir(c, t) => Wiped(cfg, c, t)
    case StartupObjects(c, t) => Startup(cfg, c, t)
    case Native(tool, t) => {Ready(tool, t)}
  }

  ghost function Wiped(cfg: Config, c: Compiler, t: Target): set<Event> {
    {WipeLibdir(c, t), WipeSysroot(SysrootDir(cfg, c))}
  }

  /** The separately built codegen backends of a compiler. */
  ghost function Installs(c: Compiler, backends: seq<string>): set<Event> {
    set x | x in backends && x != "llvm" :: InstallBackend(c, x)
  }

  /** The tool that makes what is copied. */
  ghost function Maker(t: Target, p: Payload): set<Event> {
    match p
    case SanitizerLibs => {Ready(Sanitizers, t)}
    case UnwindLib => {Ready(Libunwind, t)}
    case SelfContainedUnwind => {Ready(Libunwind, t)}
    case CrtObjects => {Ready(CrtBeginEnd, t)}
    case _ => {}
  }

  ghost function Llvms(cfg: Config, t: Target): set<Event> {
    Some1("llvm" in cfg.backends, Ready(Llvm, t))
  }

  ghost function ToolBefore(cfg: Config, tool: Tool, t: Target): set<Event> {
    match tool
    case Llvm => Some1(t != cfg.build && t !in cfg.llvmPrebuilt, Ready(Llvm, cfg.build))
    case Lld => {Ready(Llvm, t)}
    case Sanitizers => {Ready(Llvm, cfg.build)}
    case _ => {}
  }

  /** What must be in place before cargo is run. */
  ghost function CargoBefore(cfg: Config, mode: Mode, c: Compiler, t: Target): set<Event> {
    Complete(c) + Wiped(cfg, c, c.host)
    + match mode
      case StdMode => Objects(cfg, c, t)
      case RustcMode => Linked(StdMode, c, t, cfg.build) + Linked(StdMode, c, cfg.build, cfg.build) + Llvms(cfg, t)
      case CodegenMode(_) => Linked(StdMode, c, t, cfg.build) + Linked(RustcMode, c, t, cfg.build) + Llvms(cfg, t)
  }

  /** What must have happened before an effect is performed. */
  ghost function Before(cfg: Config, e: Event): set<Event> {
    match e
    case WipeLibdir(c, _) => {WipeSysroot(SysrootDir(cfg, c))}
    case CopyInto(c, t, p) => Wiped(cfg, c, t) + Maker(t, p)
    case ReadStamp(mode, c, t) => Stamp(cfg, mode, c, t)
    case WriteStamp(mode, c, t) => {CargoBuild(mode, c, t)}
    case CargoBuild(mode, c, t) => CargoBefore(cfg, mode, c, t)
    case ReadLibdir(c, t) => Linked(StdMode, c, t, cfg.build) + Linked(RustcMode, c, t, cfg.build)
    case CopyDylibs(c) =>
      {WipeSysroot(SysrootDir(cfg, c))}
      + (if c.stage == 0 then {}
         else {ReadStamp(RustcMode, BuildCompiler(cfg, c.stage - 1), c.host),
               ReadLibdir(BuildCompiler(cfg, c.stage - 1), c.host)})
    case InstallBackend(c, b) =>
      Wiped(cfg, c, c.host)
      + (if c.stage == 0 then {} else {ReadStamp(CodegenMode(b), BuildCompiler(cfg, c.stage - 1), c.host)})
    case Assembled(c) => AssembledBefore(cfg, c)
    case Ready(tool, t) => ToolBefore(cfg, tool, t)
    case _ => {}
  }

  ghost function AssembledBefore(cfg: Config, c: Compiler): set<Event> {
    {CopyDylibs(c)} + Wiped(cfg, c, c.host) + Installs(c, cfg.backends) + Llvms(cfg, c.host)
    + Some1(cfg.lldEnabled, Ready(Lld, c.host)) + Some1(cfg.lldEnabled, Ready(LldWrapper, c.host))
    + (if c.stage == 0 then {} else Artifacts(cfg, RustcMode, BuildCompiler(cfg, c.stage - 1), c.host))
  }

  ghost function StageContract(cfg: Config): K {
    Contract(s => Need(cfg, s), s => Give(cfg, s), e => Before(cfg, e))
  }

  // ------------------------------------------------------------------ checking in pieces

  /** `ops` is in order when `known` has happened, and then `out` has happened. */
  ghost predicate Reaches(k: K, known: set<Event>, ops: Ops, out: set<Event>) {
    Checked(k, known, ops) && out <= After(k, known, ops)
  }

  lemma ReachSeq(k: K, k0: set<Event>, a: Ops, k1: set<Event>, b: Ops, k2: set<Event>)
    requires Reaches(k, k0, a, k1) && Reaches(k, k1, b, k2)
    ensures Reaches(k, k0, a + b, k2)
  {
    CheckedMore(k, k1, After(k, k0, a), b);
    CheckedConcat(k, k0, a, b);
  }

  lemma ReachSeq3(k: K, k0: set<Event>, a: Ops, k1: set<Event>, b: Ops, k2: set<Event>, c: Ops, k3: set<Event>)
    requires Reaches(k, k0, a, k1) && Reaches(k, k1, b, k2) && Reaches(k, k2, c, k3)
    ensures Reaches(k, k0, a + b + c, k3)
  {
    ReachSeq(k, k0, a, k1, b, k2);
    ReachSeq(k, k0, a + b, k2, c, k3);
  }

  lemma Reach0(k: K, k0: set<Event>)
    ensures Reaches(k, k0, [], k0)
  {
  }

  lemma Reach1(k: K, k0: set<Event>, op: Op<Step, Event>)
    requires Demand(k, op) <= k0
    ensures Reaches(k, k0, [op], k0 + Gain(k, op))
  {
    assert [op][..0] == [];
  }

  lemma Reach2(k: K, k0: set<Event>, a: Op<Step, Event>, b: Op<Step, Event>)
    requires Demand(k, a) <= k0 && Demand(k, b) <= k0 + Gain(k, a)
    ensures Reaches(k, k0, [a, b], k0 + Gain(k, a) + Gain(k, b))
  {
    Reach1(k, k0, a);
    Reach1(k, k0 + Gain(k, a), b);
    ReachSeq(k, k0, [a], k0 + Gain(k, a), [b], k0 + Gain(k, a) + Gain(k, b));
    assert [a] + [b] == [a, b];
  }

  lemma Reach3(k: K, k0: set<Event>, a: Op<Step, Event>, b: Op<Step, Event>, c: Op<Step, Event>)
    requires Demand(k, a) <= k0 && Demand(k, b) <= k0 + Gain(k, a)
    requires Demand(k, c) <= k0 + Gain(k, a) + Gain(k, b)
    ensures Reaches(k, k0, [a, b, c], k0 + Gain(k, a) + Gain(k, b) + Gain(k, c))
  {
    var k2 := k0 + Gain(k, a) + Gain(k, b);
    Reach2(k, k0, a, b);
    Reach1(k, k2, c);
    ReachSeq(k, k0, [a, b], k2, [c], k2 + Gain(k, c));
    assert [a, b] + [c] == [a, b, c];
  }

  lemma ReachLess(k: K, k0: set<Event>, ops: Ops, k1: set<Event>, k2: set<Event>)
    requires Reaches(k, k0, ops, k1) && k2 <= k1
    ensures Reaches(k, k0, ops, k2)
  {
  }

  lemma ReachIf(k: K, k0: set<Event>, cond: bool, ops: Ops)
    requires cond ==> Checked(k, k0, ops)
    ensures Reaches(k, k0, If(cond, ops), k0)
  {
    if cond { CheckedMore(k, k0, k0, ops); }
  }

  // ------------------------------------------------------------------ the pieces

  /** A contract by which directories are asked for freely, are wiped when they are handed out,
      and must have been wiped before they are filled. */
  ghost predicate WipesFirst(cfg: Config, k: K) {
    && (forall c, t :: k.need(Libdir(c, t)) == {} && Wiped(cfg, c, t) <= k.give(Libdir(c, t)))
    && (forall c :: k.need(Sysroot(c)) == {} && WipeSysroot(SysrootDir(cfg, c)) in k.give(Sysroot(c)))
    && (forall tool, t :: k.need(Native(tool, t)) == {})
    && (forall c, t, p :: k.before(CopyInto(c, t, p)) <= Wiped(cfg, c, t) + Made(k, t, p))
  }

  /** What asking for its maker gives for a payload. */
  ghost function Made(k: K, t: Target, p: Payload): set<Event> {
    match p
    case SanitizerLibs => k.give(Native(Sanitizers, t))
    case UnwindLib => k.give(Native(Libunwind, t))
    case SelfContainedUnwind => k.give(Native(Libunwind, t))
    case CrtObjects => k.give(Native(CrtBeginEnd, t))
    case _ => {}
  }

  /** Operations that are performed on a condition, and what they add. */
  lemma ReachIfGain(k: K, k0: set<Event>, cond: bool, ops: Ops, e: Event)
    requires cond ==> Reaches(k, k0, ops, k0 + {e})
    ensures Reaches(k, k0, If(cond, ops), k0 + Some1(cond, e))
  {
    if !cond { Reach0(k, k0); }
  }

  lemma ThirdPartyPiece(cfg: Config, k: K, k0: set<Event>, c: Compiler, t: Target)
    requires WipesFirst(cfg, k)
    ensures Reaches(k, k0, ThirdPartyOps(cfg, c, t), k0 + ThirdParty(cfg, c, t))
  {
    var x, y := t in cfg.sanitizers && c.stage != 0, t in cfg.libunwind;
    var a := [Call(Native(Sanitizers, t)), Call(Libdir(c, t)), Emit(CopyInto(c, t, SanitizerLibs))];
    var b := [Call(Libdir(c, t)), Call(Native(Libunwind, t)), Emit(CopyInto(c, t, UnwindLib))];
    var k1 := k0 + Some1(x, CopyInto(c, t, SanitizerLibs));
    Reach3(k, k0, a[0], a[1], a[2]);
    Reach3(k, k1, b[0], b[1], b[2]);
    ReachIfGain(k, k0, x, a, CopyInto(c, t, SanitizerLibs));
    ReachIfGain(k, k1, y, b, CopyInto(c, t, UnwindLib));
    ReachSeq(k, k0, If(x, a), k1, If(y, b), k1 + Some1(y, CopyInto(c, t, UnwindLib)));
  }

  /** The objects of a musl target, once their directory has been handed out. */
  lemma MuslPiece(cfg: Config, k: K, k0: set<Event>, c: Compiler, t: Target, a: Ops, b: Ops)
    requires WipesFirst(cfg, k) && t in cfg.musl && Wiped(cfg, c, t) <= k0
    requires a == [Emit(CopyInto(c, t, MuslObjects)), Call(Native(CrtBeginEnd, t)), Emit(CopyInto(c, t, CrtObjects))]
    requires b == [Call(Native(Libunwind, t)), Emit(CopyInto(c, t, SelfContainedUnwind))]
    ensures Reaches(k, k0, a + If(t !in cfg.muslWithoutUnwind, b), k0 + SelfContained(cfg, c, t))
  {
    var k1 := k0 + {CopyInto(c, t, MuslObjects), CopyInto(c, t, CrtObjects)};
    Reach3(k, k0, a[0], a[1], a[2]);
    ReachLess(k, k0, a, k0 + Gain(k, a[0]) + Gain(k, a[1]) + Gain(k, a[2]), k1);
    Reach2(k, k1, b[0], b[1]);
    ReachLess(k, k1, b, k1 + Gain(k, b[0]) + Gain(k, b[1]), k1 + {CopyInto(c, t, SelfContainedUnwind)});
    ReachIfGain(k, k1, t !in cfg.muslWithoutUnwind, b, CopyInto(c, t, SelfContainedUnwind));
    ReachSeq(k, k0, a, k1, If(t !in cfg.muslWithoutUnwind, b), k0 + SelfContained(cfg, c, t));
  }

  lemma SelfContainedPiece(cfg: Config, k: K, k0: set<Event>, c: Compiler, t: Target)
    requires WipesFirst(cfg, k)
    ensures Reaches(k, k0, SelfContainedOps(cfg, c, t), k0 + SelfContained(cfg, c, t))
  {
    var k1 := k0 + Wiped(cfg, c, t);
    var dir := [Call(Libdir(c, t))];
    Reach1(k, k0, dir[0]);
    ReachLess(k, k0, dir, k0 + Gain(k, dir[0]), k1);
    if t in cfg.musl {
      var a := [Emit(CopyInto(c, t, MuslObjects)), Call(Native(CrtBeginEnd, t)), Emit(CopyInto(c, t, CrtObjects))];
      var b := [Call(Native(Libunwind, t)), Emit(CopyInto(c, t, SelfContainedUnwind))];
      MuslPiece(cfg, k, k1, c, t, a, b);
      ReachSeq(k, k0, dir, k1, a + If(t !in cfg.muslWithoutUnwind, b), k0 + SelfContained(cfg, c, t));
    } else if t in cfg.wasi {
      Reach1(k, k1, Emit(CopyInto(c, t, WasiObjects)));
      ReachSeq(k, k0, dir, k1, [Emit(CopyInto(c, t, WasiObjects))], k0 + SelfContained(cfg, c, t));
    } else {
      Reach1(k, k1, Emit(CopyInto(c, t, GnuObjects)));
      ReachIfGain(k, k1, t in cfg.windowsGnu, [Emit(CopyInto(c, t, GnuObjects))], CopyInto(c, t, GnuObjects));
      ReachSeq(k, k0, dir, k1, If(t in cfg.windowsGnu, [Emit(CopyInto(c, t, GnuObjects))]), k0 + SelfContained(cfg, c, t));
    }
  }

  /** Third-party objects and self-contained objects. */
  lemma ObjectsPiece(cfg: Config, k: K, k0: set<Event>, c: Compiler, t: Target)
    requires WipesFirst(cfg, k)
    ensures Reaches(k, k0, ThirdPartyOps(cfg, c, t) + SelfContainedOps(cfg, c, t),
                    k0 + ThirdParty(cfg, c, t) + SelfContained(cfg, c, t))
  {
    var k1 := k0 + ThirdParty(cfg, c, t);
    ThirdPartyPiece(cfg, k, k0, c, t);
    SelfContainedPiece(cfg, k, k1, c, t);
    ReachSeq(k, k0, ThirdPartyOps(cfg, c, t), k1, SelfContainedOps(cfg, c, t), k1 + SelfContained(cfg, c, t));
  }

  lemma IsWipesFirst(cfg: Config)
    ensures WipesFirst(cfg, StageContract(cfg))
  {
    var k := StageContract(cfg);
    forall c, t, p ensures k.before(CopyInto(c, t, p)) <= Wiped(cfg, c, t) + Made(k, t, p) { MadeFirst(cfg, t, p); }
  }

  lemma MadeFirst(cfg: Config, t: Target, p: Payload)
    ensures Maker(t, p) <= Made(StageContract(cfg), t, p)
  {
  }

  lemma CargoSetupPiece(cfg: Config, k0: set<Event>, c: Compiler)
    ensures Reaches(StageContract(cfg), k0, CargoSetup(c), k0 + Wiped(cfg, c, c.host))
  {
    Reach2(StageContract(cfg), k0, Call(Libdir(c, c.host)), Call(Sysroot(c)));
  }

  lemma LlvmPiece(cfg: Config, k0: set<Event>, t: Target)
    ensures Reaches(StageContract(cfg), k0, If(LlvmEnabled(cfg), [Call(Native(Llvm, t))]), k0 + Llvms(cfg, t))
  {
    var k := StageContract(cfg);
    Reach1(k, k0, Call(Native(Llvm, t)));
    ReachIfGain(k, k0, LlvmEnabled(cfg), [Call(Native(Llvm, t))], Ready(Llvm, t));
  }

  // ------------------------------------------------------------------ the bodies

  lemma LiftedSources(cfg: Config, c: Compiler, t: Target, u: Compiler, a: Ops)
    requires !cfg.downloadRustc && !Kept(cfg, StdMode, c) && c.host == cfg.build && u == CompilerFor(cfg, c, t) != c
    requires a == [Call(StartupObjects(c, t)), Call(Assemble(u)), Call(Std(u, t, 0))]
    ensures Reaches(StageContract(cfg), {}, a, Startup(cfg, c, t) + Complete(u) + Stamp(cfg, StdMode, u, t))
  {
    var k := StageContract(cfg);
    Reach3(k, {}, a[0], a[1], a[2]);
    ReachLess(k, {}, a, {} + Gain(k, a[0]) + Gain(k, a[1]) + Gain(k, a[2]),
              Startup(cfg, c, t) + Complete(u) + Stamp(cfg, StdMode, u, t));
  }

  lemma StdLifted(cfg: Config, c: Compiler, t: Target, n: nat, u: Compiler)
    requires !cfg.downloadRustc && !Kept(cfg, StdMode, c) && c.host == cfg.build && u == CompilerFor(cfg, c, t) != c
    ensures Reaches(StageContract(cfg), {}, StdBody(cfg, c, t, n), Give(cfg, Std(c, t, n)))
  {
    var a := [Call(StartupObjects(c, t)), Call(Assemble(u)), Call(Std(u, t, 0))];
    var objs := ThirdPartyOps(cfg, c, t) + SelfContainedOps(cfg, c, t);
    var z := [Call(StdLink(u, c, t, n))];
    var k1 := Startup(cfg, c, t) + Complete(u) + Stamp(cfg, StdMode, u, t);
    LiftedSources(cfg, c, t, u, a);
    LiftedSpine(cfg, c, t, n, u, k1, objs, z);
    ReachSeq(StageContract(cfg), {}, a, k1, objs + z, StdGives(cfg, c, t));
    LiftedBody(cfg, c, t, n, u, a, objs, z);
  }

  lemma LiftedSpine(cfg: Config, c: Compiler, t: Target, n: nat, u: Compiler, k1: set<Event>, objs: Ops, z: Ops)
    requires !Kept(cfg, StdMode, c) && c.host == cfg.build && u == CompilerFor(cfg, c, t) != c
    requires k1 == Startup(cfg, c, t) + Complete(u) + Stamp(cfg, StdMode, u, t)
    requires objs == ThirdPartyOps(cfg, c, t) + SelfContainedOps(cfg, c, t) && z == [Call(StdLink(u, c, t, n))]
    ensures Reaches(StageContract(cfg), k1, objs + z, StdGives(cfg, c, t))
  {
    var k := StageContract(cfg);
    var k2 := k1 + ThirdParty(cfg, c, t) + SelfContained(cfg, c, t);
    IsWipesFirst(cfg);
    ObjectsPiece(cfg, k, k1, c, t);
    Reach1(k, k2, z[0]);
    ReachLess(k, k2, z, k2 + Gain(k, z[0]), k2 + Linked(StdMode, c, t, cfg.build));
    LiftedGives(cfg, c, t, u, k2);
    ReachLess(k, k2, z, k2 + Linked(StdMode, c, t, cfg.build), StdGives(cfg, c, t));
    ReachSeq(k, k1, objs, k2, z, StdGives(cfg, c, t));
  }

  lemma LiftedGives(cfg: Config, c: Compiler, t: Target, u: Compiler, k2: set<Event>)
    requires !Kept(cfg, StdMode, c) && u == CompilerFor(cfg, c, t) != c
    requires k2 == Startup(cfg, c, t) + Complete(u) + Stamp(cfg, StdMode, u, t) + ThirdParty(cfg, c, t) + SelfContained(cfg, c, t)
    ensures StdGives(cfg, c, t) <= k2 + Linked(StdMode, c, t, cfg.build)
  {
  }

  lemma LiftedBody(cfg: Config, c: Compiler, t: Target, n: nat, u: Compiler, a: Ops, objs: Ops, z: Ops)
    requires !cfg.downloadRustc && !Kept(cfg, StdMode, c) && u == CompilerFor(cfg, c, t) != c
    requires a == [Call(StartupObjects(c, t)), Call(Assemble(u)), Call(Std(u, t, 0))] && z == [Call(StdLink(u, c, t, n))]
    requires objs == ThirdPartyOps(cfg, c, t) + SelfContainedOps(cfg, c, t)
    ensures StdBody(cfg, c, t, n) == a + (objs + z)
  {
  }

  /** What `Std` does before it runs cargo. */
  lemma StdSetup(cfg: Config, c: Compiler, t: Target, a: Ops, objs: Ops)
    requires a == [Call(StartupObjects(c, t)), Call(Assemble(c))]
    requires objs == ThirdPartyOps(cfg, c, t) + SelfContainedOps(cfg, c, t)
    ensures Reaches(StageContract(cfg), {}, a + objs + CargoSetup(c), CargoBefore(cfg, StdMode, c, t))
  {
    var k := StageContract(cfg);
    var k1 := Startup(cfg, c, t) + Complete(c);
    var k2 := k1 + ThirdParty(cfg, c, t) + SelfContained(cfg, c, t);
    Reach2(k, {}, a[0], a[1]);
    ReachLess(k, {}, a, {} + Gain(k, a[0]) + Gain(k, a[1]), k1);
    IsWipesFirst(cfg);
    ObjectsPiece(cfg, k, k1, c, t);
    CargoSetupPiece(cfg, k2, c);
    ReachSeq3(k, {}, a, k1, objs, k2, CargoSetup(c), k2 + Wiped(cfg, c, c.host));
    StdReady(cfg, c, t, k2 + Wiped(cfg, c, c.host));
    ReachLess(k, {}, a + objs + CargoSetup(c), k2 + Wiped(cfg, c, c.host), CargoBefore(cfg, StdMode, c, t));
  }

  lemma StdReady(cfg: Config, c: Compiler, t: Target, k: set<Event>)
    requires Startup(cfg, c, t) <= k && ThirdParty(cfg, c, t) <= k && SelfContained(cfg, c, t) <= k
    requires Complete(c) <= k && Wiped(cfg, c, c.host) <= k
    ensures CargoBefore(cfg, StdMode, c, t) <= k
  {
  }

  /** Linking what was just built into the same compiler's sysroot. */
  lemma StdLinkPiece(cfg: Config, k0: set<Event>, c: Compiler, t: Target, n: nat, z: Ops)
    requires z == [Call(Assemble(c)), Call(StdLink(c, c, t, n))] && c.host == cfg.build && Stamp(cfg, StdMode, c, t) <= k0
    ensures Reaches(StageContract(cfg), k0, z, k0 + Linked(StdMode, c, t, cfg.build))
  {
    var k := StageContract(cfg);
    Reach2(k, k0, z[0], z[1]);
    ReachLess(k, k0, z, k0 + Gain(k, z[0]) + Gain(k, z[1]), k0 + Linked(StdMode, c, t, cfg.build));
  }

  lemma StdBuilt(cfg: Config, c: Compiler, t: Target, n: nat)
    requires !cfg.downloadRustc && !Kept(cfg, StdMode, c) && c.host == cfg.build && CompilerFor(cfg, c, t) == c
    ensures Reaches(StageContract(cfg), {}, StdBody(cfg, c, t, n), Give(cfg, Std(c, t, n)))
  {
    var a := [Call(StartupObjects(c, t)), Call(Assemble(c))];
    var objs := ThirdPartyOps(cfg, c, t) + SelfContainedOps(cfg, c, t);
    var z := [Call(Assemble(c)), Call(StdLink(c, c, t, n))];
    StdSetup(cfg, c, t, a, objs);
    BuiltReach(cfg, c, t, n, a + objs + CargoSetup(c), z);
    BuiltBody(cfg, c, t, n, a, objs, z);
  }

  lemma BuiltReach(cfg: Config, c: Compiler, t: Target, n: nat, x: Ops, z: Ops)
    requires c.host == cfg.build && CompilerFor(cfg, c, t) == c && z == [Call(Assemble(c)), Call(StdLink(c, c, t, n))]
    requires Reaches(StageContract(cfg), {}, x, CargoBefore(cfg, StdMode, c, t))
    ensures Reaches(StageContract(cfg), {}, x + CargoOps(StdMode, c, t) + z, StdGives(cfg, c, t))
  {
    var k1 := CargoBefore(cfg, StdMode, c, t);
    var k2 := k1 + {CargoBuild(StdMode, c, t), WriteStamp(StdMode, c, t)};
    BuildFrom(cfg, c, t, k1, k2);
    BuiltGives(cfg, c, t, k1, k2 + Linked(StdMode, c, t, cfg.build));
    BuiltRest(cfg, c, t, n, x, CargoOps(StdMode, c, t), z, k1, k2);
  }

  lemma BuildFrom(cfg: Config, c: Compiler, t: Target, k1: set<Event>, k2: set<Event>)
    requires k1 == CargoBefore(cfg, StdMode, c, t) && k2 == k1 + {CargoBuild(StdMode, c, t), WriteStamp(StdMode, c, t)}
    ensures Reaches(StageContract(cfg), k1, CargoOps(StdMode, c, t), k2)
  {
    BuildPiece(cfg, k1, StdMode, c, t, k2);
  }

  lemma BuiltRest(cfg: Config, c: Compiler, t: Target, n: nat, x: Ops, y: Ops, z: Ops, k1: set<Event>, k2: set<Event>)
    requires c.host == cfg.build && z == [Call(Assemble(c)), Call(StdLink(c, c, t, n))]
    requires Reaches(StageContract(cfg), {}, x, k1) && Reaches(StageContract(cfg), k1, y, k2)
    requires WriteStamp(StdMode, c, t) in k2 && StdGives(cfg, c, t) <= k2 + Linked(StdMode, c, t, cfg.build)
    ensures Reaches(StageContract(cfg), {}, x + y + z, StdGives(cfg, c, t))
  {
    StdLinkPiece(cfg, k2, c, t, n, z);
    ReachLess(StageContract(cfg), k2, z, k2 + Linked(StdMode, c, t, cfg.build), StdGives(cfg, c, t));
    ReachSeq3(StageContract(cfg), {}, x, k1, y, k2, z, StdGives(cfg, c, t));
  }

  lemma BuiltGives(cfg: Config, c: Compiler, t: Target, k1: set<Event>, k: set<Event>)
    requires CompilerFor(cfg, c, t) == c && k1 == CargoBefore(cfg, StdMode, c, t)
    requires k1 <= k && {CargoBuild(StdMode, c, t), WriteStamp(StdMode, c, t)} <= k && Linked(StdMode, c, t, cfg.build) <= k
    ensures StdGives(cfg, c, t) <= k
  {
  }

  lemma BuiltBody(cfg: Config, c: Compiler, t: Target, n: nat, a: Ops, objs: Ops, z: Ops)
    requires !cfg.downloadRustc && !Kept(cfg, StdMode, c) && c.host == cfg.build && CompilerFor(cfg, c, t) == c
    requires a == [Call(StartupObjects(c, t)), Call(Assemble(c))] && z == [Call(Assemble(c)), Call(StdLink(c, c, t, n))]
    requires objs == ThirdPartyOps(cfg, c, t) + SelfContainedOps(cfg, c, t)
    ensures StdBody(cfg, c, t, n) == a + objs + CargoSetup(c) + CargoOps(StdMode, c, t) + z
  {
  }

  /** Running cargo and writing its stamp. */
  function CargoOps(mode: Mode, c: Compiler, t: Target): Ops {
    [Emit(CargoBuild(mode, c, t)), Emit(WriteStamp(mode, c, t))]
  }

  lemma BuildPiece(cfg: Config, k0: set<Event>, mode: Mode, c: Compiler, t: Target, k1: set<Event>)
    requires Before(cfg, CargoBuild(mode, c, t)) <= k0
    requires k1 <= k0 + {CargoBuild(mode, c, t), WriteStamp(mode, c, t)}
    ensures Reaches(StageContract(cfg), k0, CargoOps(mode, c, t), k1)
  {
    Reach2(StageContract(cfg), k0, Emit(CargoBuild(mode, c, t)), Emit(WriteStamp(mode, c, t)));
  }

  lemma RustcLifted(cfg: Config, c: Compiler, t: Target, n: nat, u: Compiler)
    requires !cfg.downloadRustc && !Kept(cfg, RustcMode, c) && c.host == cfg.build && u == CompilerFor(cfg, c, t) != c
    ensures Reaches(StageContract(cfg), {}, RustcBody(cfg, c, t, n), Give(cfg, Rustc(c, t, n)))
  {
    var k := StageContract(cfg);
    var a := [Call(Std(c, t, 0)), Call(Assemble(u))];
    var z := [Call(Rustc(u, t, 0)), Call(RustcLink(u, c, t, n))];
    var k1 := StdGives(cfg, c, t) + Complete(u);
    Reach2(k, {}, a[0], a[1]);
    ReachLess(k, {}, a, {} + Gain(k, a[0]) + Gain(k, a[1]), k1);
    Reach2(k, k1, z[0], z[1]);
    ReachSeq(k, {}, a, k1, z, k1 + Gain(k, z[0]) + Gain(k, z[1]));
    assert RustcBody(cfg, c, t, n) == a + z;
  }

  /** The requests `Rustc` makes before it runs cargo. */
  lemma RustcSetup(cfg: Config, c: Compiler, t: Target, a: Ops, b: Ops, k1: set<Event>)
    requires c.host == cfg.build
    requires a == [Call(Std(c, t, 0)), Call(Assemble(c))] && b == [Call(Assemble(c)), Call(Std(c, cfg.build, 0))]
    requires k1 == StdGives(cfg, c, t) + Complete(c) + Linked(StdMode, c, cfg.build, cfg.build)
    ensures Reaches(StageContract(cfg), {}, a + b, k1)
  {
    var k := StageContract(cfg);
    var k0 := StdGives(cfg, c, t) + Complete(c);
    Reach2(k, {}, a[0], a[1]);
    Reach2(k, k0, b[0], b[1]);
    ReachLess(k, k0, b, k0 + Gain(k, b[0]) + Gain(k, b[1]), k1);
    ReachSeq(k, {}, a, k0, b, k1);
  }

  lemma RustcLinkPiece(cfg: Config, k0: set<Event>, c: Compiler, t: Target, n: nat, z: Ops)
    requires z == [Call(Assemble(c)), Call(RustcLink(c, c, t, n))] && c.host == cfg.build && Stamp(cfg, RustcMode, c, t) <= k0
    ensures Reaches(StageContract(cfg), k0, z, k0 + Linked(RustcMode, c, t, cfg.build))
  {
    var k := StageContract(cfg);
    Reach2(k, k0, z[0], z[1]);
    ReachLess(k, k0, z, k0 + Gain(k, z[0]) + Gain(k, z[1]), k0 + Linked(RustcMode, c, t, cfg.build));
  }

  /** What `Rustc` and `CodegenBackend` have in place when they run cargo. */
  lemma CargoReady(cfg: Config, mode: Mode, c: Compiler, t: Target, gives: set<Event>, k: set<Event>)
    requires mode == RustcMode ==> Linked(StdMode, c, t, cfg.build) <= gives && Linked(StdMode, c, cfg.build, cfg.build) <= k
    requires mode.CodegenMode? ==> Linked(StdMode, c, t, cfg.build) + Linked(RustcMode, c, t, cfg.build) <= gives
    requires mode != StdMode && gives <= k && Complete(c) <= k && Wiped(cfg, c, c.host) <= k && Llvms(cfg, t) <= k
    ensures Before(cfg, CargoBuild(mode, c, t)) <= k
  {
  }

  /** Setting up cargo and LLVM, running cargo, writing its stamp. */
  lemma CargoPiece(cfg: Config, mode: Mode, c: Compiler, t: Target, gives: set<Event>, k0: set<Event>, llvm: Ops)
    requires mode == RustcMode ==> Linked(StdMode, c, t, cfg.build) <= gives && Linked(StdMode, c, cfg.build, cfg.build) <= k0
    requires mode.CodegenMode? ==> Linked(StdMode, c, t, cfg.build) + Linked(RustcMode, c, t, cfg.build) <= gives
    requires mode != StdMode && gives <= k0 && Complete(c) <= k0
    requires llvm == If(LlvmEnabled(cfg), [Call(Native(Llvm, t))])
    ensures Reaches(StageContract(cfg), k0, CargoSetup(c) + llvm + CargoOps(mode, c, t),
                    k0 + {CargoBuild(mode, c, t), WriteStamp(mode, c, t)})
  {
    var k := StageContract(cfg);
    var k1 := k0 + Wiped(cfg, c, c.host);
    var k2 := k1 + Llvms(cfg, t);
    var k3 := k0 + {CargoBuild(mode, c, t), WriteStamp(mode, c, t)};
    CargoSetupPiece(cfg, k0, c);
    LlvmPiece(cfg, k1, t);
    CargoReady(cfg, mode, c, t, gives, k2);
    BuildPiece(cfg, k2, mode, c, t, k3);
    ReachSeq3(k, k0, CargoSetup(c), k1, llvm, k2, CargoOps(mode, c, t), k3);
  }

  lemma RustcBuilt(cfg: Config, c: Compiler, t: Target, n: nat)
    requires !cfg.downloadRustc && !Kept(cfg, RustcMode, c) && c.host == cfg.build && CompilerFor(cfg, c, t) == c
    ensures Reaches(StageContract(cfg), {}, RustcBody(cfg, c, t, n), Give(cfg, Rustc(c, t, n)))
  {
    var a := [Call(Std(c, t, 0)), Call(Assemble(c))];
    var b := [Call(Assemble(c)), Call(Std(c, cfg.build, 0))];
    var llvm: Ops := If(LlvmEnabled(cfg), [Call(Native(Llvm, t))]);
    var z := [Call(Assemble(c)), Call(RustcLink(c, c, t, n))];
    RustcSpine(cfg, c, t, n, a, b, llvm, z, StdGives(cfg, c, t));
    RustcBodyIs(cfg, c, t, n, a, b, llvm, z);
  }

  lemma RustcBodyIs(cfg: Config, c: Compiler, t: Target, n: nat, a: Ops, b: Ops, llvm: Ops, z: Ops)
    requires !cfg.downloadRustc && !Kept(cfg, RustcMode, c) && c.host == cfg.build && CompilerFor(cfg, c, t) == c
    requires a == [Call(Std(c, t, 0)), Call(Assemble(c))] && b == [Call(Assemble(c)), Call(Std(c, cfg.build, 0))]
    requires llvm == If(LlvmEnabled(cfg), [Call(Native(Llvm, t))])
    requires z == [Call(Assemble(c)), Call(RustcLink(c, c, t, n))]
    ensures RustcBody(cfg, c, t, n) == a + b + (CargoSetup(c) + llvm + CargoOps(RustcMode, c, t)) + z
  {
  }

  lemma RustcSpine(cfg: Config, c: Compiler, t: Target, n: nat, a: Ops, b: Ops, llvm: Ops, z: Ops, gives: set<Event>)
    requires c.host == cfg.build && !Kept(cfg, RustcMode, c) && CompilerFor(cfg, c, t) == c
    requires a == [Call(Std(c, t, 0)), Call(Assemble(c))] && b == [Call(Assemble(c)), Call(Std(c, cfg.build, 0))]
    requires llvm == If(LlvmEnabled(cfg), [Call(Native(Llvm, t))])
    requires z == [Call(Assemble(c)), Call(RustcLink(c, c, t, n))] && gives == StdGives(cfg, c, t)
    ensures Reaches(StageContract(cfg), {}, a + b + (CargoSetup(c) + llvm + CargoOps(RustcMode, c, t)) + z, RustcGives(cfg, c, t))
  {
    var k := StageContract(cfg);
    var k1 := gives + Complete(c) + Linked(StdMode, c, cfg.build, cfg.build);
    var k2 := k1 + {CargoBuild(RustcMode, c, t), WriteStamp(RustcMode, c, t)};
    RustcSetup(cfg, c, t, a, b, k1);
    CargoPiece(cfg, RustcMode, c, t, gives, k1, llvm);
    RustcLinkPiece(cfg, k2, c, t, n, z);
    ReachSeq3(k, {}, a + b, k1, CargoSetup(c) + llvm + CargoOps(RustcMode, c, t), k2, z, k2 + Linked(RustcMode, c, t, cfg.build));
    ReachLess(k, {}, a + b + (CargoSetup(c) + llvm + CargoOps(RustcMode, c, t)) + z, k2 + Linked(RustcMode, c, t, cfg.build),
              RustcGives(cfg, c, t));
  }

  lemma CodegenBuilt(cfg: Config, c: Compiler, t: Target, backend: string)
    requires !cfg.downloadRustc && !Kept(cfg, CodegenMode(backend), c) && c.host == cfg.build && CompilerFor(cfg, c, t) == c
    ensures Reaches(StageContract(cfg), {}, CodegenBody(cfg, c, t, backend), Give(cfg, CodegenBackend(c, t, backend)))
  {
    var a := [Call(Rustc(c, t, 0)), Call(Assemble(c))];
    var llvm: Ops := If(LlvmEnabled(cfg), [Call(Native(Llvm, t))]);
    var k1 := RustcGives(cfg, c, t) + Complete(c);
    CodegenAsks(cfg, c, t, a, k1);
    RustcGivesLinked(cfg, c, t);
    BackendGives(cfg, c, t, backend, k1);
    CodegenSpine(cfg, c, t, backend, a, llvm, k1, Give(cfg, CodegenBackend(c, t, backend)));
    CodegenBodyIs(cfg, c, t, backend, a, llvm);
  }

  lemma CodegenBodyIs(cfg: Config, c: Compiler, t: Target, backend: string, a: Ops, llvm: Ops)
    requires !Kept(cfg, CodegenMode(backend), c) && CompilerFor(cfg, c, t) == c
    requires a == [Call(Rustc(c, t, 0)), Call(Assemble(c))] && llvm == If(LlvmEnabled(cfg), [Call(Native(Llvm, t))])
    ensures CodegenBody(cfg, c, t, backend) == a + (CargoSetup(c) + llvm + CargoOps(CodegenMode(backend), c, t))
  {
  }

  lemma RustcGivesLinked(cfg: Config, c: Compiler, t: Target)
    ensures Linked(StdMode, c, t, cfg.build) + Linked(RustcMode, c, t, cfg.build) <= RustcGives(cfg, c, t)
  {
  }

  lemma BackendGives(cfg: Config, c: Compiler, t: Target, backend: string, k1: set<Event>)
    requires CompilerFor(cfg, c, t) == c && k1 == RustcGives(cfg, c, t) + Complete(c)
    ensures Give(cfg, CodegenBackend(c, t, backend))
         <= k1 + {CargoBuild(CodegenMode(backend), c, t), WriteStamp(CodegenMode(backend), c, t)}
  {
  }

  lemma CodegenSpine(cfg: Config, c: Compiler, t: Target, backend: string, a: Ops, llvm: Ops, k1: set<Event>, out: set<Event>)
    requires Reaches(StageContract(cfg), {}, a, k1) && llvm == If(LlvmEnabled(cfg), [Call(Native(Llvm, t))])
    requires Linked(StdMode, c, t, cfg.build) + Linked(RustcMode, c, t, cfg.build) <= k1 && Complete(c) <= k1
    requires out <= k1 + {CargoBuild(CodegenMode(backend), c, t), WriteStamp(CodegenMode(backend), c, t)}
    ensures Reaches(StageContract(cfg), {}, a + (CargoSetup(c) + llvm + CargoOps(CodegenMode(backend), c, t)), out)
  {
    var k, mode := StageContract(cfg), CodegenMode(backend);
    var run := CargoSetup(c) + llvm + CargoOps(mode, c, t);
    CargoPiece(cfg, mode, c, t, k1, k1, llvm);
    ReachLess(k, k1, run, k1 + {CargoBuild(mode, c, t), WriteStamp(mode, c, t)}, out);
    ReachSeq(k, {}, a, k1, run, out);
  }

  lemma CodegenAsks(cfg: Config, c: Compiler, t: Target, a: Ops, k1: set<Event>)
    requires a == [Call(Rustc(c, t, 0)), Call(Assemble(c))] && k1 == RustcGives(cfg, c, t) + Complete(c)
    ensures Reaches(StageContract(cfg), {}, a, k1)
  {
    var k := StageContract(cfg);
    Reach2(k, {}, a[0], a[1]);
    ReachLess(k, {}, a, {} + Gain(k, a[0]) + Gain(k, a[1]), k1);
  }

  lemma CodegenLifted(cfg: Config, c: Compiler, t: Target, backend: string, u: Compiler)
    requires !Kept(cfg, CodegenMode(backend), c) && u == CompilerFor(cfg, c, t) && u != c
    ensures Reaches(StageContract(cfg), {}, CodegenBody(cfg, c, t, backend), CodegenGives(cfg, c, t, CodegenMode(backend)))
  {
    var k, mode := StageContract(cfg), CodegenMode(backend);
    var a, b := Call(Rustc(c, t, 0)), Call(Assemble(u));
    var x := Call(CodegenBackend(u, t, backend));
    Reach3(k, {}, a, b, x);
    assert Unmade(cfg, mode, c, t);
    ReachLess(k, {}, [a, b, x], {} + Gain(k, a) + Gain(k, b) + Gain(k, x), CodegenGives(cfg, c, t, mode));
  }

  /** `Std`, `Rustc` and `CodegenBackend`, whether built, lifted from stage 1, or kept. */
  lemma StdKeeps(cfg: Config, c: Compiler, t: Target, n: nat)
    requires !cfg.downloadRustc && c.host == cfg.build
    ensures Reaches(StageContract(cfg), {}, StdBody(cfg, c, t, n), Give(cfg, Std(c, t, n)))
  {
    var u := CompilerFor(cfg, c, t);
    if Kept(cfg, StdMode, c) {
      Reach1(StageContract(cfg), {}, Call(StdLink(c, c, t, n)));
    } else if u != c {
      StdLifted(cfg, c, t, n, u);
    } else {
      StdBuilt(cfg, c, t, n);
    }
  }

  lemma RustcKeeps(cfg: Config, c: Compiler, t: Target, n: nat)
    requires !cfg.downloadRustc && c.host == cfg.build
    ensures Reaches(StageContract(cfg), {}, RustcBody(cfg, c, t, n), Give(cfg, Rustc(c, t, n)))
  {
    var u := CompilerFor(cfg, c, t);
    if Kept(cfg, RustcMode, c) {
      Reach2(StageContract(cfg), {}, Call(Std(c, t, 0)), Call(RustcLink(c, c, t, n)));
    } else if u != c {
      RustcLifted(cfg, c, t, n, u);
    } else {
      RustcBuilt(cfg, c, t, n);
    }
  }

  lemma CodegenKeeps(cfg: Config, c: Compiler, t: Target, backend: string)
    requires !cfg.downloadRustc && c.host == cfg.build
    ensures Reaches(StageContract(cfg), {}, CodegenBody(cfg, c, t, backend), Give(cfg, CodegenBackend(c, t, backend)))
  {
    var u := CompilerFor(cfg, c, t);
    if Kept(cfg, CodegenMode(backend), c) {
      Reach1(StageContract(cfg), {}, Call(Rustc(c, t, 0)));
    } else if u != c {
      CodegenLifted(cfg, c, t, backend, u);
    } else {
      CodegenBuilt(cfg, c, t, backend);
    }
  }

  lemma LinkKeeps(cfg: Config, mode: Mode, u: Compiler, c: Compiler, t: Target)
    requires u.host == cfg.build && c.host == cfg.build
    ensures Reaches(StageContract(cfg), Stamp(cfg, mode, u, t), LinkBody(mode, u, c, t), Linked(mode, c, t, u.host))
  {
    var k := StageContract(cfg);
    var k0 := Stamp(cfg, mode, u, t);
    var a := [Call(Libdir(c, t)), Call(Libdir(c, u.host)), Emit(ReadStamp(mode, u, t))];
    var b := [Emit(CopyInto(c, t, Libs(mode))), Emit(CopyInto(c, t, SelfContainedLibs(mode))), Emit(CopyInto(c, u.host, HostLibs(mode)))];
    var k1 := k0 + Gain(k, a[0]) + Gain(k, a[1]) + Gain(k, a[2]);
    Reach3(k, k0, a[0], a[1], a[2]);
    Reach3(k, k1, b[0], b[1], b[2]);
    ReachSeq(k, k0, a, k1, b, k1 + Gain(k, b[0]) + Gain(k, b[1]) + Gain(k, b[2]));
  }

  ghost function BackendStamps(cfg: Config, b: Compiler, t: Target, backends: seq<string>): set<Event> {
    set x | x in backends && x != "llvm" && !Unmade(cfg, CodegenMode(x), b, t) :: WriteStamp(CodegenMode(x), b, t)
  }

  lemma BackendStampsSnoc(cfg: Config, b: Compiler, t: Target, front: seq<string>, x: string)
    ensures BackendStamps(cfg, b, t, front + [x]) ==
            BackendStamps(cfg, b, t, front)
            + (if x == "llvm" then {} else Stamp(cfg, CodegenMode(x), b, t))
  {
    assert forall y :: y in front + [x] <==> y in front || y == x;
  }

  lemma {:induction false} BackendCallsPiece(cfg: Config, k0: set<Event>, b: Compiler, t: Target, backends: seq<string>)
    ensures Reaches(StageContract(cfg), k0, BackendCalls(b, t, backends), k0 + BackendStamps(cfg, b, t, backends))
    decreases |backends|
  {
    var k := StageContract(cfg);
    if backends == [] {
      Reach0(k, k0);
    } else {
      var front, x := backends[..|backends| - 1], backends[|backends| - 1];
      assert backends == front + [x];
      BackendStampsSnoc(cfg, b, t, front, x);
      var k1, k2 := k0 + BackendStamps(cfg, b, t, front), k0 + BackendStamps(cfg, b, t, backends);
      var call := Call(CodegenBackend(b, t, x));
      BackendCallsPiece(cfg, k0, b, t, front);
      Reach0(k, k1);
      Reach1(k, k1, call);
      assert x != "llvm" ==> k2 <= k1 + Gain(k, call);
      ReachSeq(k, k0, BackendCalls(b, t, front), k1, If(x != "llvm", [call]), k2);
    }
  }

  lemma {:induction false} BackendCopiesPiece(
    cfg: Config, k0: set<Event>, b: Compiler, c: Compiler, backends: seq<string>)
    requires c.stage > 0 && b == BuildCompiler(cfg, c.stage - 1)
    requires Wiped(cfg, c, c.host) <= k0 && BackendStamps(cfg, b, c.host, backends) <= k0
    ensures Reaches(StageContract(cfg), k0, BackendCopies(b, c, backends), k0 + Installs(c, backends))
    decreases |backends|
  {
    var k := StageContract(cfg);
    if backends == [] {
      Reach0(k, k0);
    } else {
      var front, x := backends[..|backends| - 1], backends[|backends| - 1];
      assert backends == front + [x];
      BackendStampsSnoc(cfg, b, c.host, front, x);
      InstallsSnoc(c, front, x);
      BackendCopiesPiece(cfg, k0, b, c, front);
      var k1 := k0 + Installs(c, front);
      var copy := [Emit(ReadStamp(CodegenMode(x), b, c.host)), Emit(InstallBackend(c, x))];
      if x != "llvm" {
        assert x in backends;
        Reach2(k, k1, copy[0], copy[1]);
      } else {
        Reach0(k, k1);
      }
      ReachSeq(k, k0, BackendCopies(b, c, front), k1, BackendCopy(b, c, x), k0 + Installs(c, backends));
    }
  }

  lemma InstallsSnoc(c: Compiler, front: seq<string>, x: string)
    ensures Installs(c, front + [x]) == Installs(c, front) + (if x == "llvm" then {} else {InstallBackend(c, x)})
  {
    assert forall y :: y in front + [x] <==> y in front || y == x;
  }

  lemma BackendsPiece(cfg: Config, k1: set<Event>, b: Compiler, c: Compiler, lld: Ops)
    requires lld == [Call(Native(Lld, c.host))]
    ensures Reaches(StageContract(cfg), k1, BackendCalls(b, c.host, cfg.backends) + If(cfg.lldEnabled, lld),
                    k1 + BackendStamps(cfg, b, c.host, cfg.backends) + Some1(cfg.lldEnabled, Ready(Lld, c.host)))
  {
    var k := StageContract(cfg);
    var k2 := k1 + BackendStamps(cfg, b, c.host, cfg.backends);
    BackendCallsPiece(cfg, k1, b, c.host, cfg.backends);
    Reach1(k, k2, lld[0]);
    ReachIfGain(k, k2, cfg.lldEnabled, lld, Ready(Lld, c.host));
    ReachSeq(k, k1, BackendCalls(b, c.host, cfg.backends), k2, If(cfg.lldEnabled, lld),
             k2 + Some1(cfg.lldEnabled, Ready(Lld, c.host)));
  }

  lemma AssembleLibsPiece(cfg: Config, b: Compiler, c: Compiler)
    ensures Reaches(StageContract(cfg), {}, AssembleLibs(cfg, b, c),
                    RustcGives(cfg, b, c.host) + BackendStamps(cfg, b, c.host, cfg.backends)
                    + Some1(cfg.lldEnabled, Ready(Lld, c.host)))
  {
    var a := [Call(Assemble(b)), Call(Rustc(b, c.host, 0))];
    var lld := [Call(Native(Lld, c.host))];
    var rest := BackendCalls(b, c.host, cfg.backends) + If(cfg.lldEnabled, lld);
    var k1 := RustcGives(cfg, b, c.host);
    LibsAsks(cfg, b, c, a, k1);
    BackendsPiece(cfg, k1, b, c, lld);
    ReachSeq(StageContract(cfg), {}, a, k1, rest,
             k1 + BackendStamps(cfg, b, c.host, cfg.backends) + Some1(cfg.lldEnabled, Ready(Lld, c.host)));
    LibsAre(cfg, b, c, a, rest);
  }

  lemma LibsAre(cfg: Config, b: Compiler, c: Compiler, a: Ops, rest: Ops)
    requires a == [Call(Assemble(b)), Call(Rustc(b, c.host, 0))]
    requires rest == BackendCalls(b, c.host, cfg.backends) + If(cfg.lldEnabled, [Call(Native(Lld, c.host))])
    ensures AssembleLibs(cfg, b, c) == a + rest
  {
  }

  lemma LibsAsks(cfg: Config, b: Compiler, c: Compiler, a: Ops, k1: set<Event>)
    requires a == [Call(Assemble(b)), Call(Rustc(b, c.host, 0))] && k1 == RustcGives(cfg, b, c.host)
    ensures Reaches(StageContract(cfg), {}, a, k1)
  {
    var k := StageContract(cfg);
    Reach2(k, {}, a[0], a[1]);
    ReachLess(k, {}, a, {} + Gain(k, a[0]) + Gain(k, a[1]), k1);
  }

  /** Reading the stamp and the libraries of the build compiler. */
  lemma AssembleReadPiece(cfg: Config, k0: set<Event>, b: Compiler, c: Compiler, a: Ops, d: Ops)
    requires c.stage > 0 && b == BuildCompiler(cfg, c.stage - 1) && Stamp(cfg, RustcMode, b, c.host) <= k0
    requires Linked(StdMode, b, c.host, cfg.build) + Linked(RustcMode, b, c.host, cfg.build) <= k0
    requires a == [Emit(ReadStamp(RustcMode, b, c.host)), Call(Sysroot(c))]
    requires d == [Call(Libdir(b, c.host)), Emit(ReadLibdir(b, c.host)), Emit(CopyDylibs(c))]
    ensures Reaches(StageContract(cfg), k0, a + d, k0 + {CopyDylibs(c)})
  {
    var k := StageContract(cfg);
    var k1 := k0 + {ReadStamp(RustcMode, b, c.host), WipeSysroot(SysrootDir(cfg, c))};
    Reach2(k, k0, a[0], a[1]);
    ReachLess(k, k0, a, k0 + Gain(k, a[0]) + Gain(k, a[1]), k1);
    DylibsPiece(cfg, k1, b, c, d);
    ReachSeq(k, k0, a, k1, d, k1 + {CopyDylibs(c)});
  }

  lemma DylibsPiece(cfg: Config, k1: set<Event>, b: Compiler, c: Compiler, d: Ops)
    requires c.stage > 0 && b == BuildCompiler(cfg, c.stage - 1)
    requires {ReadStamp(RustcMode, b, c.host), WipeSysroot(SysrootDir(cfg, c))} <= k1
    requires Linked(StdMode, b, c.host, cfg.build) + Linked(RustcMode, b, c.host, cfg.build) <= k1
    requires d == [Call(Libdir(b, c.host)), Emit(ReadLibdir(b, c.host)), Emit(CopyDylibs(c))]
    ensures Reaches(StageContract(cfg), k1, d, k1 + {CopyDylibs(c)})
  {
    var k := StageContract(cfg);
    Reach3(k, k1, d[0], d[1], d[2]);
    ReachLess(k, k1, d, k1 + Gain(k, d[0]) + Gain(k, d[1]) + Gain(k, d[2]), k1 + {CopyDylibs(c)});
  }

  lemma AssembleSysrootPiece(cfg: Config, k0: set<Event>, b: Compiler, c: Compiler)
    requires c.stage > 0 && b == BuildCompiler(cfg, c.stage - 1)
    requires Stamp(cfg, RustcMode, b, c.host) + BackendStamps(cfg, b, c.host, cfg.backends) <= k0
    requires Linked(StdMode, b, c.host, cfg.build) + Linked(RustcMode, b, c.host, cfg.build) <= k0
    ensures Reaches(StageContract(cfg), k0, AssembleSysroot(cfg, b, c), k0 + {CopyDylibs(c)} + Installs(c, cfg.backends))
  {
    var k := StageContract(cfg);
    var a := [Emit(ReadStamp(RustcMode, b, c.host)), Call(Sysroot(c))];
    var d := [Call(Libdir(b, c.host)), Emit(ReadLibdir(b, c.host)), Emit(CopyDylibs(c))];
    var l := [Call(Libdir(c, c.host))];
    var k2 := k0 + {CopyDylibs(c)};
    var k3 := k2 + Wiped(cfg, c, c.host);
    AssembleReadPiece(cfg, k0, b, c, a, d);
    Reach1(k, k2, l[0]);
    BackendCopiesPiece(cfg, k3, b, c, cfg.backends);
    ReachSeq3(k, k0, a + d, k2, l, k3, BackendCopies(b, c, cfg.backends), k3 + Installs(c, cfg.backends));
  }

  /** The tools that go into the new sysroot. */
  lemma AssembleToolsPiece(cfg: Config, k0: set<Event>, c: Compiler, a: Ops, lld: Ops, llvm: Ops)
    requires a == [Call(Libdir(c, c.host))]
    requires lld == If(cfg.lldEnabled, [Call(Native(LldWrapper, c.host))])
    requires llvm == If(LlvmEnabled(cfg), [Call(Native(Llvm, c.host))])
    ensures Reaches(StageContract(cfg), k0, a + lld + llvm,
                    k0 + Wiped(cfg, c, c.host) + Some1(cfg.lldEnabled, Ready(LldWrapper, c.host)) + Llvms(cfg, c.host))
  {
    var k := StageContract(cfg);
    var k1 := k0 + Wiped(cfg, c, c.host);
    var k2 := k1 + Some1(cfg.lldEnabled, Ready(LldWrapper, c.host));
    Reach1(k, k0, a[0]);
    Reach1(k, k1, Call(Native(LldWrapper, c.host)));
    ReachIfGain(k, k1, cfg.lldEnabled, [Call(Native(LldWrapper, c.host))], Ready(LldWrapper, c.host));
    LlvmPiece(cfg, k2, c.host);
    ReachSeq3(k, k0, a, k1, lld, k2, llvm, k2 + Llvms(cfg, c.host));
  }

  lemma AssembleFinishPiece(cfg: Config, k0: set<Event>, c: Compiler)
    requires c.stage > 0 && {CopyDylibs(c)} + Installs(c, cfg.backends) + Some1(cfg.lldEnabled, Ready(Lld, c.host)) <= k0
    requires Artifacts(cfg, RustcMode, BuildCompiler(cfg, c.stage - 1), c.host) <= k0
    ensures Reaches(StageContract(cfg), k0, AssembleFinish(cfg, c), {Assembled(c)})
  {
    var k := StageContract(cfg);
    var a := [Call(Libdir(c, c.host))];
    var lld := If(cfg.lldEnabled, [Call(Native(LldWrapper, c.host))]);
    var llvm: Ops := If(LlvmEnabled(cfg), [Call(Native(Llvm, c.host))]);
    var z := [Call(Sysroot(c)), Emit(Assembled(c))];
    var k1 := k0 + Wiped(cfg, c, c.host) + Some1(cfg.lldEnabled, Ready(LldWrapper, c.host)) + Llvms(cfg, c.host);
    AssembleToolsPiece(cfg, k0, c, a, lld, llvm);
    Reach2(k, k1, z[0], z[1]);
    ReachSeq(k, k0, a + lld + llvm, k1, z, {Assembled(c)});
  }

  lemma AssembleKeeps(cfg: Config, c: Compiler)
    requires !cfg.downloadRustc
    ensures Reaches(StageContract(cfg), {}, AssembleBody(cfg, c), Complete(c))
  {
    var k := StageContract(cfg);
    if c.stage == 0 {
      Reach1(k, {}, Abort);
      ReachIf(k, {}, c.host != cfg.build, [Abort]);
    } else {
      var b := BuildCompiler(cfg, c.stage - 1);
      var k1 := RustcGives(cfg, b, c.host) + BackendStamps(cfg, b, c.host, cfg.backends)
                + Some1(cfg.lldEnabled, Ready(Lld, c.host));
      var k2 := k1 + {CopyDylibs(c)} + Installs(c, cfg.backends);
      AssembleLibsPiece(cfg, b, c);
      AssembleSysrootPiece(cfg, k1, b, c);
      AssembleFinishPiece(cfg, k2, c);
      ReachSeq3(k, {}, AssembleLibs(cfg, b, c), k1, AssembleSysroot(cfg, b, c), k2, AssembleFinish(cfg, c), {Assembled(c)});
    }
  }

  lemma LeafKeeps(cfg: Config, s: Step)
    requires !cfg.downloadRustc && (s.Sysroot? || s.Libdir? || s.StartupObjects? || s.Native?)
    ensures Reaches(StageContract(cfg), {}, Body(cfg, s), Give(cfg, s))
  {
    var k := StageContract(cfg);
    match s
    case Sysroot(c) =>
      Reach1(k, {}, Emit(WipeSysroot(SysrootDir(cfg, c))));
      assert Body(cfg, s) == [Emit(WipeSysroot(SysrootDir(cfg, c)))];
    case Libdir(c, t) =>
      Reach2(k, {}, Call(Sysroot(c)), Emit(WipeLibdir(c, t)));
      assert Body(cfg, s) == [Call(Sysroot(c)), Emit(WipeLibdir(c, t))];
    case StartupObjects(c, t) =>
      var copy := CopyInto(c, t, StartupFiles);
      Reach2(k, {}, Call(Libdir(c, t)), Emit(copy));
      ReachIfGain(k, {}, t in cfg.windowsGnu, [Call(Libdir(c, t)), Emit(copy)], copy);
    case Native(tool, t) => NativeKeeps(cfg, tool, t);
  }

  lemma NativeKeeps(cfg: Config, tool: Tool, t: Target)
    ensures Reaches(StageContract(cfg), {}, NativeBody(cfg, tool, t), {Ready(tool, t)})
  {
    var k := StageContract(cfg);
    if tool == Llvm {
      var ask := t != cfg.build && t !in cfg.llvmPrebuilt;
      Reach1(k, {}, Call(Native(Llvm, cfg.build)));
      ReachIfGain(k, {}, ask, [Call(Native(Llvm, cfg.build))], Ready(Llvm, cfg.build));
      ToolReady(cfg, tool, t, If(ask, [Call(Native(Llvm, cfg.build))]));
    } else if tool == Lld {
      Reach1(k, {}, Call(Native(Llvm, t)));
      ToolReady(cfg, tool, t, [Call(Native(Llvm, t))]);
    } else if tool == Sanitizers {
      Reach1(k, {}, Call(Native(Llvm, cfg.build)));
      ToolReady(cfg, tool, t, [Call(Native(Llvm, cfg.build))]);
    } else {
      Reach0(k, {});
      ToolReady(cfg, tool, t, []);
    }
  }

  lemma ToolReady(cfg: Config, tool: Tool, t: Target, asks: Ops)
    requires Reaches(StageContract(cfg), {}, asks, ToolBefore(cfg, tool, t))
    ensures Reaches(StageContract(cfg), {}, asks + [Emit(Ready(tool, t))], {Ready(tool, t)})
  {
    var k := StageContract(cfg);
    Reach1(k, ToolBefore(cfg, tool, t), Emit(Ready(tool, t)));
    ReachSeq(k, {}, asks, ToolBefore(cfg, tool, t), [Emit(Ready(tool, t))], {Ready(tool, t)});
  }

  /** Every step body that assembling compilers can reach respects the contract. */
  lemma StagesRespect(cfg: Config, g: Graph<Step, Event, Output>)
    requires !cfg.downloadRustc && g == StageGraphOf(cfg, g.universe, g.clock)
    requires forall s :: s in g.universe ==> BuiltHere(cfg, s)
    ensures Respects(g, StageContract(cfg))
  {
    var k := StageContract(cfg);
    forall s | s in g.universe ensures Keeps(g, k, s) {
      match s
      case Assemble(c) => AssembleKeeps(cfg, c);
      case Std(c, t, n) => StdKeeps(cfg, c, t, n);
      case Rustc(c, t, n) => RustcKeeps(cfg, c, t, n);
      case CodegenBackend(c, t, b) => CodegenKeeps(cfg, c, t, b);
      case StdLink(u, c, t, _) => LinkKeeps(cfg, StdMode, u, c, t);
      case RustcLink(u, c, t, _) => LinkKeeps(cfg, RustcMode, u, c, t);
      case _ => LeafKeeps(cfg, s);
    }
  }
}
