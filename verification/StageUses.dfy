/** Nothing is made for nothing: native tools are built, and objects copied, only for the
    configurations and targets that use them.  This is the converse of `StageOrder.Give`. */
module StageUses {
  import opened StepEngine
  import opened StepOrder
  import opened StageGraph
  import opened StageProofs
  import opened StageTheorems

  /** What each native tool is there for. */
  ghost predicate ToolUsed(cfg: Config, tool: Tool, t: Target) {
    match tool
    case Llvm => "llvm" in cfg.backends || cfg.lldEnabled || cfg.sanitizers != {}
    case Lld => cfg.lldEnabled
    case LldWrapper => cfg.lldEnabled
    case Sanitizers => t in cfg.sanitizers
    case Libunwind => t in cfg.libunwind || (t in cfg.musl && t !in cfg.muslWithoutUnwind)
    case CrtBeginEnd => t in cfg.musl
  }

  /** Which targets need what beside their libraries; the first match of musl, WASI and
      windows-gnu decides on the self-contained directory. */
  ghost predicate CopyUsed(cfg: Config, c: Compiler, t: Target, p: Payload) {
    match p
    case SanitizerLibs => t in cfg.sanitizers && c.stage != 0
    case UnwindLib => t in cfg.libunwind
    case MuslObjects => t in cfg.musl
    case CrtObjects => t in cfg.musl
    case SelfContainedUnwind => t in cfg.musl && t !in cfg.muslWithoutUnwind
    case WasiObjects => t in cfg.wasi && t !in cfg.musl
    case GnuObjects => t in cfg.windowsGnu && t !in cfg.musl && t !in cfg.wasi
    case StartupFiles => t in cfg.windowsGnu
    case Libs(_) => true
    case SelfContainedLibs(_) => true
    case HostLibs(_) => true
  }

  ghost predicate StepUsed(cfg: Config, s: Step) {
    s.Native? ==> ToolUsed(cfg, s.tool, s.triple)
  }

  ghost predicate EventUsed(cfg: Config, e: Event) {
    match e
    case Ready(tool, t) => ToolUsed(cfg, tool, t)
    case CopyInto(c, t, p) => CopyUsed(cfg, c, t, p)
    case _ => true
  }

  ghost predicate OpUsed(cfg: Config, op: Op<Step, Event>) {
    && (op.Call? ==> StepUsed(cfg, op.step))
    && (op.Emit? ==> EventUsed(cfg, op.event))
  }

  // ------------------------------------------------------------------ one body

  lemma ThirdPartyUsed(cfg: Config, c: Compiler, t: Target, op: Op<Step, Event>)
    requires op in ThirdPartyOps(cfg, c, t)
    ensures OpUsed(cfg, op)
  {
  }

  lemma SelfContainedUsed(cfg: Config, c: Compiler, t: Target, op: Op<Step, Event>)
    requires op in SelfContainedOps(cfg, c, t)
    ensures OpUsed(cfg, op)
  {
  }

  /** The other operations of `Std` are requests for steps other than tools, and cargo's. */
  lemma StdRest(cfg: Config, c: Compiler, t: Target, k: nat, op: Op<Step, Event>)
    requires op in StdBody(cfg, c, t, k) && op !in ThirdPartyOps(cfg, c, t) && op !in SelfContainedOps(cfg, c, t)
    ensures (op.Call? ==> !op.step.Native?) && (op.Emit? ==> op.event.CargoBuild? || op.event.WriteStamp?)
  {
  }

  lemma StdUsed(cfg: Config, c: Compiler, t: Target, k: nat, op: Op<Step, Event>)
    requires op in StdBody(cfg, c, t, k)
    ensures OpUsed(cfg, op)
  {
    if op in ThirdPartyOps(cfg, c, t) {
      ThirdPartyUsed(cfg, c, t, op);
    } else if op in SelfContainedOps(cfg, c, t) {
      SelfContainedUsed(cfg, c, t, op);
    } else {
      StdRest(cfg, c, t, k, op);
    }
  }

  lemma RustcUsed(cfg: Config, c: Compiler, t: Target, k: nat, op: Op<Step, Event>)
    requires op in RustcBody(cfg, c, t, k)
    ensures OpUsed(cfg, op)
  {
  }

  lemma CodegenUsed(cfg: Config, c: Compiler, t: Target, backend: string, op: Op<Step, Event>)
    requires op in CodegenBody(cfg, c, t, backend)
    ensures OpUsed(cfg, op)
  {
  }

  lemma AssembleUsed(cfg: Config, c: Compiler, op: Op<Step, Event>)
    requires op in AssembleBody(cfg, c)
    ensures OpUsed(cfg, op)
  {
    if c.stage > 0 && !cfg.downloadRustc {
      var b := BuildCompiler(cfg, c.stage - 1);
      if op in AssembleLibs(cfg, b, c) {
        LibsUsed(cfg, b, c, op);
      } else if op in AssembleSysroot(cfg, b, c) {
        if op in BackendCopies(b, c, cfg.backends) { BackendCopiesOnly(b, c, cfg.backends, op); }
      } else {
        assert op in AssembleFinish(cfg, c);
      }
    }
  }

  lemma LibsUsed(cfg: Config, b: Compiler, c: Compiler, op: Op<Step, Event>)
    requires op in AssembleLibs(cfg, b, c)
    ensures OpUsed(cfg, op)
  {
    if op in BackendCalls(b, c.host, cfg.backends) { BackendCallsOnly(b, c.host, cfg.backends, op); }
  }

  /** A step that is of use asks only for such steps and does only what is of use. */
  lemma BodyUsed(cfg: Config, s: Step, op: Op<Step, Event>)
    requires StepUsed(cfg, s) && op in Body(cfg, s)
    ensures OpUsed(cfg, op)
  {
    match s
    case Assemble(c) => AssembleUsed(cfg, c, op);
    case Std(c, t, k) => StdUsed(cfg, c, t, k, op);
    case Rustc(c, t, k) => RustcUsed(cfg, c, t, k, op);
    case CodegenBackend(c, t, b) => CodegenUsed(cfg, c, t, b, op);
    case Sysroot(c) => if op in WipeOtherStages(cfg, c, 3) { WipesOnly(cfg, c, 3, op); }
    case _ =>
  }

  // ------------------------------------------------------------------ every run

  /** In every run, also with a downloaded compiler and also when it panics, only tools that are
      used are made, and only objects that a target needs are copied. */
  lemma NothingForNothing(cfg: Config, q: Request, r: Outcome)
    requires BootRun(cfg, q, r)
    ensures forall i :: 0 <= i < |r.Log()| ==> EventUsed(cfg, r.Log()[i].event)
  {
    var g := BootGraph(cfg, q);
    var p := set s | s in g.universe && StepUsed(cfg, s);
    forall s, op | s in p && op in g.body(s) && op.Call? ensures op.step in p { BodyUsed(cfg, s, op); }
    AllStay(g, p, Empty(), q.roots, r);
    forall i | 0 <= i < |r.Log()| ensures EventUsed(cfg, r.Log()[i].event) {
      EventOrigin(cfg, q, r, i);
      assert r.Log()[i] in r.Log();
      BodyUsed(cfg, r.Log()[i].step, Emit(r.Log()[i].event));
    }
  }
}
