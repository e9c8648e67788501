/** Where stamps and sysroots are on disk.  The model of the bootstrap names a stamp by mode,
    compiler and triple, and a sysroot by a `Dir`; here is why it may: the paths the build
    system derives from these are different for different names, and no sysroot that is wiped
    contains a stamp. */
module StagePaths {
  import opened StageGraph

  /** A path below the output directory, by components. */
  type Path = seq<string>

  // ------------------------------------------------------------------ numbers in names

  function Digit(d: nat): char
    requires d < 10
  {
    '0' + d as char
  }

  predicate IsDigit(ch: char) { '0' <= ch <= '9' }

  /** `format!("{}", n)`. */
  function Decimal(n: nat): string {
    if n < 10 then [Digit(n)] else Decimal(n / 10) + [Digit(n % 10)]
  }

  function Value(s: string): int {
    if s == "" then 0 else 10 * Value(s[..|s| - 1]) + (s[|s| - 1] as int - '0' as int)
  }

  lemma {:induction false} DecimalReads(n: nat)
    ensures Value(Decimal(n)) == n
    ensures Decimal(n) != "" && forall i :: 0 <= i < |Decimal(n)| ==> IsDigit(Decimal(n)[i])
  {
    if n >= 10 {
      DecimalReads(n / 10);
      var front := Decimal(n / 10);
      assert (front + [Digit(n % 10)])[..|front|] == front;
    } else {
      assert [Digit(n)][..0] == "";
    }
  }

  lemma {:induction false} DigitsStop(a: string, x: string, b: string, y: string)
    requires a + x == b + y && (x == "" || !IsDigit(x[0])) && forall i :: 0 <= i < |b| ==> IsDigit(b[i])
    ensures |b| <= |a|
  {
    assert forall i :: 0 <= i < |b| ==> IsDigit((b + y)[i]);
    assert x != "" ==> (a + x)[|a|] == x[0];
    assert |a + x| == |b + y|;
  }

  /** A number followed by something that does not begin with a digit can be told apart. */
  lemma {:induction false} NumberEnds(m: nat, x: string, n: nat, y: string)
    requires (x == "" || !IsDigit(x[0])) && (y == "" || !IsDigit(y[0]))
    requires Decimal(m) + x == Decimal(n) + y
    ensures m == n && x == y
  {
    var a, b, s := Decimal(m), Decimal(n), Decimal(m) + x;
    DecimalReads(m);
    DecimalReads(n);
    DigitsStop(a, x, b, y);
    DigitsStop(b, y, a, x);
    assert a == s[..|a|] && b == s[..|b|] && x == s[|a|..] && y == s[|b|..];
  }

  // ------------------------------------------------------------------ stamps

  function Suffix(mode: Mode): string {
    match mode
    case StdMode => "-std"
    case RustcMode => "-rustc"
    case CodegenMode(_) => "-codegen"
  }

  /** `Build::stage_out`. */
  function StageOut(c: Compiler, mode: Mode): Path {
    [c.host, "stage" + Decimal(c.stage) + Suffix(mode)]
  }

  /** `Build::cargo_out`; `cargoDir` is `release` or `debug`. */
  function CargoOut(cargoDir: string, c: Compiler, mode: Mode, t: Target): Path {
    StageOut(c, mode) + [t, cargoDir]
  }

  function StampName(mode: Mode): string {
    match mode
    case StdMode => ".libstd.stamp"
    case RustcMode => ".librustc.stamp"
    case CodegenMode(backend) => ".librustc_codegen_" + backend + ".stamp"
  }

  /** `libstd_stamp`, `librustc_stamp` and `codegen_backend_stamp`. */
  function StampPath(cargoDir: string, mode: Mode, c: Compiler, t: Target): Path {
    CargoOut(cargoDir, c, mode, t) + [StampName(mode)]
  }

  lemma {:induction false} StageNames(m: nat, x: string, n: nat, y: string)
    requires (x == "" || !IsDigit(x[0])) && (y == "" || !IsDigit(y[0]))
    ensures "stage" + Decimal(m) + x == "stage" + Decimal(n) + y ==> m == n && x == y
  {
    if "stage" + Decimal(m) + x == "stage" + Decimal(n) + y {
      assert Decimal(m) + x == ("stage" + Decimal(m) + x)[5..];
      assert Decimal(n) + y == ("stage" + Decimal(n) + y)[5..];
      NumberEnds(m, x, n, y);
    }
  }

  /** Output directories are shared only by the backends of one compiler. */
  lemma {:induction false} OutputsApart(c: Compiler, mode: Mode, c': Compiler, mode': Mode)
    ensures StageOut(c, mode) == StageOut(c', mode') ==>
              c == c' && (mode == mode' || (mode.CodegenMode? && mode'.CodegenMode?))
  {
    var p, q := StageOut(c, mode), StageOut(c', mode');
    if p == q {
      assert p[0] == c.host && q[0] == c'.host;
      assert p[1] == "stage" + Decimal(c.stage) + Suffix(mode) && q[1] == "stage" + Decimal(c'.stage) + Suffix(mode');
      StageNames(c.stage, Suffix(mode), c'.stage, Suffix(mode'));
      assert Suffix(mode)[1] == Suffix(mode')[1];
    }
  }

  /** Different mode, compiler or triple, different stamp file. */
  lemma {:induction false} StampsApart(cargoDir: string, mode: Mode, c: Compiler, t: Target, mode': Mode, c': Compiler, t': Target)
    ensures StampPath(cargoDir, mode, c, t) == StampPath(cargoDir, mode', c', t')
       <==> mode == mode' && c == c' && t == t'
  {
    var p, q := StampPath(cargoDir, mode, c, t), StampPath(cargoDir, mode', c', t');
    if p == q {
      assert p[..2] == StageOut(c, mode) && q[..2] == StageOut(c', mode') && p[2] == t && q[2] == t';
      OutputsApart(c, mode, c', mode');
      if mode.CodegenMode? && mode'.CodegenMode? {
        BackendNames(mode.backend, mode'.backend, p[4]);
      }
    }
  }

  lemma {:induction false} BackendNames(a: string, b: string, name: string)
    requires name == ".librustc_codegen_" + a + ".stamp" == ".librustc_codegen_" + b + ".stamp"
    ensures a == b
  {
    assert a == name[18..|name| - 6] && b == name[18..|name| - 6];
  }

  // ------------------------------------------------------------------ sysroots

  function DirText(name: DirName): string {
    match name
    case Stage0Sysroot => "stage0-sysroot"
    case CiRustcSysroot => "ci-rustc-sysroot"
    case StageDir(stage) => "stage" + Decimal(stage)
  }

  function DirPath(d: Dir): Path {
    [d.host, DirText(d.name)]
  }

  /** Every sysroot name but the downloaded one is `stage`, a number and a suffix. */
  lemma {:induction false} DirParts(name: DirName)
    requires !name.CiRustcSysroot?
    ensures DirText(name) == if name.StageDir? then "stage" + Decimal(name.stage) + "" else "stage" + Decimal(0) + "-sysroot"
  {
  }

  lemma {:induction false} DirTextsApart(a: DirName, b: DirName)
    ensures DirText(a) == DirText(b) <==> a == b
  {
    if DirText(a) == DirText(b) {
      if a.CiRustcSysroot? || b.CiRustcSysroot? {
        assert DirText(a)[0] == DirText(b)[0];
      } else {
        DirParts(a);
        DirParts(b);
        StageNames(if a.StageDir? then a.stage else 0, if a.StageDir? then "" else "-sysroot",
                   if b.StageDir? then b.stage else 0, if b.StageDir? then "" else "-sysroot");
      }
    }
  }

  /** Without a downloaded compiler, two compilers never share a sysroot; and no sysroot, whose
      removal would take everything below it along, has a stamp below it. */
  lemma {:induction false} WipesSpareStamps(cfg: Config, a: Compiler, b: Compiler, cargoDir: string, mode: Mode, c: Compiler, t: Target)
    requires !cfg.downloadRustc
    ensures DirPath(SysrootDir(cfg, a)) == DirPath(SysrootDir(cfg, b)) <==> a == b
    ensures !(DirPath(SysrootDir(cfg, a)) <= StampPath(cargoDir, mode, c, t))
  {
    var d, p := SysrootDir(cfg, a), StampPath(cargoDir, mode, c, t);
    DirTextsApart(d.name, SysrootDir(cfg, b).name);
    assert DirPath(d)[0] == a.host && DirPath(d)[1] == DirText(d.name);
    assert DirPath(SysrootDir(cfg, b))[0] == b.host && DirPath(SysrootDir(cfg, b))[1] == DirText(SysrootDir(cfg, b).name);
    var suffix := if d.name.StageDir? then "" else "-sysroot";
    assert suffix != "" ==> suffix[2] == 'y';
    assert Suffix(mode)[2] != 'y';
    if DirPath(d) <= p {
      assert DirPath(d)[1] == p[1] == "stage" + Decimal(c.stage) + Suffix(mode);
      DirParts(d.name);
      StageNames(if d.name.StageDir? then d.name.stage else 0, suffix, c.stage, Suffix(mode));
    }
  }

  // ------------------------------------------------------------------ the names themselves

  /** Where the stamps of a compiler's three kinds of builds are. */
  lemma {:induction false} StampFiles(cargoDir: string, c: Compiler, t: Target, backend: string)
    ensures StampPath(cargoDir, StdMode, c, t)
         == [c.host, "stage" + Decimal(c.stage) + "-std", t, cargoDir, ".libstd.stamp"]
    ensures StampPath(cargoDir, RustcMode, c, t)
         == [c.host, "stage" + Decimal(c.stage) + "-rustc", t, cargoDir, ".librustc.stamp"]
    ensures StampPath(cargoDir, CodegenMode(backend), c, t)
         == [c.host, "stage" + Decimal(c.stage) + "-codegen", t, cargoDir, ".librustc_codegen_" + backend + ".stamp"]
  {
  }

  /** Where a compiler's sysroot is: a directory of its own for stage 0; with a downloaded compiler,
      one that all but the top stage share; otherwise the stage's. */
  lemma {:induction false} SysrootNames(cfg: Config, c: Compiler, path: Path)
    requires path == DirPath(SysrootDir(cfg, c))
    ensures c.stage == 0 ==> path == [c.host, "stage0-sysroot"]
    ensures c.stage != 0 && cfg.downloadRustc && c.stage != cfg.topStage ==> path == [c.host, "ci-rustc-sysroot"]
    ensures c.stage != 0 && (!cfg.downloadRustc || c.stage == cfg.topStage) ==> path == [c.host, "stage" + Decimal(c.stage)]
  {
  }
}
