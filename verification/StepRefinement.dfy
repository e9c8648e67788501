/** `Ensure` against recursion with no cache and no stack: it returns what that recursion
    returns, and panics exactly where that recursion would not end. */
module StepRefinement {
  import opened Wrappers
  import opened StepEngine

  // ------------------------------------------------------------------ plain recursion

  lemma {:induction false} FuelMonotone<S, E, V>(g: Graph<S, E, V>, n: nat, n': nat, s: S)
    requires n <= n' && Plain(g, n, s).Some?
    ensures Plain(g, n', s) == Plain(g, n, s)
    decreases n, 0
  {
    FuelMonotoneFrom(g, n - 1, n' - 1, s, 0, []);
  }

  lemma {:induction false} FuelMonotoneFrom<S, E, V>(g: Graph<S, E, V>, n: nat, n': nat, s: S, i: nat, outs: seq<V>)
    requires n <= n' && i <= |g.body(s)| && PlainFrom(g, n, s, i, outs).Some?
    ensures PlainFrom(g, n', s, i, outs) == PlainFrom(g, n, s, i, outs)
    decreases n, 1 + |g.body(s)| - i
  {
    if i < |g.body(s)| {
      match g.body(s)[i]
      case Abort =>
      case Emit(_) => FuelMonotoneFrom(g, n, n', s, i + 1, outs);
      case Call(d) =>
        FuelMonotone(g, n, n', d);
        FuelMonotoneFrom(g, n, n', s, i + 1, outs + [Plain(g, n, d).value]);
    }
  }

  /** The plain recursion has at most one outcome. */
  lemma YieldsOne<S, E, V>(g: Graph<S, E, V>, s: S, v: V, w: V)
    requires Yields(g, s, v) && Yields(g, s, w)
    ensures v == w
  {
    var a: nat :| Plain(g, a, s) == Some(v);
    var b: nat :| Plain(g, b, s) == Some(w);
    if a <= b { FuelMonotone(g, a, b, s); } else { FuelMonotone(g, b, a, s); }
  }

  /** If the recursion ends, it ends sooner in everything called, and meets no assertion. */
  lemma {:induction false} CallsEnd<S, E, V>(g: Graph<S, E, V>, n: nat, s: S, i: nat, outs: seq<V>, op: Op<S, E>)
    requires i <= |g.body(s)| && PlainFrom(g, n, s, i, outs).Some? && op in g.body(s)[i..]
    ensures !op.Abort? && (op.Call? ==> Plain(g, n, op.step).Some?)
    decreases |g.body(s)| - i
  {
    assert g.body(s)[i..] == [g.body(s)[i]] + g.body(s)[i + 1..];
    if op != g.body(s)[i] {
      match g.body(s)[i]
      case Abort =>
      case Emit(_) => CallsEnd(g, n, s, i + 1, outs, op);
      case Call(d) => CallsEnd(g, n, s, i + 1, outs + [Plain(g, n, d).value], op);
    }
  }

  lemma EndsBelow<S, E, V>(g: Graph<S, E, V>, n: nat, s: S, op: Op<S, E>)
    requires Plain(g, n, s).Some? && op in g.body(s)
    ensures n > 0 && !op.Abort? && (op.Call? ==> Plain(g, n - 1, op.step).Some?)
  {
    assert g.body(s)[0..] == g.body(s);
    CallsEnd(g, n - 1, s, 0, [], op);
  }

  lemma {:induction false} EndsAlong<S, E, V>(g: Graph<S, E, V>, n: nat, p: seq<S>)
    requires Walk(g, p) && Plain(g, n, p[0]).Some?
    ensures n >= |p| && Plain(g, n - (|p| - 1), p[|p| - 1]).Some?
    decreases |p|
  {
    if |p| > 1 {
      assert Calls(g, p[0], p[1]);
      EndsBelow(g, n, p[0], Call(p[1]));
      assert Walk(g, p[1..]) by {
        forall i | 0 < i < |p[1..]| ensures Calls(g, p[1..][i - 1], p[1..][i]) {
          assert Calls(g, p[i], p[i + 1]);
        }
      }
      EndsAlong(g, n - 1, p[1..]);
    } else {
      assert n > 0;
    }
  }

  /** A closed walk never ends, whatever the fuel. */
  lemma {:induction false} LoopNeverEnds<S, E, V>(g: Graph<S, E, V>, n: nat, p: seq<S>)
    requires Walk(g, p) && |p| > 1 && p[0] == p[|p| - 1]
    ensures Plain(g, n, p[0]).None?
    decreases n
  {
    if Plain(g, n, p[0]).Some? {
      EndsAlong(g, n, p);
      LoopNeverEnds(g, n - (|p| - 1), p);
    }
  }

  lemma CycleNeverEnds<S, E, V>(g: Graph<S, E, V>, n: nat, p: seq<S>)
    requires Walk(g, p) && Repeats(p)
    ensures Plain(g, n, p[0]).None?
  {
    if Plain(g, n, p[0]).Some? {
      var j :| 0 <= j < |p| - 1 && p[j] == p[|p| - 1];
      var lead, loop := p[..j + 1], p[j..];
      assert Walk(g, lead) by {
        forall i | 0 < i < |lead| ensures Calls(g, lead[i - 1], lead[i]) { assert Calls(g, p[i - 1], p[i]); }
      }
      assert Walk(g, loop) by {
        forall i | 0 < i < |loop| ensures Calls(g, loop[i - 1], loop[i]) { assert Calls(g, p[j + i - 1], p[j + i]); }
      }
      EndsAlong(g, n, lead);
      LoopNeverEnds(g, n - j, loop);
    }
  }

  lemma AbortNeverEnds<S, E, V>(g: Graph<S, E, V>, n: nat, p: seq<S>)
    requires Walk(g, p) && Abort in g.body(p[|p| - 1])
    ensures Plain(g, n, p[0]).None?
  {
    if Plain(g, n, p[0]).Some? {
      EndsAlong(g, n, p);
      EndsBelow(g, n - (|p| - 1), p[|p| - 1], Abort);
    }
  }

  // ------------------------------------------------------------------ cached values

  /** Each finished step's cached value is what the plain recursion computes for it. */
  lemma {:induction false} CachedIsPlain<S, E, V>(
    g: Graph<S, E, V>, cache: map<S, V>, runs: seq<Record<S>>, i: nat)
    requires History(g, cache, runs) && i < |runs|
    ensures runs[i].step in cache && Plain(g, i + 1, runs[i].step) == Some(cache[runs[i].step])
    decreases i, 1
  {
    var s := runs[i].step;
    assert runs[i] in runs;
    assert Placed(g, runs, i) && Valued(g, cache, s);
    CachedIsPlainFrom(g, cache, runs, i, s, 0);
  }

  lemma {:induction false} CachedIsPlainFrom<S, E, V>(
    g: Graph<S, E, V>, cache: map<S, V>, runs: seq<Record<S>>, i: nat, s: S, k: nat)
    requires History(g, cache, runs) && i < |runs| && k <= |g.body(s)|
    requires Ready(g, Steps(runs[..i]), s) && Ready(g, cache.Keys, s)
    ensures PlainFrom(g, i, s, k, Outs(g, cache, s, k)) == Some(Outs(g, cache, s, |g.body(s)|))
    decreases i, 0, |g.body(s)| - k
  {
    if k < |g.body(s)| {
      var op := g.body(s)[k];
      assert op in g.body(s);
      if op.Call? {
        var r :| r in runs[..i] && r.step == op.step;
        var j :| 0 <= j < i && runs[j] == r;
        CachedIsPlain(g, cache, runs, j);
        FuelMonotone(g, j + 1, i, op.step);
      }
      CachedIsPlainFrom(g, cache, runs, i, s, k + 1);
    }
  }

  lemma CachedYields<S, E, V>(g: Graph<S, E, V>, cache: map<S, V>, runs: seq<Record<S>>, s: S)
    requires History(g, cache, runs) && s in cache
    ensures Yields(g, s, cache[s])
  {
    var r :| r in runs && r.step == s;
    var i :| 0 <= i < |runs| && runs[i] == r;
    CachedIsPlain(g, cache, runs, i);
  }

  // ------------------------------------------------------------------ panics

  ghost predicate TraceOk<S, E, V>(g: Graph<S, E, V>, stack: seq<S>, why: Reason, trace: seq<S>) {
    && Walk(g, trace) && stack <= trace
    && (why == Cycle ==> Repeats(trace))
    && (why == Failed ==> Abort in g.body(trace[|trace| - 1]))
  }

  lemma WalkSnoc<S, E, V>(g: Graph<S, E, V>, p: seq<S>, d: S)
    requires p == [] || (Walk(g, p) && Calls(g, p[|p| - 1], d))
    ensures Walk(g, p + [d])
  {
  }

  /** The steps a cycle panic prints are a walk in the graph that comes back to itself. */
  lemma {:induction false} EnsureTrace<S, E, V>(
    g: Graph<S, E, V>, stack: seq<S>, m: Mem<S, E, V>, s: S, r: Result<S, E, V>)
    requires Closed(g) && s in g.universe && Walk(g, stack + [s])
    requires r == Ensure(g, stack, m, s) && r.Panic? && (r.why == Cycle || r.why == Failed)
    ensures TraceOk(g, stack + [s], r.why, r.trace)
    decreases g.universe - StackSet(stack), 0, 0
  {
    if s in stack {
      assert (stack + [s])[..|stack|] == stack;
    } else {
      var m1 := m.(spent := 0, ticks := m.ticks + 1);
      assert s in g.universe - StackSet(stack) && s !in g.universe - StackSet(stack + [s]);
      var b := RunFrom(g, stack + [s], m1, s, 0, []);
      if b.Stop? { RunTrace(g, stack + [s], m1, s, 0, [], b); }
    }
  }

  lemma {:induction false} RunTrace<S, E, V>(
    g: Graph<S, E, V>, stack: seq<S>, m: Mem<S, E, V>, s: S, i: nat, outs: seq<V>, r: BodyResult<S, E, V>)
    requires Closed(g) && s in g.universe && i <= |g.body(s)|
    requires Walk(g, stack) && stack[|stack| - 1] == s
    requires r == RunFrom(g, stack, m, s, i, outs) && r.Stop? && (r.why == Cycle || r.why == Failed)
    ensures TraceOk(g, stack, r.why, r.trace)
    decreases g.universe - StackSet(stack), 1, |g.body(s)| - i
  {
    if i < |g.body(s)| {
      match g.body(s)[i]
      case Abort =>
      case Emit(e) => RunTrace(g, stack, m.(log := m.log + [Entry(s, i, e)]), s, i + 1, outs, r);
      case Call(d) =>
        assert Calls(g, s, d);
        WalkSnoc(g, stack, d);
        var c := Ensure(g, stack, m, d);
        if c.Panic? {
          EnsureTrace(g, stack, m, d, c);
          assert stack <= stack + [d];
        } else {
          RunTrace(g, stack, c.mem, s, i + 1, outs + [c.value], r);
        }
    }
  }

  // ------------------------------------------------------------------ main results

  /** A top-level `ensure`, on any graph: it returns exactly when the uncached recursion
      comes to an end, and then with the only value of that; neither the write-once assertion nor the
      duration subtraction can fail; the memory keeps its invariant. */
  lemma EnsureRefines<S, E, V>(g: Graph<S, E, V>, m: Mem<S, E, V>, s: S, r: Result<S, E, V>)
    requires Inv(g, [], m) && s in g.universe && r == Ensure(g, [], m, s)
    ensures r.Ok? <==> exists v :: Yields(g, s, v)
    ensures r.Ok? ==> Yields(g, s, r.value) && Inv(g, [], r.mem) && Advances(g, m, r.mem)
    ensures forall v :: r.Ok? && Yields(g, s, v) ==> v == r.value
    ensures r.Panic? ==> TraceOk(g, [s], r.why, r.trace) && r.why in {Cycle, Failed}
  {
    EnsureInv(g, [], m, s, r);
    if r.Ok? {
      CachedYields(g, r.mem.cache, r.mem.runs, s);
      forall v | Yields(g, s, v) ensures v == r.value { YieldsOne(g, s, v, r.value); }
    } else {
      assert [] + [s] == [s];
      EnsureTrace(g, [], m, s, r);
      forall fuel: nat ensures Plain(g, fuel, s).None? {
        if r.why == Cycle { CycleNeverEnds(g, fuel, r.trace); } else { AbortNeverEnds(g, fuel, r.trace); }
      }
    }
  }

  /** "Cycle in build" is reported exactly for the steps that reach a cycle, provided no
      assertion of a step's own `run` is in reach. */
  lemma PanicsExactly<S(!new), E, V>(g: Graph<S, E, V>, m: Mem<S, E, V>, s: S, r: Result<S, E, V>)
    requires Inv(g, [], m) && s in g.universe && r == Ensure(g, [], m, s)
    ensures r.Panic? <==> ReachesCycle(g, s) || ReachesAbort(g, s)
    ensures !ReachesAbort(g, s) ==> ((r.Panic? && r.why == Cycle) <==> ReachesCycle(g, s))
  {
    EnsureRefines(g, m, s, r);
    if ReachesCycle(g, s) {
      var p :| Walk(g, p) && p[0] == s && Repeats(p);
      forall fuel: nat { CycleNeverEnds(g, fuel, p); }
    }
    if ReachesAbort(g, s) {
      var p :| Walk(g, p) && p[0] == s && Abort in g.body(p[|p| - 1]);
      forall fuel: nat { AbortNeverEnds(g, fuel, p); }
    }
  }

  lemma EmptyInv<S, E, V>(g: Graph<S, E, V>)
    requires Closed(g) && Monotone(g)
    ensures Inv(g, [], Empty<S, E, V>())
  {
  }

  ghost predicate AllYield<S, E, V>(g: Graph<S, E, V>, roots: seq<S>, vs: seq<V>) {
    |vs| == |roots| && forall i :: 0 <= i < |roots| ==> Yields(g, roots[i], vs[i])
  }

  /** Any sequence of top-level requests: all succeed exactly when each of them has a plain
      value, in which case those values are returned, and the time cell has grown by the sum of
      the exclusive times of the steps that ran. */
  lemma {:induction false} EnsureAllRefines<S(!new), E, V(!new)>(
    g: Graph<S, E, V>, m: Mem<S, E, V>, roots: seq<S>, r: BodyResult<S, E, V>)
    requires Inv(g, [], m) && (forall s :: s in roots ==> s in g.universe)
    requires r == EnsureAll(g, m, roots)
    ensures r.Done? <==> exists vs :: AllYield(g, roots, vs)
    ensures r.Done? ==> AllYield(g, roots, r.outs) && Inv(g, [], r.mem) && Advances(g, m, r.mem)
    decreases |roots|
  {
    if roots == [] {
      assert AllYield(g, roots, []);
    } else {
      var c := Ensure(g, [], m, roots[0]);
      EnsureRefines(g, m, roots[0], c);
      if c.Ok? {
        var rest := EnsureAll(g, c.mem, roots[1..]);
        EnsureAllRefines(g, c.mem, roots[1..], rest);
        if rest.Done? {
          AdvancesTransitive(g, m, c.mem, rest.mem);
          AllYieldCons(g, roots, c.value, rest.outs);
        }
        forall vs | AllYield(g, roots, vs) ensures AllYield(g, roots[1..], vs[1..]) { AllYieldHead(g, roots, vs); }
      } else {
        forall vs | AllYield(g, roots, vs) ensures Yields(g, roots[0], vs[0]) { AllYieldHead(g, roots, vs); }
      }
    }
  }

  lemma AllYieldHead<S, E, V>(g: Graph<S, E, V>, roots: seq<S>, vs: seq<V>)
    requires roots != [] && AllYield(g, roots, vs)
    ensures Yields(g, roots[0], vs[0]) && AllYield(g, roots[1..], vs[1..])
  {
  }

  lemma AllYieldCons<S, E, V>(g: Graph<S, E, V>, roots: seq<S>, v: V, vs: seq<V>)
    requires roots != [] && Yields(g, roots[0], v) && AllYield(g, roots[1..], vs)
    ensures AllYield(g, roots, [v] + vs)
  {
  }

  lemma RunsDiffer<S, E, V>(g: Graph<S, E, V>, runs: seq<Record<S>>, i: nat, j: nat)
    requires i < j < |runs| && Placed(g, runs, j)
    ensures runs[i].step != runs[j].step
  {
    assert runs[i] in runs[..j];
  }

  /** Steps finish in topological order, each at most once. */
  lemma FinishOrder<S, E, V>(g: Graph<S, E, V>, cache: map<S, V>, runs: seq<Record<S>>, i: nat, d: S)
    requires History(g, cache, runs) && i < |runs| && Calls(g, runs[i].step, d)
    ensures exists j :: 0 <= j < i && runs[j].step == d
    ensures forall j :: 0 <= j < |runs| && runs[j].step == runs[i].step ==> j == i
  {
    assert Placed(g, runs, i);
    assert Call(d) in g.body(runs[i].step);
    var r :| r in runs[..i] && r.step == d;
    var j :| 0 <= j < i && runs[j] == r;
    forall j | 0 <= j < |runs| && j != i ensures runs[j].step != runs[i].step {
      assert Placed(g, runs, j);
      if j < i { RunsDiffer(g, runs, j, i); } else { RunsDiffer(g, runs, i, j); }
    }
  }

  /** One top-level call adds to the cell the wall time of that call, and exactly that much is
      shared out as exclusive time among the steps that ran in it; a cache hit adds nothing. */
  lemma CallTime<S, E, V>(g: Graph<S, E, V>, m: Mem<S, E, V>, s: S, r: Result<S, E, V>)
    requires Inv(g, [], m) && s in g.universe && r == Ensure(g, [], m, s) && r.Ok?
    ensures s in m.cache ==> r.mem == m
    ensures s !in m.cache ==>
              && |r.mem.runs| > |m.runs| && m.runs <= r.mem.runs
              && var last := r.mem.runs[|r.mem.runs| - 1];
                 && last.step == s
                 && last.total == g.clock(r.mem.ticks - 1) - g.clock(m.ticks)
                 && OwnSum(r.mem.runs) - OwnSum(m.runs) == last.total == r.mem.spent - m.spent
  {
    EnsureInv(g, [], m, s, r);
    if s !in m.cache {
      var m1 := m.(spent := 0, ticks := m.ticks + 1);
      var b := RunFrom(g, [] + [s], m1, s, 0, []);
      RunInv(g, [] + [s], m1, s, 0, [], b);
    }
  }

  /** The wall time of a top-level call that took the builder from `m` to `m'`; none if it was a
      cache hit, which does not read the clock. */
  ghost function TopTime<S, E, V>(g: Graph<S, E, V>, m: Mem<S, E, V>, m': Mem<S, E, V>): int {
    if m'.ticks <= m.ticks then 0 else g.clock(m'.ticks - 1) - g.clock(m.ticks)
  }

  ghost function TopTimes<S, E, V>(g: Graph<S, E, V>, m: Mem<S, E, V>, roots: seq<S>): int
    requires Closed(g) && forall s :: s in roots ==> s in g.universe
    decreases |roots|
  {
    if roots == [] then 0
    else
      match Ensure(g, [], m, roots[0])
      case Panic(_, _, _) => 0
      case Ok(m', _) => TopTime(g, m, m') + TopTimes(g, m', roots[1..])
  }

  lemma {:induction false} TimesAddUp<S(!new), E, V(!new)>(
    g: Graph<S, E, V>, m: Mem<S, E, V>, roots: seq<S>, r: BodyResult<S, E, V>)
    requires Inv(g, [], m) && (forall s :: s in roots ==> s in g.universe)
    requires r == EnsureAll(g, m, roots) && r.Done?
    ensures OwnSum(r.mem.runs) - OwnSum(m.runs) == TopTimes(g, m, roots) == r.mem.spent - m.spent
    decreases |roots|
  {
    if roots != [] {
      var c := Ensure(g, [], m, roots[0]);
      CallTime(g, m, roots[0], c);
      EnsureRefines(g, m, roots[0], c);
      TimesAddUp(g, c.mem, roots[1..], EnsureAll(g, c.mem, roots[1..]));
    }
  }

  /** From a fresh builder, the exclusive times of all steps that ran add up to the total of the
      wall times of the top-level calls, which is what the cell holds at the end. */
  lemma ExclusiveTimesAddUp<S(!new), E, V(!new)>(g: Graph<S, E, V>, roots: seq<S>, r: BodyResult<S, E, V>)
    requires Closed(g) && Monotone(g) && (forall s :: s in roots ==> s in g.universe)
    requires r == EnsureAll(g, Empty(), roots) && r.Done?
    ensures OwnSum(r.mem.runs) == TopTimes(g, Empty(), roots) == r.mem.spent <= g.clock(r.mem.ticks) - g.clock(0)
  {
    EmptyInv(g);
    EnsureAllRefines(g, Empty(), roots, r);
    TimesAddUp(g, Empty(), roots, r);
  }

  /** Steps without assertions that ask only for one another, going down in some rank. */
  ghost predicate Ranked<S, E, V>(g: Graph<S, E, V>, good: set<S>, rank: S -> nat) {
    && good <= g.universe
    && forall a, op :: a in good && op in g.body(a) ==>
         !op.Abort? && (op.Call? ==> op.step in good && rank(op.step) < rank(a))
  }

  lemma {:induction false} RankedYields<S, E, V>(g: Graph<S, E, V>, good: set<S>, rank: S -> nat, s: S, n: nat)
    requires Ranked(g, good, rank) && s in good && n > rank(s)
    ensures Plain(g, n, s).Some?
    decreases n, 0
  {
    RankedYieldsFrom(g, good, rank, s, n - 1, 0, []);
  }

  lemma {:induction false} RankedYieldsFrom<S, E, V>(
    g: Graph<S, E, V>, good: set<S>, rank: S -> nat, s: S, n: nat, i: nat, outs: seq<V>)
    requires Ranked(g, good, rank) && s in good && n >= rank(s) && i <= |g.body(s)|
    ensures PlainFrom(g, n, s, i, outs).Some?
    decreases n, 1 + |g.body(s)| - i
  {
    if i < |g.body(s)| {
      var op := g.body(s)[i];
      assert op in g.body(s);
      if op.Call? {
        RankedYields(g, good, rank, op.step, n);
        RankedYieldsFrom(g, good, rank, s, n, i + 1, outs + [Plain(g, n, op.step).value]);
      } else {
        RankedYieldsFrom(g, good, rank, s, n, i + 1, outs);
      }
    }
  }

  /** `ensure` succeeds on every step of such a set, whatever else the graph holds. */
  lemma RankedBuilds<S, E, V>(g: Graph<S, E, V>, good: set<S>, rank: S -> nat, m: Mem<S, E, V>, s: S, r: Result<S, E, V>)
    requires Ranked(g, good, rank) && s in good && Inv(g, [], m) && r == Ensure(g, [], m, s)
    ensures r.Ok?
  {
    var n := rank(s) + 1;
    RankedYields(g, good, rank, s, n);
    assert Yields(g, s, Plain(g, n, s).value);
    EnsureRefines(g, m, s, r);
  }
}
