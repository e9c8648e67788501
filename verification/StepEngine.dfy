/** The memoising step evaluator of `Builder::ensure`, as a function on memories.

    A step's `run` is a list of operations: ask for another step, perform an observable
    effect, or hit an assertion.  `Ensure` follows the evaluator branch by branch (cycle check
    over the stack, cache lookup, the two clock readings around `run`, write-once `put`); the
    lemmas relate it to recursion with neither a cache nor a stack.  Class `Builder.Builder`
    is the same evaluator updating its fields in place. */
module StepEngine {
  import opened Wrappers

  datatype Op<+S, +E> = Call(step: S) | Emit(event: E) | Abort

  /** `universe` is a finite set of steps closed under `Call`; `clock(i)` is the i-th reading
      of the clock. */
  datatype Graph<!S(==), !E, !V> = Graph(
    universe: set<S>,
    body: S -> seq<Op<S, E>>,
    eval: (S, seq<V>) -> V,
    clock: nat -> nat)

  /** What a finished execution of a step reports: its wall time and the part not spent in the
      steps it asked for. */
  datatype Record<+S> = Record(step: S, total: nat, own: nat)

  /** An effect, tagged with the step and the operation that performed it. */
  datatype Entry<+S, +E> = Entry(step: S, pos: nat, event: E)

  /** The evaluator's fields apart from the stack, and the traces it leaves behind.
      `spent` is the cell `time_spent_on_dependencies`; `ticks` counts clock readings. */
  datatype Mem<S(==), +E, +V> = Mem(
    cache: map<S, V>,
    spent: nat,
    ticks: nat,
    runs: seq<Record<S>>,
    log: seq<Entry<S, E>>)

  datatype Reason = Cycle | Failed | SecondTime | TimeUnderflow

  datatype Result<S(==), +E, +V> =
    | Ok(mem: Mem<S, E, V>, value: V)
    | Panic(why: Reason, trace: seq<S>, log: seq<Entry<S, E>>)
  {
    /** The effects performed so far, also when the evaluator panicked. */
    function Log(): seq<Entry<S, E>> { if Ok? then mem.log else log }
  }

  datatype BodyResult<S(==), +E, +V> =
    | Done(mem: Mem<S, E, V>, outs: seq<V>)
    | Stop(why: Reason, trace: seq<S>, log: seq<Entry<S, E>>)
  {
    function Log(): seq<Entry<S, E>> { if Done? then mem.log else log }
  }

  function Empty<S(==), E, V>(): Mem<S, E, V> {
    Mem(map[], 0, 0, [], [])
  }

  ghost predicate Closed<S, E, V>(g: Graph<S, E, V>) {
    forall s, op :: s in g.universe && op in g.body(s) && op.Call? ==> op.step in g.universe
  }

  ghost predicate Monotone<S, E, V>(g: Graph<S, E, V>) {
    forall i: nat, j: nat :: i <= j ==> g.clock(i) <= g.clock(j)
  }

  function StackSet<S>(stack: seq<S>): set<S> {
    set s | s in stack
  }

  // ------------------------------------------------------------------ the evaluator

  /** `Builder::ensure`.  The measure is the set of steps not on the stack. */
  ghost function Ensure<S, E, V>(g: Graph<S, E, V>, stack: seq<S>, m: Mem<S, E, V>, s: S): Result<S, E, V>
    requires Closed(g) && s in g.universe
    decreases g.universe - StackSet(stack), 0, 0
  {
    if s in stack then Panic(Cycle, stack + [s], m.log)
    else if s in m.cache then Ok(m, m.cache[s])
    else
      var start := g.clock(m.ticks);
      var m1 := m.(spent := 0, ticks := m.ticks + 1);
      assert s in g.universe - StackSet(stack) && s !in g.universe - StackSet(stack + [s]);
      match RunFrom(g, stack + [s], m1, s, 0, [])
      case Stop(why, trace, log) => Panic(why, trace, log)
      case Done(m2, outs) => Leave(g, stack, m.spent, m2, s, start, g.eval(s, outs))
  }

  /** The epilogue of `ensure`: read the clock, restore the time cell, put the value. */
  ghost function Leave<S, E, V>(g: Graph<S, E, V>, stack: seq<S>, parent: nat, m2: Mem<S, E, V>,
                                s: S, start: nat, v: V): Result<S, E, V>
  {
    var stop := g.clock(m2.ticks);
    if stop < start || stop - start < m2.spent then Panic(TimeUnderflow, stack + [s], m2.log)
    else if s in m2.cache then Panic(SecondTime, stack + [s], m2.log)
    else
      var dur := stop - start;
      Ok(Mem(m2.cache[s := v], parent + dur, m2.ticks + 1,
             m2.runs + [Record(s, dur, dur - m2.spent)], m2.log), v)
  }

  /** `step.run(builder)` from operation `i` on, `outs` being the outputs received so far. */
  ghost function RunFrom<S, E, V>(g: Graph<S, E, V>, stack: seq<S>, m: Mem<S, E, V>,
                                  s: S, i: nat, outs: seq<V>): BodyResult<S, E, V>
    requires Closed(g) && s in g.universe && i <= |g.body(s)|
    decreases g.universe - StackSet(stack), 1, |g.body(s)| - i
  {
    if i == |g.body(s)| then Done(m, outs)
    else
      match g.body(s)[i]
      case Abort => Stop(Failed, stack, m.log)
      case Emit(e) => RunFrom(g, stack, m.(log := m.log + [Entry(s, i, e)]), s, i + 1, outs)
      case Call(d) =>
        match Ensure(g, stack, m, d)
        case Panic(why, trace, log) => Stop(why, trace, log)
        case Ok(m', v) => RunFrom(g, stack, m', s, i + 1, outs + [v])
  }

  /** Several top-level requests on one builder, as the command line makes them. */
  ghost function EnsureAll<S, E, V>(g: Graph<S, E, V>, m: Mem<S, E, V>, roots: seq<S>): BodyResult<S, E, V>
    requires Closed(g) && forall s :: s in roots ==> s in g.universe
    decreases |roots|
  {
    if roots == [] then Done(m, [])
    else
      match Ensure(g, [], m, roots[0])
      case Panic(why, trace, log) => Stop(why, trace, log)
      case Ok(m', v) =>
        match EnsureAll(g, m', roots[1..])
        case Stop(why, trace, log) => Stop(why, trace, log)
        case Done(m'', vs) => Done(m'', [v] + vs)
  }

  // ------------------------------------------------------------------ the reference

  /** Recursion without cache, stack or clock, cut off at depth `fuel`. */
  ghost function Plain<S, E, V>(g: Graph<S, E, V>, fuel: nat, s: S): Option<V>
    decreases fuel, 0
  {
    if fuel == 0 then None
    else
      match PlainFrom(g, fuel - 1, s, 0, [])
      case None => None
      case Some(outs) => Some(g.eval(s, outs))
  }

  ghost function PlainFrom<S, E, V>(g: Graph<S, E, V>, fuel: nat, s: S, i: nat, outs: seq<V>): Option<seq<V>>
    requires i <= |g.body(s)|
    decreases fuel, 1 + |g.body(s)| - i
  {
    if i == |g.body(s)| then Some(outs)
    else
      match g.body(s)[i]
      case Abort => None
      case Emit(_) => PlainFrom(g, fuel, s, i + 1, outs)
      case Call(d) =>
        match Plain(g, fuel, d)
        case None => None
        case Some(v) => PlainFrom(g, fuel, s, i + 1, outs + [v])
  }

  /** The plain recursion from `s` comes to an end with value `v`. */
  ghost predicate Yields<S, E, V>(g: Graph<S, E, V>, s: S, v: V) {
    exists fuel: nat :: Plain(g, fuel, s) == Some(v)
  }

  ghost predicate Calls<S, E, V>(g: Graph<S, E, V>, a: S, b: S) {
    Call(b) in g.body(a)
  }

  /** A path along `Call` edges. */
  ghost predicate Walk<S, E, V>(g: Graph<S, E, V>, p: seq<S>) {
    && |p| > 0
    && forall i :: 0 < i < |p| ==> Calls(g, p[i - 1], p[i])
  }

  ghost predicate Repeats<S>(p: seq<S>) {
    |p| > 0 && p[|p| - 1] in p[..|p| - 1]
  }

  ghost predicate ReachesCycle<S(!new), E, V>(g: Graph<S, E, V>, s: S) {
    exists p :: Walk(g, p) && p[0] == s && Repeats(p)
  }

  ghost predicate ReachesAbort<S(!new), E, V>(g: Graph<S, E, V>, s: S) {
    exists p :: Walk(g, p) && p[0] == s && Abort in g.body(p[|p| - 1])
  }

  // ------------------------------------------------------------------ invariants

  function Steps<S>(runs: seq<Record<S>>): set<S> {
    set r | r in runs :: r.step
  }

  function OwnSum<S>(runs: seq<Record<S>>): nat {
    if runs == [] then 0 else OwnSum(runs[..|runs| - 1]) + runs[|runs| - 1].own
  }

  ghost predicate ReadyUpTo<S, E, V>(g: Graph<S, E, V>, cache: map<S, V>, s: S, i: nat)
    requires i <= |g.body(s)|
  {
    forall k :: 0 <= k < i ==>
      !g.body(s)[k].Abort? && (g.body(s)[k].Call? ==> g.body(s)[k].step in cache)
  }

  /** The outputs, in call order, of the steps called in the first `i` operations of `s`. */
  ghost function Outs<S, E, V>(g: Graph<S, E, V>, cache: map<S, V>, s: S, i: nat): seq<V>
    requires i <= |g.body(s)| && ReadyUpTo(g, cache, s, i)
  {
    if i == 0 then []
    else
      var before := Outs(g, cache, s, i - 1);
      match g.body(s)[i - 1]
      case Call(d) => before + [cache[d]]
      case _ => before
  }

  /** The dependencies of `s` were all available in `done`. */
  ghost predicate Ready<S, E, V>(g: Graph<S, E, V>, done: set<S>, s: S) {
    forall op :: op in g.body(s) ==> !op.Abort? && (op.Call? ==> op.step in done)
  }

  /** `s` is cached, so are its dependencies, and its value is computed from theirs. */
  ghost predicate Valued<S, E, V>(g: Graph<S, E, V>, cache: map<S, V>, s: S) {
    && s in cache
    && Ready(g, cache.Keys, s)
    && cache[s] == g.eval(s, Outs(g, cache, s, |g.body(s)|))
  }

  /** The `i`-th step to finish had not run before and called only steps that had finished. */
  ghost predicate Placed<S, E, V>(g: Graph<S, E, V>, runs: seq<Record<S>>, i: nat) {
    i < |runs| && runs[i].step !in Steps(runs[..i]) && Ready(g, Steps(runs[..i]), runs[i].step)
  }

  /** What every memory that arises in a run satisfies: each step ran at most once and is in
      the cache exactly when it did, finished steps are in topological order, and every cached
      value is the step's function of its dependencies' cached values. */
  ghost predicate History<S, E, V>(g: Graph<S, E, V>, cache: map<S, V>, runs: seq<Record<S>>) {
    && cache.Keys == Steps(runs)
    && (forall i {:trigger Placed(g, runs, i)} :: 0 <= i < |runs| ==> Placed(g, runs, i))
    && (forall s {:trigger Valued(g, cache, s)} :: s in cache ==> Valued(g, cache, s))
  }

  /** `m'` only adds to `m`; the time cell grew by the exclusive times of the steps that ran,
      and by no more than the clock moved. */
  ghost predicate Advances<S, E, V>(g: Graph<S, E, V>, m: Mem<S, E, V>, m': Mem<S, E, V>) {
    && m.cache.Keys <= m'.cache.Keys
    && (forall s :: s in m.cache ==> m'.cache[s] == m.cache[s])
    && m.runs <= m'.runs
    && m.log <= m'.log
    && m.ticks <= m'.ticks
    && m.spent <= m'.spent
    && m'.spent - m.spent == OwnSum(m'.runs) - OwnSum(m.runs)
    && m'.spent - m.spent <= g.clock(m'.ticks) - g.clock(m.ticks)
  }

  ghost predicate Inv<S, E, V>(g: Graph<S, E, V>, stack: seq<S>, m: Mem<S, E, V>) {
    && Closed(g) && Monotone(g)
    && History(g, m.cache, m.runs)
    && (forall s :: s in stack ==> s in g.universe && s !in m.cache)
  }

  lemma {:induction false} OutsStable<S, E, V>(g: Graph<S, E, V>, c: map<S, V>, c': map<S, V>, s: S, i: nat)
    requires i <= |g.body(s)|
    requires ReadyUpTo(g, c, s, i)
    requires c.Keys <= c'.Keys && forall d :: d in c ==> c'[d] == c[d]
    ensures ReadyUpTo(g, c', s, i) && Outs(g, c, s, i) == Outs(g, c', s, i)
    decreases i
  {
    if i > 0 { OutsStable(g, c, c', s, i - 1); }
  }

  /** One more operation of `s` is behind us: the premises of the rest of its run. */
  lemma {:induction false} NextOp<S, E, V>(g: Graph<S, E, V>, c: map<S, V>, c': map<S, V>, s: S, i: nat)
    requires i < |g.body(s)| && ReadyUpTo(g, c, s, i)
    requires c.Keys <= c'.Keys && forall d :: d in c ==> c'[d] == c[d]
    requires !g.body(s)[i].Abort? && (g.body(s)[i].Call? ==> g.body(s)[i].step in c')
    ensures ReadyUpTo(g, c', s, i + 1)
    ensures Outs(g, c', s, i + 1) ==
            Outs(g, c, s, i) + if g.body(s)[i].Call? then [c'[g.body(s)[i].step]] else []
  {
    OutsStable(g, c, c', s, i);
  }

  lemma AdvancesTransitive<S, E, V>(g: Graph<S, E, V>, m0: Mem<S, E, V>, m1: Mem<S, E, V>, m2: Mem<S, E, V>)
    requires Advances(g, m0, m1) && Advances(g, m1, m2)
    ensures Advances(g, m0, m2)
  {
  }

  lemma {:induction false} EnsureInv<S, E, V>(g: Graph<S, E, V>, stack: seq<S>, m: Mem<S, E, V>, s: S,
                                              r: Result<S, E, V>)
    requires Inv(g, stack, m) && s in g.universe
    requires r == Ensure(g, stack, m, s)
    ensures r.Panic? ==> r.why == Cycle || r.why == Failed
    ensures r.Ok? ==>
              && Inv(g, stack, r.mem) && Advances(g, m, r.mem)
              && s in r.mem.cache && r.mem.cache[s] == r.value
    decreases g.universe - StackSet(stack), 0, 0
  {
    if s !in stack && s !in m.cache {
      var m1 := m.(spent := 0, ticks := m.ticks + 1);
      assert s in g.universe - StackSet(stack) && s !in g.universe - StackSet(stack + [s]);
      var b := RunFrom(g, stack + [s], m1, s, 0, []);
      RunInv(g, stack + [s], m1, s, 0, [], b);
      if b.Done? {
        assert s in stack + [s];
        LeaveAdvances(g, stack, m, b.mem, s, g.eval(s, b.outs), r);
        LeaveInv(g, stack, m, b.mem, s, g.eval(s, b.outs), r);
      }
    }
  }

  lemma {:induction false} RunInv<S, E, V>(g: Graph<S, E, V>, stack: seq<S>, m: Mem<S, E, V>, s: S,
                                           i: nat, outs: seq<V>, r: BodyResult<S, E, V>)
    requires Inv(g, stack, m) && s in g.universe && i <= |g.body(s)|
    requires ReadyUpTo(g, m.cache, s, i) && outs == Outs(g, m.cache, s, i)
    requires r == RunFrom(g, stack, m, s, i, outs)
    ensures r.Stop? ==> r.why == Cycle || r.why == Failed
    ensures r.Done? ==>
              && Inv(g, stack, r.mem) && Advances(g, m, r.mem)
              && Ready(g, r.mem.cache.Keys, s)
              && r.outs == Outs(g, r.mem.cache, s, |g.body(s)|)
    decreases g.universe - StackSet(stack), 1, |g.body(s)| - i
  {
    if i < |g.body(s)| {
      match g.body(s)[i]
      case Abort =>
      case Emit(e) =>
        var m' := m.(log := m.log + [Entry(s, i, e)]);
        NextOp(g, m.cache, m.cache, s, i);
        RunInv(g, stack, m', s, i + 1, outs, r);
        if r.Done? { AdvancesTransitive(g, m, m', r.mem); }
      case Call(d) =>
        var c := Ensure(g, stack, m, d);
        EnsureInv(g, stack, m, d, c);
        if c.Ok? {
          NextOp(g, m.cache, c.mem.cache, s, i);
          RunInv(g, stack, c.mem, s, i + 1, outs + [c.value], r);
          if r.Done? { AdvancesTransitive(g, m, c.mem, r.mem); }
        }
    }
  }

  /** A step that finishes after everything it called extends the history. */
  lemma {:induction false} HistoryExtends<S, E, V>(
    g: Graph<S, E, V>, cache: map<S, V>, runs: seq<Record<S>>, r: Record<S>, v: V)
    requires History(g, cache, runs) && r.step !in cache && Ready(g, cache.Keys, r.step)
    requires v == g.eval(r.step, Outs(g, cache, r.step, |g.body(r.step)|))
    ensures History(g, cache[r.step := v], runs + [r])
  {
    var cache', runs', n := cache[r.step := v], runs + [r], |runs|;
    assert runs'[..n] == runs;
    assert forall x :: x in runs' <==> x in runs || x == r;
    forall i | 0 <= i < |runs'| ensures Placed(g, runs', i) {
      if i < n {
        assert Placed(g, runs, i) && runs'[..i] == runs[..i];
      }
    }
    forall t | t in cache' ensures Valued(g, cache', t) {
      assert t != r.step ==> Valued(g, cache, t);
      OutsStable(g, cache, cache', t, |g.body(t)|);
    }
  }

  /** Under a monotone clock neither assertion of the epilogue fires. */
  lemma LeaveAdvances<S, E, V>(
    g: Graph<S, E, V>, stack: seq<S>, m: Mem<S, E, V>, m2: Mem<S, E, V>, s: S, v: V, r: Result<S, E, V>)
    requires Monotone(g) && s !in m2.cache
    requires Advances(g, m.(spent := 0, ticks := m.ticks + 1), m2)
    requires r == Leave(g, stack, m.spent, m2, s, g.clock(m.ticks), v)
    ensures r.Ok? && Advances(g, m, r.mem)
  {
    assert g.clock(m.ticks) <= g.clock(m.ticks + 1) <= g.clock(m2.ticks) <= g.clock(m2.ticks + 1);
    assert r.Ok? && r.mem.runs[..|m2.runs|] == m2.runs;
  }

  lemma {:induction false} LeaveInv<S, E, V>(
    g: Graph<S, E, V>, stack: seq<S>, m: Mem<S, E, V>, m2: Mem<S, E, V>, s: S, v: V, r: Result<S, E, V>)
    requires Inv(g, stack + [s], m2)
    requires Ready(g, m2.cache.Keys, s) && v == g.eval(s, Outs(g, m2.cache, s, |g.body(s)|))
    requires s !in stack
    requires r == Leave(g, stack, m.spent, m2, s, g.clock(m.ticks), v) && r.Ok?
    ensures Inv(g, stack, r.mem) && s in r.mem.cache && r.mem.cache[s] == r.value == v
  {
    assert forall x :: x in stack + [s] <==> x in stack || x == s;
    HistoryExtends(g, m2.cache, m2.runs, r.mem.runs[|m2.runs|], v);
  }
}
