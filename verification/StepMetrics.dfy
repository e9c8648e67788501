/** The step evaluator seen by the metrics: entering and leaving steps, at the clock readings
    that `ensure` itself takes.  The metrics forest and the report of `ensure` are the same
    times, for every run. */
module StepMetrics {
  import opened Wrappers
  import opened StepEngine
  import Metrics

  type Events<S> = seq<Metrics.Event<S>>

  /** The calls of `enter_step` and `exit_step` during one `ensure`. */
  ghost function Trace<S, E, V>(g: Graph<S, E, V>, stack: seq<S>, m: Mem<S, E, V>, s: S): Events<S>
    requires Closed(g) && s in g.universe
    decreases g.universe - StackSet(stack), 0, 0
  {
    if s in stack || s in m.cache then []
    else
      var m1 := m.(spent := 0, ticks := m.ticks + 1);
      assert s in g.universe - StackSet(stack) && s !in g.universe - StackSet(stack + [s]);
      var inside := [Enter(g, m.ticks, s)] + TraceFrom(g, stack + [s], m1, s, 0, []);
      match RunFrom(g, stack + [s], m1, s, 0, [])
      case Stop(_, _, _) => inside
      case Done(m2, _) => inside + [Exit(g, m2.ticks)]
  }

  ghost function TraceFrom<S, E, V>(g: Graph<S, E, V>, stack: seq<S>, m: Mem<S, E, V>, s: S, i: nat, outs: seq<V>): Events<S>
    requires Closed(g) && s in g.universe && i <= |g.body(s)|
    decreases g.universe - StackSet(stack), 1, |g.body(s)| - i
  {
    if i == |g.body(s)| then []
    else
      match g.body(s)[i]
      case Abort => []
      case Emit(e) => TraceFrom(g, stack, m.(log := m.log + [Entry(s, i, e)]), s, i + 1, outs)
      case Call(d) =>
        match Ensure(g, stack, m, d)
        case Panic(_, _, _) => Trace(g, stack, m, d)
        case Ok(m', v) => Trace(g, stack, m, d) + TraceFrom(g, stack, m', s, i + 1, outs + [v])
  }

  ghost function TraceAll<S, E, V>(g: Graph<S, E, V>, m: Mem<S, E, V>, roots: seq<S>): Events<S>
    requires Closed(g) && forall s :: s in roots ==> s in g.universe
    decreases |roots|
  {
    if roots == [] then []
    else
      match Ensure(g, [], m, roots[0])
      case Panic(_, _, _) => Trace(g, [], m, roots[0])
      case Ok(m', _) => Trace(g, [], m, roots[0]) + TraceAll(g, m', roots[1..])
  }

  ghost function Enter<S, E, V>(g: Graph<S, E, V>, tick: nat, s: S): Metrics.Event<S> {
    Metrics.Enter(s, g.clock(tick), g.clock(tick))
  }

  ghost function Exit<S, E, V>(g: Graph<S, E, V>, tick: nat): Metrics.Event<S> {
    Metrics.Exit(g.clock(tick), g.clock(tick))
  }

  /** What `--print-step-timings` reports. */
  function Report<S>(runs: seq<Record<S>>): seq<(S, nat)> {
    seq(|runs|, i requires 0 <= i < |runs| => (runs[i].step, runs[i].own))
  }

  // ------------------------------------------------------------------ one more event

  /** The events so far match the evaluator's memory: `frames` is what the calls of `ensure` in
      progress hold in local variables. */
  ghost predicate Matches<S, E, V>(g: Graph<S, E, V>, evs: Events<S>, m: Mem<S, E, V>, frames: seq<Metrics.Frame<S>>, open: seq<S>) {
    && Metrics.Nested(evs) && Metrics.Sampled(evs) && Metrics.Open(evs) == open
    && (evs != [] ==> evs[|evs| - 1].read <= g.clock(m.ticks))
    && Metrics.RunCell(evs) == Some(Metrics.Cell(frames, m.spent, Report(m.runs)))
  }

  lemma {:induction false} EventNext<S>(evs: Events<S>, ev: Metrics.Event<S>)
    requires Metrics.Nested(evs) && Metrics.Sampled(evs) && (ev.Exit? ==> Metrics.Open(evs) != [])
    requires ev.read == ev.restart && (evs != [] ==> evs[|evs| - 1].read <= ev.read)
    requires Metrics.RunCell(evs).Some?
    ensures Metrics.Nested(evs + [ev]) && Metrics.Sampled(evs + [ev])
    ensures Metrics.RunCell(evs + [ev]) == Metrics.ApplyCell(Metrics.RunCell(evs).value, ev)
  {
    assert (evs + [ev])[..|evs|] == evs;
  }

  lemma {:induction false} MatchEnter<S, E, V>(
    g: Graph<S, E, V>, evs: Events<S>, m: Mem<S, E, V>, frames: seq<Metrics.Frame<S>>, open: seq<S>, s: S)
    requires Monotone(g) && Matches(g, evs, m, frames, open)
    ensures Matches(g, evs + [Enter(g, m.ticks, s)], m.(spent := 0, ticks := m.ticks + 1),
                    frames + [Metrics.Frame(s, g.clock(m.ticks), m.spent)], open + [s])
  {
    var ev := Enter(g, m.ticks, s);
    EventNext(evs, ev);
    Metrics.AfterEvent(evs, ev);
    assert g.clock(m.ticks) <= g.clock(m.ticks + 1);
  }

  lemma {:induction false} MatchExit<S, E, V>(
    g: Graph<S, E, V>, evs: Events<S>, stack: seq<S>, m2: Mem<S, E, V>, frames: seq<Metrics.Frame<S>>, open: seq<S>,
    s: S, start: nat, parent: nat, v: V, r: Result<S, E, V>)
    requires Monotone(g) && Matches(g, evs, m2, frames + [Metrics.Frame(s, start, parent)], open + [s])
    requires r == Leave(g, stack, parent, m2, s, start, v) && r.Ok?
    ensures Matches(g, evs + [Exit(g, m2.ticks)], r.mem, frames, open)
  {
    var ev: Metrics.Event<S> := Exit(g, m2.ticks);
    EventNext(evs, ev);
    Metrics.AfterEvent(evs, ev);
    assert g.clock(m2.ticks) <= g.clock(m2.ticks + 1);
    assert (frames + [Metrics.Frame(s, start, parent)])[..|frames|] == frames;
    assert (open + [s])[..|open|] == open;
    assert Report(r.mem.runs) == Report(m2.runs) + [(s, r.mem.runs[|m2.runs|].own)];
  }

  // ------------------------------------------------------------------ a whole run

  lemma {:induction false} TraceMatches<S, E, V>(
    g: Graph<S, E, V>, stack: seq<S>, m: Mem<S, E, V>, s: S, r: Result<S, E, V>,
    evs: Events<S>, frames: seq<Metrics.Frame<S>>, open: seq<S>)
    requires Closed(g) && Monotone(g) && s in g.universe && r == Ensure(g, stack, m, s) && r.Ok?
    requires Matches(g, evs, m, frames, open)
    ensures Matches(g, evs + Trace(g, stack, m, s), r.mem, frames, open)
    decreases g.universe - StackSet(stack), 0, 0
  {
    if s in m.cache {
      assert evs + [] == evs;
    } else {
      var m1 := m.(spent := 0, ticks := m.ticks + 1);
      assert s in g.universe - StackSet(stack) && s !in g.universe - StackSet(stack + [s]);
      var b := RunFrom(g, stack + [s], m1, s, 0, []);
      var inner := TraceFrom(g, stack + [s], m1, s, 0, []);
      var enter := [Enter(g, m.ticks, s)];
      var frame := Metrics.Frame(s, g.clock(m.ticks), m.spent);
      MatchEnter(g, evs, m, frames, open, s);
      FromMatches(g, stack + [s], m1, s, 0, [], b, evs + enter, frames + [frame], open + [s]);
      MatchExit(g, evs + enter + inner, stack, b.mem, frames, open, s, g.clock(m.ticks), m.spent, g.eval(s, b.outs), r);
      Regroup(evs, enter, inner);
      Regroup(evs, enter + inner, [Exit(g, b.mem.ticks)]);
    }
  }

  lemma {:induction false} FromMatches<S, E, V>(
    g: Graph<S, E, V>, stack: seq<S>, m: Mem<S, E, V>, s: S, i: nat, outs: seq<V>, r: BodyResult<S, E, V>,
    evs: Events<S>, frames: seq<Metrics.Frame<S>>, open: seq<S>)
    requires Closed(g) && Monotone(g) && s in g.universe && i <= |g.body(s)|
    requires r == RunFrom(g, stack, m, s, i, outs) && r.Done? && Matches(g, evs, m, frames, open)
    ensures Matches(g, evs + TraceFrom(g, stack, m, s, i, outs), r.mem, frames, open)
    decreases g.universe - StackSet(stack), 1, |g.body(s)| - i
  {
    if i == |g.body(s)| {
      assert evs + [] == evs;
    } else {
      var op := g.body(s)[i];
      if op.Emit? {
        FromMatches(g, stack, m.(log := m.log + [Entry(s, i, op.event)]), s, i + 1, outs, r, evs, frames, open);
      } else if op.Call? {
        assert Call(op.step) in g.body(s);
        var c := Ensure(g, stack, m, op.step);
        var evs1 := evs + Trace(g, stack, m, op.step);
        TraceMatches(g, stack, m, op.step, c, evs, frames, open);
        FromMatches(g, stack, c.mem, s, i + 1, outs + [c.value], r, evs1, frames, open);
        Regroup(evs, Trace(g, stack, m, op.step), TraceFrom(g, stack, c.mem, s, i + 1, outs + [c.value]));
      }
    }
  }

  lemma {:induction false} AllMatches<S, E, V>(
    g: Graph<S, E, V>, m: Mem<S, E, V>, roots: seq<S>, r: BodyResult<S, E, V>, evs: Events<S>)
    requires Closed(g) && Monotone(g) && (forall s :: s in roots ==> s in g.universe)
    requires r == EnsureAll(g, m, roots) && r.Done? && Matches(g, evs, m, [], [])
    ensures Matches(g, evs + TraceAll(g, m, roots), r.mem, [], [])
    decreases |roots|
  {
    if roots == [] {
      assert evs + [] == evs;
    } else {
      var c := Ensure(g, [], m, roots[0]);
      var evs1 := evs + Trace(g, [], m, roots[0]);
      TraceMatches(g, [], m, roots[0], c, evs, [], []);
      AllMatches(g, c.mem, roots[1..], EnsureAll(g, c.mem, roots[1..]), evs1);
      Regroup(evs, Trace(g, [], m, roots[0]), TraceAll(g, c.mem, roots[1..]));
    }
  }

  // ------------------------------------------------------------------ main result

  /** In every successful run of any requests on a fresh builder, steps are entered and left in a
      nested way; the metrics never panic; their forest, read children first, is the list of
      steps with the own times that `ensure` reports, in the order in which they finished; read
      parents first, it is the order of entering; and the time during which something ran is
      what the time cell holds. */
  lemma EngineReports<S, E, V>(g: Graph<S, E, V>, roots: seq<S>, r: BodyResult<S, E, V>)
    requires Closed(g) && Monotone(g) && (forall s :: s in roots ==> s in g.universe)
    requires r == EnsureAll(g, Empty(), roots) && r.Done?
    ensures var evs := TraceAll(g, Empty(), roots);
            && Metrics.Nested(evs) && Metrics.Open(evs) == []
            && Metrics.Run(evs).Some? && Metrics.Run(evs).value.running == []
            && Metrics.Post(Metrics.Run(evs).value.finished) == Report(r.mem.runs)
            && Metrics.Pre(Metrics.Run(evs).value.finished) == Metrics.Entered(evs)
            && Metrics.Busy(evs) == r.mem.spent
  {
    var evs := TraceAll(g, Empty(), roots);
    assert Report<S>([]) == [];
    AllMatches(g, Empty(), roots, r, []);
    assert [] + evs == evs;
    Metrics.SameReport(evs);
    Metrics.Collected(evs);
  }
}
