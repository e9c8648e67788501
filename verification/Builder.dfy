/** The step evaluator as the objects it is written with: `Builder` updates its stack, its time
    cell and its cache in place.  Each method is tied to the corresponding function of
    `StepEngine`, on which the theorems are proved. */
module Builder {
  import opened Wrappers
  import opened StepEngine

  /** The write-once cache of step outputs. */
  class Cache<S(==), V> {
    var entries: map<S, V>

    constructor ()
      ensures entries == map[]
    {
      entries := map[];
    }

    method Get(step: S) returns (r: Option<V>)
      ensures r == if step in entries then Some(entries[step]) else None
    {
      if step in entries {
        r := Some(entries[step]);
      } else {
        r := None;
      }
    }

    /** `isNew` is false where the original asserts that a step is not processed a second
        time; nothing is stored then. */
    method Put(step: S, value: V) returns (isNew: bool)
      modifies this
      ensures isNew == (step !in old(entries))
      ensures entries == if isNew then old(entries)[step := value] else old(entries)
    {
      isNew := step !in entries;
      if isNew {
        entries := entries[step := value];
      }
    }
  }

  datatype Outcome<+S, +V> = Returned(value: V) | Panicked(why: Reason, trace: seq<S>)

  class Builder<S(==), E, V> {
    const graph: Graph<S, E, V>
    const cache: Cache<S, V>
    var stack: seq<S>
    var timeSpentOnDependencies: nat
    var readings: nat
    ghost var runs: seq<Record<S>>
    ghost var log: seq<Entry<S, E>>

    /** The fields other than the stack, as one value. */
    ghost function Memory(): Mem<S, E, V>
      reads this, cache
    {
      Mem(cache.entries, timeSpentOnDependencies, readings, runs, log)
    }

    constructor (g: Graph<S, E, V>)
      ensures graph == g && stack == [] && Memory() == Empty()
      ensures fresh(this) && fresh(cache)
    {
      graph := g;
      cache := new Cache();
      stack, timeSpentOnDependencies, readings := [], 0, 0;
      runs, log := [], [];
    }

    /** `Instant::now`. */
    method Now() returns (t: nat)
      modifies this`readings
      ensures t == graph.clock(old(readings)) && readings == old(readings) + 1
    {
      t := graph.clock(readings);
      readings := readings + 1;
    }

    method OnStack(step: S) returns (found: bool)
      ensures found <==> step in stack
    {
      found := false;
      for i := 0 to |stack|
        invariant !found && step !in stack[..i]
      {
        if stack[i] == step {
          return true;
        }
      }
    }

    /** Returns exactly what `StepEngine.Ensure` says and leaves the memory it says; in
        particular the stack is as it was, whatever `run` did in between. */
    method Ensure(step: S) returns (r: Outcome<S, V>)
      requires Closed(graph) && step in graph.universe
      modifies this, cache
      ensures var spec := StepEngine.Ensure(graph, old(stack), old(Memory()), step);
              && r.Returned? == spec.Ok?
              && (r.Returned? ==> r.value == spec.value && Memory() == spec.mem && stack == old(stack))
              && (r.Panicked? ==> r.why == spec.why && r.trace == spec.trace && log == spec.log)
      decreases graph.universe - StackSet(stack), 0, 0
    {
      var cyclic := OnStack(step);
      if cyclic {
        return Panicked(Cycle, stack + [step]);
      }
      var hit := cache.Get(step);
      if hit.Some? {
        return Returned(hit.value);
      }
      ghost var m := Memory();
      assert step in graph.universe - StackSet(stack) && step !in graph.universe - StackSet(stack + [step]);
      stack := stack + [step];

      var start := Now();
      var parent := timeSpentOnDependencies;
      timeSpentOnDependencies := 0;
      assert Memory() == m.(spent := 0, ticks := m.ticks + 1);
      r := RunStep(step);
      if r.Returned? {
        r := Leave(step, start, parent, r.value);
        assert old(stack) == (old(stack) + [step])[..|old(stack)|];
      }
    }

    /** The rest of `ensure` after `run`.  Its precondition is the original's assertion that
        the step popped is the one that was pushed. */
    method Leave(step: S, start: nat, parent: nat, value: V) returns (r: Outcome<S, V>)
      requires |stack| > 0 && stack[|stack| - 1] == step
      modifies this, cache
      ensures var outer := old(stack[..|stack| - 1]);
              var spec := StepEngine.Leave(graph, outer, parent, old(Memory()), step, start, value);
              && r.Returned? == spec.Ok?
              && (r.Returned? ==> r.value == spec.value && Memory() == spec.mem && stack == outer)
              && (r.Panicked? ==> r.why == spec.why && r.trace == spec.trace && log == spec.log)
    {
      var stop := Now();
      var trace := stack;
      assert trace == stack[..|stack| - 1] + [step];
      if stop < start || stop - start < timeSpentOnDependencies {
        return Panicked(TimeUnderflow, trace);
      }
      var dur := stop - start;
      var deps := timeSpentOnDependencies;
      timeSpentOnDependencies := parent + dur;
      stack := stack[..|stack| - 1];
      var isNew := cache.Put(step, value);
      if !isNew {
        return Panicked(SecondTime, trace);
      }
      runs := runs + [Record(step, dur, dur - deps)];
      return Returned(value);
    }

    /** `step.run(self)`: the operations of the body in order, then the step's output. */
    method RunStep(step: S) returns (r: Outcome<S, V>)
      requires Closed(graph) && step in graph.universe
      modifies this, cache
      ensures var spec := RunFrom(graph, old(stack), old(Memory()), step, 0, []);
              && r.Returned? == spec.Done?
              && (r.Returned? ==> r.value == graph.eval(step, spec.outs) && Memory() == spec.mem && stack == old(stack))
              && (r.Panicked? ==> r.why == spec.why && r.trace == spec.trace && log == spec.log)
      decreases graph.universe - StackSet(stack), 1, 0
    {
      var ops := graph.body(step);
      var outs: seq<V> := [];
      ghost var spec := RunFrom(graph, stack, Memory(), step, 0, []);
      for i := 0 to |ops|
        invariant stack == old(stack)
        invariant RunFrom(graph, stack, Memory(), step, i, outs) == spec
      {
        match ops[i]
        case Abort =>
          return Panicked(Failed, stack);
        case Emit(e) =>
          log := log + [Entry(step, i, e)];
        case Call(d) =>
          assert ops[i] in ops;
          var r' := Ensure(d);
          if r'.Panicked? {
            return r';
          }
          outs := outs + [r'.value];
      }
      return Returned(graph.eval(step, outs));
    }
  }
}
