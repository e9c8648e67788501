/** The order of effects in a run of the step evaluator.

    Two results: every effect in the log is one operation of one step, performed at most once;
    and a proof rule that turns local checks of step bodies into happens-before facts about
    every run, including runs that end in a panic. */
module StepOrder {
  import opened StepEngine

  // ------------------------------------------------------------------ effects are tagged

  /** `log[i]` is an operation of a step of the graph, and what was logged for that step before
      are earlier operations of it. */
  ghost predicate TagOk<S, E, V>(g: Graph<S, E, V>, log: seq<Entry<S, E>>, i: nat) {
    && i < |log|
    && log[i].step in g.universe
    && log[i].pos < |g.body(log[i].step)|
    && g.body(log[i].step)[log[i].pos] == Emit(log[i].event)
    && (forall j :: 0 <= j < i && log[j].step == log[i].step ==> log[j].pos < log[i].pos)
  }

  ghost predicate Tagged<S, E, V>(g: Graph<S, E, V>, log: seq<Entry<S, E>>) {
    forall i {:trigger TagOk(g, log, i)} :: 0 <= i < |log| ==> TagOk(g, log, i)
  }

  /** Only steps that have run, or are running, have logged anything. */
  ghost predicate Owned<S, E, V>(stack: seq<S>, m: Mem<S, E, V>) {
    forall i :: 0 <= i < |m.log| ==> m.log[i].step in m.cache || m.log[i].step in stack
  }

  /** From `m` on, nothing was logged on behalf of `s` below operation `i`. */
  ghost predicate OwnBelow<S, E>(log: seq<Entry<S, E>>, s: S, i: nat) {
    forall j :: 0 <= j < |log| && log[j].step == s ==> log[j].pos < i
  }

  /** The entries `log'` has beyond `log` belong to steps off the stack. */
  ghost predicate Foreign<S, E>(stack: seq<S>, log: seq<Entry<S, E>>, log': seq<Entry<S, E>>) {
    && log <= log'
    && forall j :: |log| <= j < |log'| ==> log'[j].step !in stack
  }

  lemma TagNext<S, E, V>(g: Graph<S, E, V>, log: seq<Entry<S, E>>, e: Entry<S, E>)
    requires Tagged(g, log) && e.step in g.universe && OwnBelow(log, e.step, e.pos)
    requires e.pos < |g.body(e.step)| && g.body(e.step)[e.pos] == Emit(e.event)
    ensures Tagged(g, log + [e])
  {
    forall i | 0 <= i < |log + [e]| ensures TagOk(g, log + [e], i) {
      if i < |log| { assert TagOk(g, log, i); }
    }
  }

  lemma {:induction false} EnsureTags<S, E, V>(
    g: Graph<S, E, V>, stack: seq<S>, m: Mem<S, E, V>, s: S, r: Result<S, E, V>)
    requires Closed(g) && s in g.universe && r == Ensure(g, stack, m, s)
    requires Tagged(g, m.log) && Owned(stack, m)
    ensures Tagged(g, r.Log())
    ensures r.Ok? ==> Owned(stack, r.mem) && Foreign(stack, m.log, r.mem.log) && m.cache.Keys <= r.mem.cache.Keys
    decreases g.universe - StackSet(stack), 0, 0
  {
    if s !in stack && s !in m.cache {
      var m1 := m.(spent := 0, ticks := m.ticks + 1);
      assert s in g.universe - StackSet(stack) && s !in g.universe - StackSet(stack + [s]);
      assert OwnBelow(m1.log, s, 0);
      var b := RunFrom(g, stack + [s], m1, s, 0, []);
      RunTags(g, stack + [s], m1, s, 0, [], b);
    }
  }

  lemma {:induction false} RunTags<S, E, V>(
    g: Graph<S, E, V>, stack: seq<S>, m: Mem<S, E, V>, s: S, i: nat, outs: seq<V>, r: BodyResult<S, E, V>)
    requires Closed(g) && s in g.universe && i <= |g.body(s)| && r == RunFrom(g, stack, m, s, i, outs)
    requires |stack| > 0 && stack[|stack| - 1] == s && s !in stack[..|stack| - 1]
    requires Tagged(g, m.log) && Owned(stack, m) && OwnBelow(m.log, s, i)
    ensures Tagged(g, r.Log())
    ensures r.Done? ==>
              && Owned(stack, r.mem) && Foreign(stack[..|stack| - 1], m.log, r.mem.log)
              && m.cache.Keys <= r.mem.cache.Keys
    decreases g.universe - StackSet(stack), 1, |g.body(s)| - i
  {
    if i < |g.body(s)| {
      match g.body(s)[i]
      case Abort =>
      case Emit(e) =>
        TagNext(g, m.log, Entry(s, i, e));
        RunTags(g, stack, m.(log := m.log + [Entry(s, i, e)]), s, i + 1, outs, r);
      case Call(d) =>
        var c := Ensure(g, stack, m, d);
        EnsureTags(g, stack, m, d, c);
        if c.Ok? {
          RunTags(g, stack, c.mem, s, i + 1, outs + [c.value], r);
        }
    }
  }

  /** In any sequence of top-level requests on a fresh builder, each effect of each step is
      performed at most once, and those of one step in the order of its body. */
  lemma {:induction false} AllTags<S, E, V>(
    g: Graph<S, E, V>, m: Mem<S, E, V>, roots: seq<S>, r: BodyResult<S, E, V>)
    requires Closed(g) && (forall s :: s in roots ==> s in g.universe) && r == EnsureAll(g, m, roots)
    requires Tagged(g, m.log) && Owned([], m)
    ensures Tagged(g, r.Log())
    decreases |roots|
  {
    if roots != [] {
      var c := Ensure(g, [], m, roots[0]);
      EnsureTags(g, [], m, roots[0], c);
      if c.Ok? {
        AllTags(g, c.mem, roots[1..], EnsureAll(g, c.mem, roots[1..]));
      }
    }
  }

  /** The effects among the first `i` operations of `s` are in the log. */
  ghost predicate DoneUpTo<S, E, V>(g: Graph<S, E, V>, log: seq<Entry<S, E>>, s: S, i: nat)
    requires i <= |g.body(s)|
  {
    forall p :: 0 <= p < i && g.body(s)[p].Emit? ==> Entry(s, p, g.body(s)[p].event) in log
  }

  /** Every cached step has performed all its effects. */
  ghost predicate Performed<S, E, V>(g: Graph<S, E, V>, m: Mem<S, E, V>) {
    forall s {:trigger s in m.cache} :: s in m.cache ==> DoneUpTo(g, m.log, s, |g.body(s)|)
  }

  ghost predicate Later<S, E, V>(m: Mem<S, E, V>, m': Mem<S, E, V>) {
    m.log <= m'.log && m.cache.Keys <= m'.cache.Keys
  }

  lemma DoneStill<S, E, V>(g: Graph<S, E, V>, log: seq<Entry<S, E>>, log': seq<Entry<S, E>>, s: S, i: nat)
    requires i <= |g.body(s)| && log <= log' && DoneUpTo(g, log, s, i)
    ensures DoneUpTo(g, log', s, i)
  {
    forall e | e in log ensures e in log' { }
  }

  lemma PerformedStill<S, E, V>(g: Graph<S, E, V>, m: Mem<S, E, V>, m': Mem<S, E, V>)
    requires Performed(g, m) && m'.cache == m.cache && m.log <= m'.log
    ensures Performed(g, m')
  {
    forall s | s in m'.cache ensures DoneUpTo(g, m'.log, s, |g.body(s)|) { DoneStill(g, m.log, m'.log, s, |g.body(s)|); }
  }

  /** Where an assertion failed, the step had performed its effects up to there. */
  ghost predicate Broken<S, E, V>(g: Graph<S, E, V>, log: seq<Entry<S, E>>, s: S) {
    exists p :: 0 <= p < |g.body(s)| && g.body(s)[p].Abort? && DoneUpTo(g, log, s, p)
  }

  lemma {:induction false} EnsurePerforms<S, E, V>(
    g: Graph<S, E, V>, stack: seq<S>, m: Mem<S, E, V>, s: S, r: Result<S, E, V>)
    requires Closed(g) && s in g.universe && r == Ensure(g, stack, m, s) && Performed(g, m)
    ensures m.log <= r.Log()
    ensures r.Ok? ==> Performed(g, r.mem) && Later(m, r.mem) && s in r.mem.cache
    ensures r.Panic? && r.why == Failed ==> r.trace != [] && Broken(g, r.log, r.trace[|r.trace| - 1])
    decreases g.universe - StackSet(stack), 0, 0
  {
    if s !in stack && s !in m.cache {
      var m1 := m.(spent := 0, ticks := m.ticks + 1);
      assert s in g.universe - StackSet(stack) && s !in g.universe - StackSet(stack + [s]);
      var b := RunFrom(g, stack + [s], m1, s, 0, []);
      PerformedStill(g, m, m1);
      RunPerforms(g, stack + [s], m1, s, 0, [], b);
    }
  }

  lemma {:induction false} RunPerforms<S, E, V>(
    g: Graph<S, E, V>, stack: seq<S>, m: Mem<S, E, V>, s: S, i: nat, outs: seq<V>, r: BodyResult<S, E, V>)
    requires Closed(g) && s in g.universe && i <= |g.body(s)| && r == RunFrom(g, stack, m, s, i, outs)
    requires Performed(g, m) && DoneUpTo(g, m.log, s, i) && stack != [] && stack[|stack| - 1] == s
    ensures m.log <= r.Log()
    ensures r.Stop? && r.why == Failed ==> r.trace != [] && Broken(g, r.log, r.trace[|r.trace| - 1])
    ensures r.Done? ==> Performed(g, r.mem) && Later(m, r.mem) && DoneUpTo(g, r.mem.log, s, |g.body(s)|)
    decreases g.universe - StackSet(stack), 1, |g.body(s)| - i
  {
    if i < |g.body(s)| {
      match g.body(s)[i]
      case Abort =>
      case Emit(e) =>
        var m1 := m.(log := m.log + [Entry(s, i, e)]);
        PerformedStill(g, m, m1);
        DoneStill(g, m.log, m1.log, s, i);
        assert m1.log[|m.log|] == Entry(s, i, e);
        RunPerforms(g, stack, m1, s, i + 1, outs, r);
      case Call(d) =>
        assert Call(d) in g.body(s);
        var c := Ensure(g, stack, m, d);
        EnsurePerforms(g, stack, m, d, c);
        if c.Ok? {
          DoneStill(g, m.log, c.mem.log, s, i);
          RunPerforms(g, stack, c.mem, s, i + 1, outs + [c.value], r);
        }
    }
  }

  /** A sequence of requests that succeeds has run every step asked for, and every step that
      ran has performed each of its effects; by `AllTags`, exactly once.  One that fails an
      assertion has performed the effects of the failing step up to there. */
  lemma {:induction false} AllPerform<S, E, V>(
    g: Graph<S, E, V>, m: Mem<S, E, V>, roots: seq<S>, r: BodyResult<S, E, V>)
    requires Closed(g) && (forall s :: s in roots ==> s in g.universe) && r == EnsureAll(g, m, roots)
    requires Performed(g, m)
    ensures m.log <= r.Log()
    ensures r.Stop? && r.why == Failed ==> r.trace != [] && Broken(g, r.log, r.trace[|r.trace| - 1])
    ensures r.Done? ==> Performed(g, r.mem) && Later(m, r.mem) && forall s :: s in roots ==> s in r.mem.cache
    decreases |roots|
  {
    if roots != [] {
      var c := Ensure(g, [], m, roots[0]);
      EnsurePerforms(g, [], m, roots[0], c);
      if c.Ok? {
        AllPerform(g, c.mem, roots[1..], EnsureAll(g, c.mem, roots[1..]));
        forall s | s in roots ensures s == roots[0] || s in roots[1..] { }
      }
    }
  }

  /** Steps that ask only for one another. */
  ghost predicate Sealed<S, E, V>(g: Graph<S, E, V>, p: set<S>) {
    p <= g.universe && forall s, op :: s in p && op in g.body(s) && op.Call? ==> op.step in p
  }

  ghost predicate LogIn<S, E>(log: seq<Entry<S, E>>, p: set<S>) {
    forall x :: x in log ==> x.step in p
  }

  lemma {:induction false} EnsureStays<S, E, V>(
    g: Graph<S, E, V>, p: set<S>, stack: seq<S>, m: Mem<S, E, V>, s: S, r: Result<S, E, V>)
    requires Closed(g) && Sealed(g, p) && s in p && r == Ensure(g, stack, m, s)
    requires m.cache.Keys <= p && LogIn(m.log, p)
    ensures LogIn(r.Log(), p) && (r.Ok? ==> r.mem.cache.Keys <= p)
    decreases g.universe - StackSet(stack), 0, 0
  {
    if s !in stack && s !in m.cache {
      var m1 := m.(spent := 0, ticks := m.ticks + 1);
      assert s in g.universe - StackSet(stack) && s !in g.universe - StackSet(stack + [s]);
      var b := RunFrom(g, stack + [s], m1, s, 0, []);
      RunStays(g, p, stack + [s], m1, s, 0, [], b);
    }
  }

  lemma {:induction false} RunStays<S, E, V>(
    g: Graph<S, E, V>, p: set<S>, stack: seq<S>, m: Mem<S, E, V>, s: S, i: nat, outs: seq<V>, r: BodyResult<S, E, V>)
    requires Closed(g) && Sealed(g, p) && s in p && i <= |g.body(s)| && r == RunFrom(g, stack, m, s, i, outs)
    requires m.cache.Keys <= p && LogIn(m.log, p)
    ensures LogIn(r.Log(), p) && (r.Done? ==> r.mem.cache.Keys <= p)
    decreases g.universe - StackSet(stack), 1, |g.body(s)| - i
  {
    if i < |g.body(s)| {
      match g.body(s)[i]
      case Abort =>
      case Emit(e) => RunStays(g, p, stack, m.(log := m.log + [Entry(s, i, e)]), s, i + 1, outs, r);
      case Call(d) =>
        assert Call(d) in g.body(s);
        var c := Ensure(g, stack, m, d);
        EnsureStays(g, p, stack, m, d, c);
        if c.Ok? { RunStays(g, p, stack, c.mem, s, i + 1, outs + [c.value], r); }
    }
  }

  /** Requests for steps of a sealed set run only steps of it. */
  lemma {:induction false} AllStay<S, E, V>(
    g: Graph<S, E, V>, p: set<S>, m: Mem<S, E, V>, roots: seq<S>, r: BodyResult<S, E, V>)
    requires Closed(g) && Sealed(g, p) && (forall s :: s in roots ==> s in p && s in g.universe) && r == EnsureAll(g, m, roots)
    requires m.cache.Keys <= p && LogIn(m.log, p)
    ensures LogIn(r.Log(), p) && (r.Done? ==> r.mem.cache.Keys <= p)
    decreases |roots|
  {
    if roots != [] {
      var c := Ensure(g, [], m, roots[0]);
      EnsureStays(g, p, [], m, roots[0], c);
      if c.Ok? { AllStay(g, p, c.mem, roots[1..], EnsureAll(g, c.mem, roots[1..])); }
    }
  }

  /** An effect that only one operation of one step performs happens at most once. */
  lemma OnceOnly<S, E, V>(g: Graph<S, E, V>, log: seq<Entry<S, E>>, s: S, pos: nat, i: nat, j: nat)
    requires Tagged(g, log) && i < |log| && j < |log| && log[i].event == log[j].event
    requires forall t, p: nat :: t in g.universe && p < |g.body(t)| && g.body(t)[p] == Emit(log[i].event)
                            ==> t == s && p == pos
    ensures i == j
  {
    assert TagOk(g, log, i) && TagOk(g, log, j);
  }

  // ------------------------------------------------------------------ happens-before

  /** What a step relies on and provides: `need(s)` must have happened before `s` is asked
      for, `give(s)` has happened once it is done, and `before(e)` must have happened before
      effect `e` is performed. */
  datatype Contract<!S, !E(==)> = Contract(need: S -> set<E>, give: S -> set<E>, before: E -> set<E>)

  ghost function Events<S, E>(log: seq<Entry<S, E>>): set<E> {
    set x | x in log :: x.event
  }

  ghost function Gain<S, E>(k: Contract<S, E>, op: Op<S, E>): set<E> {
    match op
    case Call(d) => k.give(d)
    case Emit(e) => {e}
    case Abort => {}
  }

  ghost function Demand<S, E>(k: Contract<S, E>, op: Op<S, E>): set<E> {
    match op
    case Call(d) => k.need(d)
    case Emit(e) => k.before(e)
    case Abort => {}
  }

  /** The effects known to have happened after `ops`, given those known before. */
  ghost function After<S, E>(k: Contract<S, E>, known: set<E>, ops: seq<Op<S, E>>): set<E> {
    if ops == [] then known else After(k, known, ops[..|ops| - 1]) + Gain(k, ops[|ops| - 1])
  }

  /** Every operation of `ops` finds its demands met by what is known before it. */
  ghost predicate Checked<S, E>(k: Contract<S, E>, known: set<E>, ops: seq<Op<S, E>>) {
    ops == [] || (Checked(k, known, ops[..|ops| - 1])
                  && Demand(k, ops[|ops| - 1]) <= After(k, known, ops[..|ops| - 1]))
  }

  ghost predicate Keeps<S, E, V>(g: Graph<S, E, V>, k: Contract<S, E>, s: S) {
    Checked(k, k.need(s), g.body(s)) && k.give(s) <= After(k, k.need(s), g.body(s))
  }

  ghost predicate Respects<S, E, V>(g: Graph<S, E, V>, k: Contract<S, E>) {
    forall s {:trigger Keeps(g, k, s)} :: s in g.universe ==> Keeps(g, k, s)
  }

  ghost predicate OrderedAt<S, E>(k: Contract<S, E>, log: seq<Entry<S, E>>, i: nat) {
    i < |log| && k.before(log[i].event) <= Events(log[..i])
  }

  /** Each effect in the log comes after everything it must come after. */
  ghost predicate Ordered<S, E>(k: Contract<S, E>, log: seq<Entry<S, E>>) {
    forall i {:trigger OrderedAt(k, log, i)} :: 0 <= i < |log| ==> OrderedAt(k, log, i)
  }

  ghost predicate Delivered<S, E, V>(k: Contract<S, E>, m: Mem<S, E, V>) {
    forall s :: s in m.cache ==> k.give(s) <= Events(m.log)
  }

  lemma CheckedPrefix<S, E>(k: Contract<S, E>, known: set<E>, ops: seq<Op<S, E>>, n: nat)
    requires n <= |ops| && Checked(k, known, ops)
    ensures Checked(k, known, ops[..n])
    decreases |ops|
  {
    if n < |ops| {
      assert ops[..|ops| - 1][..n] == ops[..n];
      CheckedPrefix(k, known, ops[..|ops| - 1], n);
    } else {
      assert ops[..n] == ops;
    }
  }

  lemma EventsGrow<S, E>(log: seq<Entry<S, E>>, log': seq<Entry<S, E>>)
    requires log <= log'
    ensures Events(log) <= Events(log')
  {
    forall x | x in log ensures x in log' { }
  }

  lemma OrderedNext<S, E>(k: Contract<S, E>, log: seq<Entry<S, E>>, e: Entry<S, E>)
    requires Ordered(k, log) && k.before(e.event) <= Events(log)
    ensures Ordered(k, log + [e]) && Events(log + [e]) == Events(log) + {e.event}
  {
    var log' := log + [e];
    assert log'[..|log|] == log;
    forall i | 0 <= i < |log'| ensures OrderedAt(k, log', i) {
      if i < |log| { assert OrderedAt(k, log, i) && log'[..i] == log[..i]; }
    }
    assert forall x :: x in log' <==> x in log || x == e;
  }

  lemma {:induction false} EnsureOrdered<S, E, V>(
    g: Graph<S, E, V>, k: Contract<S, E>, stack: seq<S>, m: Mem<S, E, V>, s: S, r: Result<S, E, V>)
    requires Closed(g) && Respects(g, k) && s in g.universe && r == Ensure(g, stack, m, s)
    requires Ordered(k, m.log) && Delivered(k, m) && k.need(s) <= Events(m.log)
    ensures Ordered(k, r.Log())
    ensures r.Ok? ==> m.log <= r.mem.log && Delivered(k, r.mem) && k.give(s) <= Events(r.mem.log)
    decreases g.universe - StackSet(stack), 0, 0
  {
    if s !in stack && s !in m.cache {
      var m1 := m.(spent := 0, ticks := m.ticks + 1);
      assert s in g.universe - StackSet(stack) && s !in g.universe - StackSet(stack + [s]);
      var b := RunFrom(g, stack + [s], m1, s, 0, []);
      assert g.body(s)[..0] == [];
      RunOrdered(g, k, stack + [s], m1, s, 0, [], b);
      assert Keeps(g, k, s);
    }
  }

  lemma {:induction false} RunOrdered<S, E, V>(
    g: Graph<S, E, V>, k: Contract<S, E>, stack: seq<S>, m: Mem<S, E, V>, s: S, i: nat, outs: seq<V>,
    r: BodyResult<S, E, V>)
    requires Closed(g) && Respects(g, k) && s in g.universe && i <= |g.body(s)|
    requires r == RunFrom(g, stack, m, s, i, outs)
    requires Ordered(k, m.log) && Delivered(k, m) && After(k, k.need(s), g.body(s)[..i]) <= Events(m.log)
    ensures Ordered(k, r.Log())
    ensures r.Done? ==>
              && m.log <= r.mem.log && Delivered(k, r.mem)
              && After(k, k.need(s), g.body(s)) <= Events(r.mem.log)
    decreases g.universe - StackSet(stack), 1, |g.body(s)| - i
  {
    if i == |g.body(s)| {
      assert g.body(s)[..i] == g.body(s);
    } else {
      var op := g.body(s)[i];
      assert Keeps(g, k, s);
      CheckedPrefix(k, k.need(s), g.body(s), i + 1);
      assert g.body(s)[..i + 1][..i] == g.body(s)[..i];
      assert Demand(k, op) <= Events(m.log);
      match op
      case Abort =>
      case Emit(e) =>
        OrderedNext(k, m.log, Entry(s, i, e));
        RunOrdered(g, k, stack, m.(log := m.log + [Entry(s, i, e)]), s, i + 1, outs, r);
      case Call(d) =>
        var c := Ensure(g, stack, m, d);
        assert op in g.body(s);
        EnsureOrdered(g, k, stack, m, d, c);
        if c.Ok? {
          EventsGrow(m.log, c.mem.log);
          RunOrdered(g, k, stack, c.mem, s, i + 1, outs + [c.value], r);
        }
    }
  }

  /** The rule: if every body respects the contract, then in every run of any sequence of
      requests that rely on nothing, whether it succeeds or panics, every effect comes after
      all the effects it must come after; and if it succeeds, every step that ran has given what
      it promises. */
  lemma {:induction false} HappensBefore<S, E, V>(
    g: Graph<S, E, V>, k: Contract<S, E>, m: Mem<S, E, V>, roots: seq<S>, r: BodyResult<S, E, V>)
    requires Closed(g) && Respects(g, k)
    requires forall s :: s in roots ==> s in g.universe && k.need(s) == {}
    requires r == EnsureAll(g, m, roots)
    requires Ordered(k, m.log) && Delivered(k, m)
    ensures Ordered(k, r.Log())
    ensures r.Done? ==> Delivered(k, r.mem)
    decreases |roots|
  {
    if roots != [] {
      var c := Ensure(g, [], m, roots[0]);
      EnsureOrdered(g, k, [], m, roots[0], c);
      if c.Ok? {
        HappensBefore(g, k, c.mem, roots[1..], EnsureAll(g, c.mem, roots[1..]));
      }
    }
  }

  /** Reading the rule: an earlier position for each required effect. */
  lemma OccursBefore<S, E>(k: Contract<S, E>, log: seq<Entry<S, E>>, i: nat, e: E)
    requires Ordered(k, log) && i < |log| && e in k.before(log[i].event)
    ensures exists j :: 0 <= j < i && log[j].event == e
  {
    assert OrderedAt(k, log, i);
    var x :| x in log[..i] && x.event == e;
    var j :| 0 <= j < i && log[j] == x;
  }

  // ------------------------------------------------------------------ checking bodies in pieces

  /** Bodies written as concatenations are checked piece by piece. */
  lemma {:induction false} CheckedConcat<S, E>(k: Contract<S, E>, known: set<E>, a: seq<Op<S, E>>, b: seq<Op<S, E>>)
    requires Checked(k, known, a) && Checked(k, After(k, known, a), b)
    ensures Checked(k, known, a + b)
    ensures After(k, known, a + b) == After(k, After(k, known, a), b)
    decreases |b|
  {
    if b == [] {
      assert a + b == a;
    } else {
      assert (a + b)[..|a + b| - 1] == a + b[..|b| - 1];
      CheckedConcat(k, known, a, b[..|b| - 1]);
    }
  }

  lemma {:induction false} CheckedMore<S, E>(k: Contract<S, E>, known: set<E>, known': set<E>, ops: seq<Op<S, E>>)
    requires known <= known' && Checked(k, known, ops)
    ensures Checked(k, known', ops) && After(k, known, ops) <= After(k, known', ops)
    ensures known' <= After(k, known', ops)
    decreases |ops|
  {
    if ops != [] {
      CheckedMore(k, known, known', ops[..|ops| - 1]);
    }
  }
}
