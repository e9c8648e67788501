/** Collecting build metrics: the stack of running steps, the forest of finished ones and the
    timer, driven by `enter_step` and `exit_step`; and the other bookkeeping of the same times,
    the save/restore cell of `Builder::ensure`. */
module Metrics {
  import opened Wrappers

  datatype Node<+S> = Node(step: S, own: nat, children: seq<Node<S>>)

  datatype State<+S> = State(finished: seq<Node<S>>, running: seq<Node<S>>, timer: Option<nat>)

  /** Each event reads the clock twice: for the time elapsed, then to restart the timer. */
  datatype Event<+S> = Enter(step: S, read: nat, restart: nat) | Exit(read: nat, restart: nat)

  /** `Instant::elapsed`. */
  function Elapsed(start: nat, now: nat): nat {
    if now > start then now - start else 0
  }

  /** `collect_stats`; `None` where it would panic. */
  function Collect<S>(st: State<S>, read: nat): Option<State<S>> {
    if st.running == [] || st.timer.None? then None
    else
      var n := |st.running| - 1;
      var top := st.running[n];
      Some(st.(running := st.running[..n] + [top.(own := top.own + Elapsed(st.timer.value, read))]))
  }

  function EnterStep<S>(st: State<S>, step: S, read: nat, restart: nat): Option<State<S>> {
    var collected := if st.running == [] then Some(st) else Collect(st, read);
    if collected.None? then None
    else
      var c := collected.value;
      Some(State(c.finished, c.running + [Node(step, 0, [])], Some(restart)))
  }

  function ExitStep<S>(st: State<S>, read: nat, restart: nat): Option<State<S>> {
    var collected := Collect(st, read);
    if collected.None? then None else Some(Fold(collected.value.finished, collected.value.running, restart))
  }

  /** The innermost step goes under its parent, or among the finished ones. */
  function Fold<S>(finished: seq<Node<S>>, running: seq<Node<S>>, restart: nat): State<S>
    requires running != []
  {
    var n := |running| - 1;
    var top := running[n];
    if n == 0 then State(finished + [top], [], None)
    else
      var parent := running[n - 1];
      State(finished, running[..n - 1] + [parent.(children := parent.children + [top])], Some(restart))
  }

  function Apply<S>(st: State<S>, ev: Event<S>): Option<State<S>> {
    match ev
    case Enter(step, read, restart) => EnterStep(st, step, read, restart)
    case Exit(read, restart) => ExitStep(st, read, restart)
  }

  function Run<S>(evs: seq<Event<S>>): Option<State<S>> {
    if evs == [] then Some(State([], [], None))
    else
      match Run(evs[..|evs| - 1])
      case None => None
      case Some(st) => Apply(st, evs[|evs| - 1])
  }

  /** The state updated in place, as `BuildMetrics` keeps it. */
  class MetricsState<S> {
    var finishedSteps: seq<Node<S>>
    var runningSteps: seq<Node<S>>
    var timerStart: Option<nat>

    ghost function Value(): State<S>
      reads this
    {
      State(finishedSteps, runningSteps, timerStart)
    }

    constructor ()
      ensures Value() == State([], [], None)
    {
      finishedSteps, runningSteps, timerStart := [], [], None;
    }

    /** `None` stands for a panic, after which the state is not looked at. */
    method CollectStats(read: nat) returns (ok: bool)
      modifies this
      ensures ok == Collect(old(Value()), read).Some?
      ensures Value() == if ok then Collect(old(Value()), read).value else old(Value())
    {
      ok := |runningSteps| > 0 && timerStart.Some?;
      if ok {
        var n := |runningSteps| - 1;
        var elapsed := Elapsed(timerStart.value, read);
        runningSteps := runningSteps[..n] + [runningSteps[n].(own := runningSteps[n].own + elapsed)];
      }
    }

    method Enter(step: S, read: nat, restart: nat) returns (ok: bool)
      modifies this
      ensures ok == EnterStep(old(Value()), step, read, restart).Some?
      ensures ok ==> Value() == EnterStep(old(Value()), step, read, restart).value
    {
      ok := true;
      if |runningSteps| > 0 {
        ok := CollectStats(read);
      }
      if ok {
        timerStart := Some(restart);
        runningSteps := runningSteps + [Node(step, 0, [])];
      }
    }

    method Exit(read: nat, restart: nat) returns (ok: bool)
      modifies this
      ensures ok == ExitStep(old(Value()), read, restart).Some?
      ensures ok ==> Value() == ExitStep(old(Value()), read, restart).value
    {
      ok := CollectStats(read);
      if ok {
        var n := |runningSteps| - 1;
        var top := runningSteps[n];
        runningSteps := runningSteps[..n];
        if |runningSteps| == 0 {
          finishedSteps := finishedSteps + [top];
          timerStart := None;
        } else {
          var parent := runningSteps[n - 1];
          runningSteps := runningSteps[n - 1 := parent.(children := parent.children + [top])];
          timerStart := Some(restart);
        }
      }
    }
  }

  // ------------------------------------------------------------------ references

  /** The steps being executed, innermost last. */
  function Open<S>(evs: seq<Event<S>>): seq<S> {
    if evs == [] then []
    else
      var open := Open(evs[..|evs| - 1]);
      match evs[|evs| - 1]
      case Enter(step, _, _) => open + [step]
      case Exit(_, _) => if open == [] then [] else open[..|open| - 1]
  }

  /** No step is left before it is entered. */
  predicate Nested<S>(evs: seq<Event<S>>) {
    evs == [] || (Nested(evs[..|evs| - 1]) && (evs[|evs| - 1].Exit? ==> Open(evs[..|evs| - 1]) != []))
  }

  /** Steps in the order in which they were entered. */
  function Entered<S>(evs: seq<Event<S>>): seq<S> {
    if evs == [] then []
    else Entered(evs[..|evs| - 1]) + (match evs[|evs| - 1] case Enter(step, _, _) => [step] case Exit(_, _) => [])
  }

  /** The time during which at least one step was being executed. */
  function Busy<S>(evs: seq<Event<S>>): nat {
    if |evs| == 0 then 0
    else
      var before := evs[..|evs| - 1];
      Busy(before) + if Open(before) == [] then 0 else Elapsed(before[|before| - 1].restart, evs[|evs| - 1].read)
  }

  function Pre<S>(ns: seq<Node<S>>): seq<S> {
    if ns == [] then []
    else Pre(ns[..|ns| - 1]) + [ns[|ns| - 1].step] + Pre(ns[|ns| - 1].children)
  }

  /** Steps with their own times, children before parents. */
  function Post<S>(ns: seq<Node<S>>): seq<(S, nat)> {
    if ns == [] then []
    else Post(ns[..|ns| - 1]) + Post(ns[|ns| - 1].children) + [(ns[|ns| - 1].step, ns[|ns| - 1].own)]
  }

  function Total<S>(ns: seq<Node<S>>): nat {
    if ns == [] then 0
    else Total(ns[..|ns| - 1]) + Total(ns[|ns| - 1].children) + ns[|ns| - 1].own
  }

  /** The finished descendants of the running steps. */
  function PostInside<S>(running: seq<Node<S>>): seq<(S, nat)> {
    if running == [] then []
    else PostInside(running[..|running| - 1]) + Post(running[|running| - 1].children)
  }

  function Labels<S>(ns: seq<Node<S>>): seq<S> {
    if ns == [] then [] else Labels(ns[..|ns| - 1]) + [ns[|ns| - 1].step]
  }

  // ------------------------------------------------------------------ one more node

  function PreOf<S>(st: State<S>): seq<S> { Pre(st.finished) + Pre(st.running) }
  function TotalOf<S>(st: State<S>): nat { Total(st.finished) + Total(st.running) }
  function PostOf<S>(st: State<S>): seq<(S, nat)> { Post(st.finished) + PostInside(st.running) }

  lemma Snoc<S>(ns: seq<Node<S>>, x: Node<S>)
    ensures Pre(ns + [x]) == Pre(ns) + [x.step] + Pre(x.children)
    ensures Post(ns + [x]) == Post(ns) + Post(x.children) + [(x.step, x.own)]
    ensures Total(ns + [x]) == Total(ns) + Total(x.children) + x.own
    ensures PostInside(ns + [x]) == PostInside(ns) + Post(x.children)
    ensures Labels(ns + [x]) == Labels(ns) + [x.step]
  {
    assert (ns + [x])[..|ns|] == ns;
  }

  /** `collect_stats` adds the elapsed time to the innermost step and changes nothing else. */
  lemma CollectKeeps<S>(st: State<S>, read: nat, c: State<S>)
    requires st.running != [] && st.timer.Some? && Collect(st, read) == Some(c)
    ensures c.finished == st.finished && c.timer == st.timer && |c.running| == |st.running|
    ensures Labels(c.running) == Labels(st.running) && PreOf(c) == PreOf(st) && PostOf(c) == PostOf(st)
    ensures TotalOf(c) == TotalOf(st) + Elapsed(st.timer.value, read)
  {
    var n := |st.running| - 1;
    var front, top := st.running[..n], st.running[n];
    assert st.running == front + [top];
    Snoc(front, top);
    Snoc(front, c.running[n]);
  }

  lemma Rebracket<T>(a: seq<T>, b: seq<T>, c: seq<T>, d: seq<T>, e: seq<T>)
    ensures (a + b + c) + d + e == a + b + (c + d + e)
  {
  }

  /** Where the innermost of several running steps goes. */
  lemma FoldInner<S>(outer: seq<Node<S>>, parent: Node<S>, top: Node<S>, parent': Node<S>)
    requires parent' == parent.(children := parent.children + [top])
    ensures Labels(outer + [parent] + [top]) == Labels(outer + [parent']) + [top.step]
    ensures Total(outer + [parent] + [top]) == Total(outer + [parent'])
  {
    Snoc(outer + [parent], top);
    Snoc(outer, parent);
    Snoc(outer, parent');
    Snoc(parent.children, top);
  }

  lemma FoldInnerPre<S>(outer: seq<Node<S>>, parent: Node<S>, top: Node<S>, parent': Node<S>)
    requires parent' == parent.(children := parent.children + [top])
    ensures Pre(outer + [parent]+ [top]) == Pre(outer + [parent'])
  {
    Snoc(outer + [parent], top);
    Snoc(outer, parent);
    Snoc(outer, parent');
    Snoc(parent.children, top);
    Rebracket(Pre(outer), [parent.step], Pre(parent.children), [top.step], Pre(top.children));
  }

  lemma FoldInnerPost<S>(outer: seq<Node<S>>, parent: Node<S>, top: Node<S>, parent': Node<S>)
    requires parent' == parent.(children := parent.children + [top])
    ensures PostInside(outer + [parent']) == PostInside(outer + [parent] + [top]) + [(top.step, top.own)]
  {
    Snoc(outer + [parent], top);
    Snoc(outer, parent);
    Snoc(outer, parent');
    Snoc(parent.children, top);
    Regroup(PostInside(outer), Post(parent.children), Post(top.children));
    Regroup(PostInside(outer), Post(parent.children), Post(top.children) + [(top.step, top.own)]);
  }

  lemma FoldOuter<S>(c: State<S>, restart: nat)
    requires |c.running| == 1
    ensures var f, top := Fold(c.finished, c.running, restart), c.running[0];
            && f.running == [] && Labels(c.running) == [top.step] && PreOf(f) == PreOf(c) && TotalOf(f) == TotalOf(c)
            && PostOf(f) == PostOf(c) + [(top.step, top.own)]
  {
    var top := c.running[0];
    assert c.running == [] + [top];
    assert Fold(c.finished, c.running, restart) == State(c.finished + [top], [], None);
    Snoc(c.finished, top);
    Snoc([], top);
    Regroup(Pre(c.finished), [top.step], Pre(top.children));
  }

  lemma FoldKeeps<S>(c: State<S>, restart: nat)
    requires c.running != []
    ensures var n, f := |c.running| - 1, Fold(c.finished, c.running, restart);
            && Labels(c.running) == Labels(f.running) + [c.running[n].step] && |f.running| == n
            && PreOf(f) == PreOf(c) && TotalOf(f) == TotalOf(c)
            && PostOf(f) == PostOf(c) + [(c.running[n].step, c.running[n].own)]
  {
    var n := |c.running| - 1;
    if n == 0 {
      FoldOuter(c, restart);
    } else {
      var outer, parent, top := c.running[..n - 1], c.running[n - 1], c.running[n];
      var parent' := parent.(children := parent.children + [top]);
      assert c.running == outer + [parent] + [top];
      assert Fold(c.finished, c.running, restart) == State(c.finished, outer + [parent'], Some(restart));
      FoldInner(outer, parent, top, parent');
      FoldInnerPre(outer, parent, top, parent');
      FoldInnerPost(outer, parent, top, parent');
    }
  }

  // ------------------------------------------------------------------ main results

  /** What holds of the state after the events `evs`. */
  ghost predicate Good<S>(evs: seq<Event<S>>, st: State<S>) {
    && Labels(st.running) == Open(evs) && |st.running| == |Open(evs)|
    && st.timer == (if Open(evs) == [] then None else Some(evs[|evs| - 1].restart))
    && PreOf(st) == Entered(evs)
    && TotalOf(st) == Busy(evs)
  }

  /** After any sequence of events in which no step is left before it is entered: nothing has
      panicked; the running stack is the stack of open steps; the timer runs exactly while it is
      non-empty; the preorder of the whole forest is the order of entering; and the own times add
      up to the time during which some step was being executed. */
  lemma {:induction false} Collected<S>(evs: seq<Event<S>>)
    requires Nested(evs)
    ensures Run(evs).Some? && Good(evs, Run(evs).value)
    decreases |evs|
  {
    if evs != [] {
      var before, ev := evs[..|evs| - 1], evs[|evs| - 1];
      Collected(before);
      OneMore(before, ev, Run(before).value);
      assert before + [ev] == evs;
    }
  }

  lemma {:induction false} AfterEvent<S>(before: seq<Event<S>>, ev: Event<S>)
    ensures ev.Enter? ==> Open(before + [ev]) == Open(before) + [ev.step] && Entered(before + [ev]) == Entered(before) + [ev.step]
    ensures ev.Exit? && Open(before) != [] ==> Open(before + [ev]) == Open(before)[..|Open(before)| - 1]
    ensures ev.Exit? ==> Entered(before + [ev]) == Entered(before)
    ensures Busy(before + [ev])
         == Busy(before) + if Open(before) == [] then 0 else Elapsed(before[|before| - 1].restart, ev.read)
  {
    assert (before + [ev])[..|before|] == before;
  }

  lemma OneMoreEnter<S>(before: seq<Event<S>>, ev: Event<S>, st: State<S>, st1: State<S>)
    requires Good(before, st) && ev.Enter?
    requires if st.running == [] then st1 == st else Collect(st, ev.read) == Some(st1)
    ensures Apply(st, ev).Some? && Good(before + [ev], Apply(st, ev).value)
  {
    AfterEvent(before, ev);
    if st.running != [] { CollectKeeps(st, ev.read, st1); }
    var node := Node(ev.step, 0, []);
    assert Apply(st, ev) == Some(State(st1.finished, st1.running + [node], Some(ev.restart)));
    Snoc(st1.running, node);
  }

  lemma OneMoreExit<S>(before: seq<Event<S>>, ev: Event<S>, st: State<S>, st1: State<S>)
    requires Good(before, st) && ev.Exit? && st.running != [] && Collect(st, ev.read) == Some(st1)
    ensures Apply(st, ev).Some? && Good(before + [ev], Apply(st, ev).value)
  {
    AfterEvent(before, ev);
    CollectKeeps(st, ev.read, st1);
    assert Apply(st, ev) == Some(Fold(st1.finished, st1.running, ev.restart));
    FoldKeeps(st1, ev.restart);
  }

  lemma OneMore<S>(before: seq<Event<S>>, ev: Event<S>, st: State<S>)
    requires Good(before, st) && (ev.Exit? ==> Open(before) != [])
    ensures Apply(st, ev).Some? && Good(before + [ev], Apply(st, ev).value)
  {
    var st1 := if st.running == [] then st else Collect(st, ev.read).value;
    if ev.Enter? { OneMoreEnter(before, ev, st, st1); } else { OneMoreExit(before, ev, st, st1); }
  }

  // ------------------------------------------------------------------ the other bookkeeping

  datatype Frame<+S> = Frame(step: S, start: nat, parent: nat)

  /** `ensure`'s accounting: `spent` is the cell `time_spent_on_dependencies`; a frame holds
      what `ensure` keeps in local variables; `out` lists finished steps and their own times. */
  datatype Cell<+S> = Cell(frames: seq<Frame<S>>, spent: nat, out: seq<(S, nat)>)

  /** `None` where the duration subtraction would panic. */
  function ApplyCell<S>(c: Cell<S>, ev: Event<S>): Option<Cell<S>> {
    match ev
    case Enter(step, now, _) => Some(Cell(c.frames + [Frame(step, now, c.spent)], 0, c.out))
    case Exit(now, _) =>
      if c.frames == [] then None
      else
        var f := c.frames[|c.frames| - 1];
        var dur := Elapsed(f.start, now);
        if dur < c.spent then None
        else Some(Cell(c.frames[..|c.frames| - 1], f.parent + dur, c.out + [(f.step, dur - c.spent)]))
  }

  function RunCell<S>(evs: seq<Event<S>>): Option<Cell<S>> {
    if evs == [] then Some(Cell([], 0, []))
    else
      match RunCell(evs[..|evs| - 1])
      case None => None
      case Some(c) => ApplyCell(c, evs[|evs| - 1])
  }

  /** Both samples of an event are the same clock point, and the clock does not go back. */
  ghost predicate Sampled<S>(evs: seq<Event<S>>) {
    && (forall i :: 0 <= i < |evs| ==> evs[i].read == evs[i].restart)
    && (forall i :: 0 < i < |evs| ==> evs[i - 1].read <= evs[i].read)
  }

  /** At every level, own time so far, time of finished children and time since start agree. */
  ghost predicate AgreeTimes<S>(running: seq<Node<S>>, timer: Option<nat>, frames: seq<Frame<S>>, spent: nat, busy: nat) {
    var n := |running|;
    && |frames| == n
    && (forall i :: 0 <= i < n ==> frames[i].step == running[i].step)
    && (forall i :: 0 < i < n ==> frames[i - 1].start + running[i - 1].own + frames[i].parent == frames[i].start)
    && (timer.Some? <==> n > 0)
    && (n > 0 ==> frames[n - 1].start + running[n - 1].own + spent == timer.value)
    && (if n == 0 then spent == busy
        else frames[0].start <= timer.value && busy == frames[0].parent + (timer.value - frames[0].start))
  }

  ghost predicate Agree<S>(finished: seq<Node<S>>, running: seq<Node<S>>, timer: Option<nat>, c: Cell<S>, busy: nat) {
    AgreeTimes(running, timer, c.frames, c.spent, busy) && c.out == Post(finished) + PostInside(running)
  }

  lemma AgreeTop<S>(running: seq<Node<S>>, timer: nat, frames: seq<Frame<S>>, spent: nat, busy: nat, now: nat, top: Node<S>)
    requires AgreeTimes(running, Some(timer), frames, spent, busy) && timer <= now
    requires top == running[|running| - 1].(own := running[|running| - 1].own + (now - timer))
    ensures AgreeTimes(running[..|running| - 1] + [top], Some(now), frames, spent, busy + (now - timer))
  {
  }

  /** Collecting brings the innermost own time up to date. */
  lemma AgreeCollect<S>(st: State<S>, c: Cell<S>, now: nat, busy: nat, st1: State<S>)
    requires Agree(st.finished, st.running, st.timer, c, busy) && st.running != []
    requires st.timer.value <= now && Collect(st, now) == Some(st1)
    ensures Agree(st1.finished, st1.running, Some(now), c, busy + Elapsed(st.timer.value, now))
  {
    CollectKeeps(st, now, st1);
    AgreeTop(st.running, st.timer.value, c.frames, c.spent, busy, now, st1.running[|st.running| - 1]);
  }

  lemma AgreePush<S>(running: seq<Node<S>>, timer: Option<nat>, frames: seq<Frame<S>>, spent: nat, busy: nat, step: S, now: nat)
    requires AgreeTimes(running, timer, frames, spent, busy) && (running != [] ==> timer == Some(now))
    ensures AgreeTimes(running + [Node(step, 0, [])], Some(now), frames + [Frame(step, now, spent)], 0, busy)
  {
  }

  lemma AgreeEnter<S>(finished: seq<Node<S>>, running: seq<Node<S>>, timer: Option<nat>, c: Cell<S>, step: S, now: nat, busy: nat)
    requires Agree(finished, running, timer, c, busy) && (running != [] ==> timer == Some(now))
    ensures Agree(finished, running + [Node(step, 0, [])], Some(now),
                  Cell(c.frames + [Frame(step, now, c.spent)], 0, c.out), busy)
  {
    AgreePush(running, timer, c.frames, c.spent, busy, step, now);
    Snoc(running, Node(step, 0, []));
  }

  /** Leaving the innermost frame: its own time is its duration less its children's. */
  lemma AgreePop<S>(running: seq<Node<S>>, frames: seq<Frame<S>>, spent: nat, busy: nat, now: nat)
    requires AgreeTimes(running, Some(now), frames, spent, busy) && running != []
    ensures var n := |running| - 1;
            var dur := Elapsed(frames[n].start, now);
            && frames[n].step == running[n].step && running[n].own + spent == dur
            && Popped(running[..n], now, frames[..n], frames[n].parent + dur, busy)
  {
    var n := |running| - 1;
    if n > 0 {
      assert frames[n - 1].start + running[n - 1].own + frames[n].parent == frames[n].start;
    }
  }

  /** As `AgreeTimes`, for the frames left once the innermost has gone. */
  ghost predicate Popped<S>(running: seq<Node<S>>, now: nat, frames: seq<Frame<S>>, spent: nat, busy: nat) {
    AgreeTimes(running, if running == [] then None else Some(now), frames, spent, busy)
  }

  lemma AgreeFold<S>(finished: seq<Node<S>>, running: seq<Node<S>>, now: nat, frames: seq<Frame<S>>, spent: nat, busy: nat)
    requires running != [] && Popped(running[..|running| - 1], now, frames, spent, busy)
    ensures AgreeTimes(Fold(finished, running, now).running, Fold(finished, running, now).timer, frames, spent, busy)
  {
    var n, f := |running| - 1, Fold(finished, running, now).running;
    assert |f| == n;
    assert forall i :: 0 <= i < n ==> f[i].step == running[..n][i].step && f[i].own == running[..n][i].own;
  }

  lemma AgreeExit<S>(finished: seq<Node<S>>, running: seq<Node<S>>, c: Cell<S>, now: nat, busy: nat)
    requires Agree(finished, running, Some(now), c, busy) && running != []
    ensures ApplyCell(c, Exit(now, now)).Some?
    ensures var f := Fold(finished, running, now);
            Agree(f.finished, f.running, f.timer, ApplyCell(c, Exit(now, now)).value, busy)
  {
    AgreePop(running, c.frames, c.spent, busy, now);
    FoldKeeps(State(finished, running, None), now);
    var n := |running| - 1;
    AgreeFold(finished, running, now, c.frames[..n], c.frames[n].parent + Elapsed(c.frames[n].start, now), busy);
    assert c.out + [(running[n].step, running[n].own)] == ApplyCell(c, Exit(now, now)).value.out;
  }

  ghost predicate AgreeAfter<S>(st: State<S>, c: Cell<S>, ev: Event<S>, busy: nat) {
    && Apply(st, ev).Some? && ApplyCell(c, ev).Some?
    && Agree(Apply(st, ev).value.finished, Apply(st, ev).value.running, Apply(st, ev).value.timer,
             ApplyCell(c, ev).value, busy)
  }

  lemma AgreeAfterEnter<S>(st: State<S>, c: Cell<S>, ev: Event<S>, busy: nat, st1: State<S>)
    requires ev.Enter? && ev.read == ev.restart
    requires if st.running == [] then st1 == st else Collect(st, ev.read) == Some(st1)
    requires Agree(st1.finished, st1.running, if st1.running == [] then st1.timer else Some(ev.read), c, busy)
    ensures AgreeAfter(st, c, ev, busy)
  {
    assert Apply(st, ev) == Some(State(st1.finished, st1.running + [Node(ev.step, 0, [])], Some(ev.read)));
    AgreeEnter(st1.finished, st1.running, if st1.running == [] then st1.timer else Some(ev.read), c, ev.step, ev.read, busy);
  }

  lemma AgreeAfterExit<S>(st: State<S>, c: Cell<S>, ev: Event<S>, busy: nat, st1: State<S>)
    requires ev.Exit? && ev.read == ev.restart && Collect(st, ev.read) == Some(st1)
    requires Agree(st1.finished, st1.running, Some(ev.read), c, busy)
    ensures AgreeAfter(st, c, ev, busy)
  {
    assert ev == Exit(ev.read, ev.read);
    assert Apply(st, ev) == Some(Fold(st1.finished, st1.running, ev.read));
    AgreeExit(st1.finished, st1.running, c, ev.read, busy);
  }

  lemma AgreeNext<S>(st: State<S>, c: Cell<S>, ev: Event<S>, busy: nat)
    requires Agree(st.finished, st.running, st.timer, c, busy) && st.running != []
    requires ev.read == ev.restart && st.timer.value <= ev.read
    ensures AgreeAfter(st, c, ev, busy + Elapsed(st.timer.value, ev.read))
  {
    var st1 := Collect(st, ev.read).value;
    var busy1 := busy + Elapsed(st.timer.value, ev.read);
    AgreeCollect(st, c, ev.read, busy, st1);
    if ev.Enter? { AgreeAfterEnter(st, c, ev, busy1, st1); } else { AgreeAfterExit(st, c, ev, busy1, st1); }
  }

  lemma TimerRuns<S>(evs: seq<Event<S>>)
    requires Nested(evs)
    ensures Run(evs).Some?
    ensures Run(evs).value.timer == if Open(evs) == [] then None else Some(evs[|evs| - 1].restart)
    ensures Open(evs) == [] <==> Run(evs).value.running == []
  {
    Collected(evs);
  }

  /** Both bookkeepings give every step the same own time, in the same order of finishing, and
      neither panics. */
  lemma {:induction false} SameTimes<S>(evs: seq<Event<S>>)
    requires Nested(evs) && Sampled(evs)
    ensures Run(evs).Some? && RunCell(evs).Some?
    ensures var st := Run(evs).value; Agree(st.finished, st.running, st.timer, RunCell(evs).value, Busy(evs))
    decreases |evs|
  {
    if evs != [] {
      var before, ev := evs[..|evs| - 1], evs[|evs| - 1];
      SameTimes(before);
      TimerRuns(before);
      if Open(before) != [] { assert before[|before| - 1] == evs[|evs| - 2]; }
      var st, c := Run(before).value, RunCell(before).value;
      if st.running == [] {
        AgreeAfterEnter(st, c, ev, Busy(before), st);
      } else {
        AgreeNext(st, c, ev, Busy(before));
      }
    }
  }

  /** Once every step has been left, `ensure`'s report is the metrics forest read children
      first, and its cell holds exactly the time during which something was running. */
  lemma SameReport<S>(evs: seq<Event<S>>)
    requires Nested(evs) && Sampled(evs) && Open(evs) == []
    ensures Run(evs).Some? && Run(evs).value.running == []
    ensures RunCell(evs) == Some(Cell([], Busy(evs), Post(Run(evs).value.finished)))
  {
    SameTimes(evs);
    TimerRuns(evs);
    AgreeAtRest(Run(evs).value.finished, RunCell(evs).value, Busy(evs));
  }

  lemma AgreeAtRest<S>(finished: seq<Node<S>>, c: Cell<S>, busy: nat)
    requires Agree(finished, [], None, c, busy)
    ensures c == Cell([], busy, Post(finished))
  {
  }

  /** Leaving a step panics exactly when none is running; nothing else panics. */
  lemma {:induction false} PanicsExactly<S>(evs: seq<Event<S>>)
    ensures Run(evs).Some? <==> Nested(evs)
    decreases |evs|
  {
    if evs != [] {
      var before := evs[..|evs| - 1];
      PanicsExactly(before);
      if Nested(before) {
        TimerRuns(before);
        if Nested(evs) { Collected(evs); }
      }
    }
  }
}
