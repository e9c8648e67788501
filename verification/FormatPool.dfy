/** The formatter's worker pool as a protocol: walker threads send files into a bounded
    channel, one thread batches them into `rustfmt` children and awaits these, and the main
    thread drops its sender when the walk is over.  Every interleaving of the threads' steps is
    a run. */
module FormatPool {
  import opened Wrappers

  const CAPACITY: nat := 128
  const EXTRA: nat := 7

  /** Where the consumer thread is. */
  datatype Pc<+F> =
    | Receiving
    | Batching(first: F, more: seq<F>)
    | Awaiting
    | Draining
    | Joined
    | Failed

  /** `senders[i]` is what walker `i` has still to send; `children` are the children not yet
      awaited, oldest first; `spawned` and `awaited` record batches in order. */
  datatype State<+F> = State(
    senders: seq<seq<F>>,
    dropped: bool,
    channel: seq<F>,
    pc: Pc<F>,
    children: seq<seq<F>>,
    spawned: seq<seq<F>>,
    awaited: seq<seq<F>>)

  datatype Action = Send(walker: nat) | Drop | Recv | Disconnected | TryRecv | Spawn | Await(success: bool) | Join

  function Init<F>(senders: seq<seq<F>>): State<F> {
    State(senders, false, [], Receiving, [], [], [])
  }

  predicate AllSent<F>(senders: seq<seq<F>>) {
    forall i :: 0 <= i < |senders| ==> senders[i] == []
  }

  /** The state after action `a`, if it can happen; `limit` is `max_processes`.  When a child
      has failed the whole process exits, so nothing happens any more. */
  function Next<F>(limit: nat, s: State<F>, a: Action): Option<State<F>> {
    if s.pc.Failed? then None else
    match a
    case Send(i) =>
      if i < |s.senders| && s.senders[i] != [] && |s.channel| < CAPACITY then
        Some(s.(senders := s.senders[i := s.senders[i][1..]], channel := s.channel + [s.senders[i][0]]))
      else None
    case Drop =>
      if AllSent(s.senders) && !s.dropped then Some(s.(dropped := true)) else None
    case Recv =>
      if s.pc.Receiving? && s.channel != [] then
        Some(s.(channel := s.channel[1..], pc := Batching(s.channel[0], [])))
      else None
    case Disconnected =>
      if s.pc.Receiving? && s.channel == [] && s.dropped then Some(s.(pc := Draining)) else None
    case TryRecv =>
      if s.pc.Batching? && |s.pc.more| < EXTRA && s.channel != [] then
        Some(s.(channel := s.channel[1..], pc := Batching(s.pc.first, s.pc.more + [s.channel[0]])))
      else None
    case Spawn =>
      if s.pc.Batching? && (|s.pc.more| == EXTRA || s.channel == []) then
        var batch := s.pc.more + [s.pc.first];
        Some(s.(children := s.children + [batch], spawned := s.spawned + [batch],
                pc := if |s.children| + 1 >= limit then Awaiting else Receiving))
      else None
    case Await(success) =>
      if (s.pc.Awaiting? || s.pc.Draining?) && s.children != [] then
        if success then
          Some(s.(children := s.children[1..], awaited := s.awaited + [s.children[0]],
                  pc := if s.pc.Awaiting? then Receiving else Draining))
        else Some(s.(pc := Failed))
      else None
    case Join =>
      if s.pc.Draining? && s.children == [] then Some(s.(pc := Joined)) else None
  }

  function Run<F>(limit: nat, s: State<F>, actions: seq<Action>): Option<State<F>> {
    if actions == [] then Some(s)
    else
      match Run(limit, s, actions[..|actions| - 1])
      case None => None
      case Some(s') => Next(limit, s', actions[|actions| - 1])
  }

  // ------------------------------------------------------------------ invariant

  function Flat<F>(batches: seq<seq<F>>): multiset<F> {
    if batches == [] then multiset{} else Flat(batches[..|batches| - 1]) + multiset(batches[|batches| - 1])
  }

  function Count<F>(batches: seq<seq<F>>): nat {
    if batches == [] then 0 else Count(batches[..|batches| - 1]) + |batches[|batches| - 1]|
  }

  function InHand<F>(pc: Pc<F>): multiset<F> {
    if pc.Batching? then multiset(pc.more) + multiset{pc.first} else multiset{}
  }

  /** All files, wherever they are. */
  function Files<F>(s: State<F>): multiset<F> {
    Flat(s.senders) + multiset(s.channel) + InHand(s.pc) + Flat(s.spawned)
  }

  function Bound(limit: nat): nat { if limit == 0 then 1 else limit }

  ghost predicate Inv<F>(limit: nat, files: multiset<F>, s: State<F>) {
    Files(s) == files && Shape(limit, s)
  }

  ghost predicate Shape<F>(limit: nat, s: State<F>) {
    && |s.channel| <= CAPACITY
    && (s.pc.Batching? ==> |s.pc.more| <= EXTRA)
    && s.spawned == s.awaited + s.children
    && (forall i :: 0 <= i < |s.spawned| ==> 1 <= |s.spawned[i]| <= EXTRA + 1)
    && |s.children| <= Bound(limit)
    && (s.pc.Receiving? || s.pc.Batching? || s.pc.Draining? ==> |s.children| < Bound(limit))
    && (s.pc.Awaiting? ==> s.children != [])
    && (s.dropped ==> AllSent(s.senders))
    && (s.pc.Draining? || s.pc.Joined? ==> s.dropped && s.channel == [])
    && (s.pc.Joined? ==> s.children == [])
  }

  lemma FlatSnoc<F>(batches: seq<seq<F>>, b: seq<F>)
    ensures Flat(batches + [b]) == Flat(batches) + multiset(b)
    ensures Count(batches + [b]) == Count(batches) + |b|
  {
    assert (batches + [b])[..|batches|] == batches;
  }

  /** Taking the first file of one sender. */
  lemma {:induction false} FlatTake<F>(senders: seq<seq<F>>, i: nat)
    requires i < |senders| && senders[i] != []
    ensures Flat(senders) == Flat(senders[i := senders[i][1..]]) + multiset{senders[i][0]}
    ensures Count(senders) == Count(senders[i := senders[i][1..]]) + 1
    decreases |senders|
  {
    var n := |senders| - 1;
    var senders' := senders[i := senders[i][1..]];
    if i == n {
      assert senders'[..n] == senders[..n];
      assert senders[n] == [senders[n][0]] + senders[n][1..];
    } else {
      FlatTake(senders[..n], i);
      assert senders'[..n] == senders[..n][i := senders[i][1..]];
    }
  }

  lemma {:induction false} FlatEmpty<F>(senders: seq<seq<F>>)
    requires AllSent(senders)
    ensures Flat(senders) == multiset{} && Count(senders) == 0
    decreases |senders|
  {
    if senders != [] { FlatEmpty(senders[..|senders| - 1]); }
  }

  lemma HeadTail<F>(s: seq<F>)
    requires s != []
    ensures multiset(s) == multiset{s[0]} + multiset(s[1..])
  {
    assert s == [s[0]] + s[1..];
  }

  lemma SendKeeps<F>(senders: seq<seq<F>>, channel: seq<F>, i: nat)
    requires i < |senders| && senders[i] != []
    ensures Flat(senders[i := senders[i][1..]]) + multiset(channel + [senders[i][0]]) == Flat(senders) + multiset(channel)
  {
    FlatTake(senders, i);
  }

  lemma TakeKeeps<F>(channel: seq<F>, pc: Pc<F>, pc': Pc<F>)
    requires channel != []
    requires if pc.Batching? then pc' == Batching(pc.first, pc.more + [channel[0]]) else pc' == Batching(channel[0], [])
    ensures multiset(channel[1..]) + InHand(pc') == multiset(channel) + InHand(pc)
  {
    HeadTail(channel);
  }

  lemma SpawnKeeps<F>(spawned: seq<seq<F>>, pc: Pc<F>)
    requires pc.Batching?
    ensures Flat(spawned + [pc.more + [pc.first]]) == Flat(spawned) + InHand(pc)
  {
    FlatSnoc(spawned, pc.more + [pc.first]);
  }

  lemma Assoc<F>(a: multiset<F>, b: multiset<F>, c: multiset<F>)
    ensures (a + b) + c == a + (b + c)
  {
  }

  lemma RecvKeeps<F>(limit: nat, s: State<F>, a: Action)
    requires (a.Recv? || a.TryRecv?) && Next(limit, s, a).Some?
    ensures Files(Next(limit, s, a).value) == Files(s)
  {
    var s' := Next(limit, s, a).value;
    TakeKeeps(s.channel, s.pc, s'.pc);
    Assoc(Flat(s.senders), multiset(s.channel), InHand(s.pc));
    Assoc(Flat(s.senders), multiset(s'.channel), InHand(s'.pc));
  }

  lemma SendFiles<F>(limit: nat, s: State<F>, i: nat)
    requires Next(limit, s, Send(i)).Some?
    ensures Files(Next(limit, s, Send(i)).value) == Files(s)
  {
    SendKeeps(s.senders, s.channel, i);
  }

  lemma SpawnFiles<F>(limit: nat, s: State<F>)
    requires Next(limit, s, Spawn).Some?
    ensures Files(Next(limit, s, Spawn).value) == Files(s)
  {
    var s' := Next(limit, s, Spawn).value;
    SpawnKeeps(s.spawned, s.pc);
    Assoc(Flat(s.senders) + multiset(s.channel), InHand(s.pc), Flat(s.spawned));
    Assoc(Flat(s.senders) + multiset(s.channel), InHand(s'.pc), Flat(s'.spawned));
    assert s'.senders == s.senders && s'.channel == s.channel;
    assert InHand(s'.pc) + Flat(s'.spawned) == InHand(s.pc) + Flat(s.spawned);
  }

  lemma FilesKept<F>(limit: nat, s: State<F>, a: Action)
    requires Next(limit, s, a).Some?
    ensures Files(Next(limit, s, a).value) == Files(s)
  {
    var s' := Next(limit, s, a).value;
    match a
    case Send(i) => SendFiles(limit, s, i);
    case Spawn => SpawnFiles(limit, s);
    case Recv => RecvKeeps(limit, s, a);
    case TryRecv => RecvKeeps(limit, s, a);
    case _ => assert InHand(s'.pc) == InHand(s.pc);
  }

  lemma ShapeKept<F>(limit: nat, s: State<F>, a: Action)
    requires Shape(limit, s) && Next(limit, s, a).Some?
    ensures Shape(limit, Next(limit, s, a).value)
  {
    if a.Await? && a.success {
      assert s.children == [s.children[0]] + s.children[1..];
      assert s.awaited + s.children == (s.awaited + [s.children[0]]) + s.children[1..];
    }
    if a.Spawn? {
      var batch := s.pc.more + [s.pc.first];
      assert (s.awaited + s.children) + [batch] == s.awaited + (s.children + [batch]);
    }
  }

  // ------------------------------------------------------------------ main results

  /** In every interleaving, at every moment: no file is lost or handed out twice, batches hold
      one to eight files, children are awaited in the order of spawning, and at most `limit`
      (or one) of them are not awaited. */
  lemma {:induction false} AlwaysSafe<F>(limit: nat, senders: seq<seq<F>>, actions: seq<Action>)
    requires Run(limit, Init(senders), actions).Some?
    ensures Inv(limit, Flat(senders), Run(limit, Init(senders), actions).value)
    decreases |actions|
  {
    if actions != [] {
      AlwaysSafe(limit, senders, actions[..|actions| - 1]);
      var s := Run(limit, Init(senders), actions[..|actions| - 1]).value;
      FilesKept(limit, s, actions[|actions| - 1]);
      ShapeKept(limit, s, actions[|actions| - 1]);
    }
  }

  ghost predicate Stuck<F>(limit: nat, s: State<F>) {
    forall a :: Next(limit, s, a).None?
  }

  /** No thread waits for ever: until the pool is joined or a child has failed, something can
      happen. */
  lemma NeverStuck<F>(limit: nat, s: State<F>) returns (a: Action)
    requires Shape(limit, s) && !s.pc.Joined? && !s.pc.Failed?
    ensures Next(limit, s, a).Some?
  {
    match s.pc
    case Batching(_, more) => a := if |more| == EXTRA || s.channel == [] then Spawn else TryRecv;
    case Awaiting => a := Await(true);
    case Draining => a := if s.children == [] then Join else Await(true);
    case Receiving =>
      if s.channel != [] {
        a := Recv;
      } else if s.dropped {
        a := Disconnected;
      } else if AllSent(s.senders) {
        a := Drop;
      } else {
        var i :| 0 <= i < |s.senders| && s.senders[i] != [];
        a := Send(i);
      }
  }

  /** How far a state is from the end. */
  function Distance<F>(s: State<F>): nat {
    6 * Count(s.senders) + 5 * |s.channel| + 2 * |s.children| + (if s.dropped then 0 else 1)
    + match s.pc
      case Receiving => 2
      case Batching(_, more) => 6 + 4 * |more|
      case Awaiting => 2
      case Draining => 1
      case _ => 0
  }

  lemma Closer<F>(limit: nat, s: State<F>, a: Action)
    requires Next(limit, s, a).Some?
    ensures Distance(Next(limit, s, a).value) < Distance(s)
  {
    if a.Send? { FlatTake(s.senders, a.walker); }
  }

  /** Every run is finite, with a bound that depends only on the number of files. */
  lemma {:induction false} RunsEnd<F>(limit: nat, senders: seq<seq<F>>, actions: seq<Action>)
    requires Run(limit, Init(senders), actions).Some?
    ensures |actions| + Distance(Run(limit, Init(senders), actions).value) <= 6 * Count(senders) + 3
    decreases |actions|
  {
    if actions != [] {
      var before := actions[..|actions| - 1];
      RunsEnd(limit, senders, before);
      Closer(limit, Run(limit, Init(senders), before).value, actions[|actions| - 1]);
    }
  }

  lemma FailStep<F>(limit: nat, s: State<F>, a: Action)
    requires Next(limit, s, a).Some?
    ensures !s.pc.Failed? && (Next(limit, s, a).value.pc.Failed? <==> a == Await(false))
  {
  }

  /** A run ends in failure exactly when some child it awaited failed. */
  lemma {:induction false} FailsOnlyByChild<F>(limit: nat, s: State<F>, actions: seq<Action>)
    requires !s.pc.Failed? && Run(limit, s, actions).Some?
    ensures Run(limit, s, actions).value.pc.Failed? <==> Await(false) in actions
    decreases |actions|
  {
    if actions != [] {
      var before, last := actions[..|actions| - 1], actions[|actions| - 1];
      FailsOnlyByChild(limit, s, before);
      FailStep(limit, Run(limit, s, before).value, last);
      assert actions == before + [last];
    }
  }

  /** A run that has come to rest is joined exactly when no awaited child failed, and has then
      given every file to exactly one child and awaited every child exactly once, in order. */
  lemma AtRest<F>(limit: nat, senders: seq<seq<F>>, actions: seq<Action>, s: State<F>)
    requires Run(limit, Init(senders), actions) == Some(s) && Stuck(limit, s)
    ensures s.pc.Joined? <==> Await(false) !in actions
    ensures s.pc.Joined? ==> Flat(s.spawned) == Flat(senders) && s.awaited == s.spawned
  {
    AlwaysSafe(limit, senders, actions);
    FailsOnlyByChild(limit, Init(senders), actions);
    if !s.pc.Joined? && !s.pc.Failed? {
      var a := NeverStuck(limit, s);
      assert false;
    }
    if s.pc.Joined? {
      FlatEmpty(s.senders);
    }
  }

  // ------------------------------------------------------------------ the pool is used

  /** The numbers of the protocol: 128 files wait at most, and a batch is one file and up to seven
      more that are there without waiting. */
  lemma Numbers<F>(limit: nat, s: State<F>, i: nat)
    requires !s.pc.Failed? && i < |s.senders| && s.senders[i] != []
    ensures Next(limit, s, Send(i)).Some? <==> |s.channel| < 128
    ensures s.pc.Batching? ==>
              && (Next(limit, s, TryRecv).Some? <==> |s.pc.more| < 7 && s.channel != [])
              && (Next(limit, s, Spawn).Some? <==> |s.pc.more| == 7 || s.channel == [])
  {
  }

  /** After a child has been spawned, with the files that were received last put first, the thread
      goes on receiving as long as fewer than `limit` children are not awaited, and else awaits
      the oldest. */
  lemma GoesOn<F>(limit: nat, s: State<F>)
    requires Next(limit, s, Spawn).Some?
    ensures var s' := Next(limit, s, Spawn).value;
            && s'.children == s.children + [s.pc.more + [s.pc.first]] && s'.awaited == s.awaited
            && (s'.pc.Receiving? <==> |s'.children| < limit)
            && (s'.pc.Awaiting? <==> |s'.children| >= limit)
  {
  }
}
