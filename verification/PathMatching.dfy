/** Which steps the command line's paths select: `StepDescription::run` with its suite phase and
    the greedy matching that consumes paths. */
module PathMatching {
  import opened Wrappers

  type Path = seq<string>
  type Kind = string

  datatype TaskPath = TaskPath(path: Path, kind: Option<Kind>)

  /** The sorted set of aliases of one job, or a test suite. */
  datatype PathSet = Set(paths: seq<TaskPath>) | Suite(suite: TaskPath)

  datatype Description = Description(kind: Kind, sets: seq<PathSet>, isDefault: bool)

  /** A path given on the command line; matching never looks at its position. */
  datatype Needle = Needle(pos: nat, path: Path)

  predicate EndsWith(p: Path, suffix: Path) {
    |suffix| <= |p| && p[|p| - |suffix|..] == suffix
  }

  /** `PathSet::check`. */
  predicate Check(p: TaskPath, needle: Path, module_: Option<Kind>) {
    if p.kind.Some? && module_.Some? then EndsWith(p.path, needle) && p.kind == module_
    else EndsWith(p.path, needle)
  }

  /** `needle` is the end of `path`. */
  ghost predicate EndsIn(path: Path, needle: Path) {
    exists pre :: path == pre + needle
  }

  predicate KindsFit(a: Option<Kind>, b: Option<Kind>) {
    a.None? || b.None? || a == b
  }

  /** What `check` decides. */
  lemma CheckIs(p: TaskPath, needle: Path, module_: Option<Kind>)
    ensures Check(p, needle, module_) <==> EndsIn(p.path, needle) && KindsFit(p.kind, module_)
  {
    if EndsWith(p.path, needle) {
      assert p.path == p.path[..|p.path| - |needle|] + needle;
    }
    if EndsIn(p.path, needle) {
      var pre :| p.path == pre + needle;
      assert p.path[|p.path| - |needle|..] == needle;
    }
  }

  /** One path of one path set of one step, with the kind it is checked against. */
  datatype Slot = Slot(desc: nat, index: nat, item: nat, path: TaskPath, kind: Option<Kind>)

  datatype Hit = Hit(slot: Slot, needle: Needle)

  predicate Matches(slot: Slot, needle: Needle) {
    Check(slot.path, needle.path, slot.kind)
  }

  // ------------------------------------------------------------------ greedy matching

  /** A path takes a needle that is its end, if the kinds agree where both are given. */
  lemma MatchesIs(slot: Slot, needle: Needle)
    ensures Matches(slot, needle) <==> EndsIn(slot.path.path, needle.path) && KindsFit(slot.path.kind, slot.kind)
  {
    CheckIs(slot.path, needle.path, slot.kind);
  }

  /** The first needle that matches, or the number of needles. */
  function First(slot: Slot, needles: seq<Needle>): (i: nat)
    ensures i <= |needles|
    ensures i < |needles| ==> Matches(slot, needles[i])
    ensures forall j :: 0 <= j < i ==> !Matches(slot, needles[j])
  {
    if needles == [] then 0
    else
      var i := First(slot, needles[..|needles| - 1]);
      if i < |needles| - 1 then i
      else if Matches(slot, needles[|needles| - 1]) then |needles| - 1
      else |needles|
  }

  datatype Matching = Matching(hits: seq<Hit>, rest: seq<Needle>)

  /** The closure `check`: the slot takes the first needle it matches. */
  function Offer(m: Matching, slot: Slot): Matching {
    var i := First(slot, m.rest);
    if i == |m.rest| then m
    else Matching(m.hits + [Hit(slot, m.rest[i])], m.rest[..i] + m.rest[i + 1..])
  }

  function Greedy(slots: seq<Slot>, needles: seq<Needle>): Matching {
    if slots == [] then Matching([], needles)
    else Offer(Greedy(slots[..|slots| - 1], needles), slots[|slots| - 1])
  }

  lemma {:induction false} GreedySnoc(front: seq<Slot>, slot: Slot, needles: seq<Needle>, m: Matching)
    requires m == Greedy(front, needles)
    ensures Greedy(front + [slot], needles) == Offer(m, slot)
  {
    assert (front + [slot])[..|front|] == front;
  }

  function NeedlesOf(hits: seq<Hit>): seq<Needle> {
    seq(|hits|, i requires 0 <= i < |hits| => hits[i].needle)
  }

  function SlotsOf(hits: seq<Hit>): seq<Slot> {
    seq(|hits|, i requires 0 <= i < |hits| => hits[i].slot)
  }

  ghost predicate Ascending(needles: seq<Needle>) {
    forall i, j :: 0 <= i < j < |needles| ==> needles[i].pos < needles[j].pos
  }

  /** A needle that is left, but matches `slot`, came after the one the slot took. */
  ghost predicate SpentEarlier(slot: Slot, needle: Needle, hits: seq<Hit>) {
    exists h :: h in hits && h.slot == slot && h.needle.pos < needle.pos
  }

  ghost predicate LeftoversSpent(slots: seq<Slot>, m: Matching) {
    forall slot, needle :: slot in slots && needle in m.rest && Matches(slot, needle) ==> SpentEarlier(slot, needle, m.hits)
  }

  /** Nothing is lost or used twice; leftovers keep their order; hits match; and a slot that
      matches a leftover was spent on an earlier path. */
  ghost predicate GoodMatching(slots: seq<Slot>, needles: seq<Needle>, m: Matching) {
    && multiset(NeedlesOf(m.hits)) + multiset(m.rest) == multiset(needles)
    && multiset(SlotsOf(m.hits)) <= multiset(slots)
    && Ascending(m.rest)
    && (forall h :: h in m.hits ==> Matches(h.slot, h.needle))
    && LeftoversSpent(slots, m)
  }

  lemma {:induction false} OfferNone(slots: seq<Slot>, needles: seq<Needle>, m: Matching, slot: Slot)
    requires GoodMatching(slots, needles, m) && First(slot, m.rest) == |m.rest|
    ensures GoodMatching(slots + [slot], needles, m)
  {
    assert multiset(slots + [slot]) == multiset(slots) + multiset{slot};
  }

  lemma {:induction false} OfferTakes(slots: seq<Slot>, needles: seq<Needle>, m: Matching, slot: Slot, i: nat)
    requires GoodMatching(slots, needles, m) && i == First(slot, m.rest) < |m.rest|
    ensures GoodMatching(slots + [slot], needles, Offer(m, slot))
  {
    var n := m.rest[i];
    var m' := Offer(m, slot);
    assert m'.hits == m.hits + [Hit(slot, n)] && m'.rest == m.rest[..i] + m.rest[i + 1..];
    assert NeedlesOf(m'.hits) == NeedlesOf(m.hits) + [n];
    assert SlotsOf(m'.hits) == SlotsOf(m.hits) + [slot];
    assert m.rest == m.rest[..i] + [n] + m.rest[i + 1..];
    assert multiset(slots + [slot]) == multiset(slots) + multiset{slot};
    LeftAfter(slots, m, slot, i, m');
  }

  lemma {:induction false} LeftAfter(slots: seq<Slot>, m: Matching, slot: Slot, i: nat, m': Matching)
    requires Ascending(m.rest) && LeftoversSpent(slots, m) && i == First(slot, m.rest) < |m.rest|
    requires m' == Matching(m.hits + [Hit(slot, m.rest[i])], m.rest[..i] + m.rest[i + 1..])
    ensures Ascending(m'.rest) && LeftoversSpent(slots + [slot], m')
  {
    forall s, needle | s in slots + [slot] && needle in m'.rest && Matches(s, needle)
      ensures SpentEarlier(s, needle, m'.hits)
    {
      LeftOne(slots, m, slot, i, m', s, needle);
    }
  }

  lemma {:induction false} LeftOne(slots: seq<Slot>, m: Matching, slot: Slot, i: nat, m': Matching, s: Slot, needle: Needle)
    requires Ascending(m.rest) && LeftoversSpent(slots, m) && i == First(slot, m.rest) < |m.rest|
    requires m' == Matching(m.hits + [Hit(slot, m.rest[i])], m.rest[..i] + m.rest[i + 1..])
    requires (s in slots || s == slot) && needle in m'.rest && Matches(s, needle)
    ensures SpentEarlier(s, needle, m'.hits)
  {
    var k :| 0 <= k < |m'.rest| && m'.rest[k] == needle;
    var j := if k < i then k else k + 1;
    assert m.rest[j] == needle;
    if s in slots {
      SpentStill(s, needle, m.hits, m'.hits[|m.hits|]);
    } else {
      assert m'.hits[|m.hits|] == Hit(slot, m.rest[i]) && j > i;
    }
  }

  lemma {:induction false} SpentStill(slot: Slot, needle: Needle, hits: seq<Hit>, last: Hit)
    requires SpentEarlier(slot, needle, hits)
    ensures SpentEarlier(slot, needle, hits + [last])
  {
    var h :| h in hits && h.slot == slot && h.needle.pos < needle.pos;
    assert h in hits + [last];
  }

  /** The greedy matching, for all path sets and all command lines. */
  lemma {:induction false} GreedyIsGood(slots: seq<Slot>, needles: seq<Needle>)
    requires Ascending(needles)
    ensures GoodMatching(slots, needles, Greedy(slots, needles))
    decreases |slots|
  {
    if slots == [] {
      assert NeedlesOf([]) == [] && SlotsOf([]) == [];
    } else {
      var front, slot := slots[..|slots| - 1], slots[|slots| - 1];
      GreedyIsGood(front, needles);
      var m := Greedy(front, needles);
      assert front + [slot] == slots;
      if First(slot, m.rest) == |m.rest| {
        OfferNone(front, needles, m, slot);
      } else {
        OfferTakes(front, needles, m, slot, First(slot, m.rest));
      }
    }
  }

  lemma {:induction false} GreedyConcat(a: seq<Slot>, b: seq<Slot>, needles: seq<Needle>)
    ensures Greedy(a + b, needles).rest == Greedy(b, Greedy(a, needles).rest).rest
    ensures Greedy(a + b, needles).hits == Greedy(a, needles).hits + Greedy(b, Greedy(a, needles).rest).hits
    decreases |b|
  {
    if b == [] {
      assert a + b == a;
    } else {
      assert (a + b)[..|a + b| - 1] == a + b[..|b| - 1];
      GreedyConcat(a, b[..|b| - 1], needles);
    }
  }

  // ------------------------------------------------------------------ slots of the steps

  function PathsOf(s: PathSet): seq<TaskPath> {
    match s
    case Set(paths) => paths
    case Suite(suite) => [suite]
  }

  function SetSlots(desc: nat, index: nat, paths: seq<TaskPath>, kind: Option<Kind>): seq<Slot> {
    seq(|paths|, i requires 0 <= i < |paths| => Slot(desc, index, i, paths[i], kind))
  }

  function DescSlots(desc: nat, sets: seq<PathSet>, kind: Option<Kind>): seq<Slot> {
    if sets == [] then []
    else DescSlots(desc, sets[..|sets| - 1], kind) + SetSlots(desc, |sets| - 1, PathsOf(sets[|sets| - 1]), kind)
  }

  /** Every path of every step, in the order in which they are offered the command line. */
  function AllSlots(v: seq<Description>): seq<Slot> {
    if v == [] then []
    else AllSlots(v[..|v| - 1]) + DescSlots(|v| - 1, v[|v| - 1].sets, Some(v[|v| - 1].kind))
  }

  // ------------------------------------------------------------------ the program

  function HitPaths(hits: seq<Hit>): seq<TaskPath> {
    seq(|hits|, i requires 0 <= i < |hits| => hits[i].slot.path)
  }

  /** A path set with only some of its paths; a suite has one path, so it is whole. */
  function Part(s: PathSet, own: seq<TaskPath>): PathSet {
    if s.Suite? then s else Set(own)
  }

  /** The paths of set `i` among those that took a needle. */
  function PathsAt(hits: seq<Hit>, i: nat): seq<TaskPath> {
    if hits == [] then []
    else
      var last := hits[|hits| - 1];
      PathsAt(hits[..|hits| - 1], i) + if last.slot.index == i then [last.slot.path] else []
  }

  /** The sets of a step of which some path took a needle, with those paths. */
  function Grouped(sets: seq<PathSet>, hits: seq<Hit>): seq<PathSet> {
    if sets == [] then []
    else
      var n := |sets| - 1;
      Grouped(sets[..n], hits) + if PathsAt(hits, n) == [] then [] else [Part(sets[n], PathsAt(hits, n))]
  }

  lemma {:induction false} PathsAtConcat(a: seq<Hit>, b: seq<Hit>, i: nat)
    ensures PathsAt(a + b, i) == PathsAt(a, i) + PathsAt(b, i)
    decreases |b|
  {
    if b == [] {
      assert a + b == a;
    } else {
      assert (a + b)[..|a + b| - 1] == a + b[..|b| - 1];
      PathsAtConcat(a, b[..|b| - 1], i);
    }
  }

  lemma {:induction false} PathsAtOnly(hits: seq<Hit>, i: nat, j: nat)
    requires forall h :: h in hits ==> h.slot.index == j
    ensures PathsAt(hits, i) == if i == j then HitPaths(hits) else []
    decreases |hits|
  {
    if hits != [] {
      var n := |hits| - 1;
      assert hits[n] in hits;
      PathsAtOnly(hits[..n], i, j);
      assert HitPaths(hits) == HitPaths(hits[..n]) + [hits[n].slot.path];
    }
  }

  lemma {:induction false} PathsAtNone(hits: seq<Hit>, i: nat)
    requires forall h :: h in hits ==> h.slot.index < i
    ensures PathsAt(hits, i) == []
    decreases |hits|
  {
    if hits != [] {
      assert hits[|hits| - 1] in hits;
      PathsAtNone(hits[..|hits| - 1], i);
    }
  }

  lemma {:induction false} GroupedLater(sets: seq<PathSet>, hits: seq<Hit>, more: seq<Hit>, j: nat)
    requires |sets| <= j && forall h :: h in more ==> h.slot.index == j
    ensures Grouped(sets, hits + more) == Grouped(sets, hits)
    decreases |sets|
  {
    if sets != [] {
      GroupedLater(sets[..|sets| - 1], hits, more, j);
      PathsAtConcat(hits, more, |sets| - 1);
      PathsAtOnly(more, |sets| - 1, j);
      assert PathsAt(hits + more, |sets| - 1) == PathsAt(hits, |sets| - 1);
    }
  }

  lemma {:induction false} GroupedSnoc(front: seq<PathSet>, s: PathSet, hits: seq<Hit>, more: seq<Hit>)
    requires forall h :: h in hits ==> h.slot.index < |front|
    requires forall h :: h in more ==> h.slot.index == |front|
    ensures Grouped(front + [s], hits + more)
         == Grouped(front, hits) + if more == [] then [] else [Part(s, HitPaths(more))]
  {
    assert (front + [s])[..|front|] == front;
    GroupedLater(front, hits, more, |front|);
    PathsAtConcat(hits, more, |front|);
    PathsAtNone(hits, |front|);
    PathsAtOnly(more, |front|, |front|);
    assert PathsAt(hits + more, |front|) == HitPaths(more);
  }

  /** What takes a needle is one of the slots that were offered it. */
  lemma {:induction false} HitsAreSlots(slots: seq<Slot>, needles: seq<Needle>)
    ensures forall h :: h in Greedy(slots, needles).hits ==> h.slot in slots
    decreases |slots|
  {
    if slots != [] { HitsAreSlots(slots[..|slots| - 1], needles); }
  }

  /** `intersection_removing_matches`: the sub-set of paths that matched, and what is left. */
  method IntersectionRemovingMatches(desc: nat, index: nat, s: PathSet, needles: seq<Needle>, kind: Option<Kind>)
    returns (subset: PathSet, rest: seq<Needle>)
    ensures var m := Greedy(SetSlots(desc, index, PathsOf(s), kind), needles);
            && rest == m.rest && PathsOf(subset) == HitPaths(m.hits)
            && (subset == Set([]) <==> m.hits == [])
            && subset == if m.hits == [] then Set([]) else Part(s, HitPaths(m.hits))
  {
    match s
    case Set(paths) =>
      var found;
      found, rest := FilterPaths(desc, index, paths, needles, kind);
      subset := Set(found);
    case Suite(suite) =>
      var hit: Option<Needle>;
      ghost var slot := Slot(desc, index, 0, suite, kind);
      assert SetSlots(desc, index, [suite], kind) == [slot] && [slot][..0] == [];
      hit, rest := RemoveFirst(Matching([], needles), slot, suite, needles, kind);
      subset := if hit.Some? then s else Set([]);
  }

  /** The paths of one set that find a needle, each taking it. */
  method FilterPaths(desc: nat, index: nat, paths: seq<TaskPath>, needles: seq<Needle>, kind: Option<Kind>)
    returns (found: seq<TaskPath>, rest: seq<Needle>)
    ensures var m := Greedy(SetSlots(desc, index, paths, kind), needles); rest == m.rest && found == HitPaths(m.hits)
  {
    found, rest := [], needles;
    ghost var hits: seq<Hit> := [];
    ghost var slots := SetSlots(desc, index, paths, kind);
    for i := 0 to |paths|
      invariant Filtered(slots[..i], needles, found, Matching(hits, rest))
    {
      ghost var before := Matching(hits, rest);
      assert slots[..i + 1] == slots[..i] + [slots[i]];
      GreedySnoc(slots[..i], slots[i], needles, before);
      var hit;
      hit, rest := RemoveFirst(before, slots[i], paths[i], rest, kind);
      if hit.Some? {
        found := found + [paths[i]];
        hits := hits + [Hit(slots[i], hit.value)];
      }
    }
    assert slots[..|paths|] == slots;
  }

  ghost predicate Filtered(slots: seq<Slot>, needles: seq<Needle>, found: seq<TaskPath>, m: Matching) {
    Greedy(slots, needles) == m && found == HitPaths(m.hits)
  }

  /** The closure `check` as a loop over the needles. */
  method RemoveFirst(ghost before: Matching, ghost slot: Slot, p: TaskPath, needles: seq<Needle>, module_: Option<Kind>)
    returns (hit: Option<Needle>, rest: seq<Needle>)
    requires slot.path == p && slot.kind == module_ && before.rest == needles
    ensures Offer(before, slot)
         == Matching(before.hits + (if hit.Some? then [Hit(slot, hit.value)] else []), rest)
    ensures hit.Some? <==> exists n :: n in needles && Matches(slot, n)
  {
    for i := 0 to |needles|
      invariant forall j :: 0 <= j < i ==> !Matches(slot, needles[j])
    {
      if Check(p, needles[i].path, module_) {
        assert Matches(slot, needles[i]);
        return Some(needles[i]), needles[..i] + needles[i + 1..];
      }
    }
    return None, needles;
  }

  datatype Job = Job(desc: nat, sets: seq<PathSet>, excluded: bool)

  datatype Plan = Plan(defaults: seq<Job>, suites: seq<(Job, Needle)>, jobs: seq<Job>, unmatched: seq<Needle>)

  /** The paths passed to the steps, in order. */
  function SetsPaths(sets: seq<PathSet>): seq<TaskPath> {
    if sets == [] then [] else SetsPaths(sets[..|sets| - 1]) + PathsOf(sets[|sets| - 1])
  }

  function JobsPaths(jobs: seq<Job>): seq<(nat, TaskPath)> {
    if jobs == [] then []
    else JobsPaths(jobs[..|jobs| - 1]) + Owned(jobs[|jobs| - 1].desc, SetsPaths(jobs[|jobs| - 1].sets))
  }

  function Owned(desc: nat, paths: seq<TaskPath>): seq<(nat, TaskPath)> {
    seq(|paths|, i requires 0 <= i < |paths| => (desc, paths[i]))
  }

  function HitOwners(hits: seq<Hit>): seq<(nat, TaskPath)> {
    seq(|hits|, i requires 0 <= i < |hits| => (hits[i].slot.desc, hits[i].slot.path))
  }

  function Pushed(sets: seq<PathSet>, subset: PathSet): seq<PathSet> {
    if subset == Set([]) then sets else sets + [subset]
  }

  /** One more path set of the same step. */
  lemma {:induction false} NextSet(desc: nat, front: seq<PathSet>, s: PathSet, kind: Option<Kind>, needles: seq<Needle>,
                                   m: Matching, more: Matching)
    requires Greedy(DescSlots(desc, front, kind), needles) == m
    requires Greedy(SetSlots(desc, |front|, PathsOf(s), kind), m.rest) == more
    ensures Greedy(DescSlots(desc, front + [s], kind), needles) == Matching(m.hits + more.hits, more.rest)
  {
    var a, b := DescSlots(desc, front, kind), SetSlots(desc, |front|, PathsOf(s), kind);
    GreedyConcat(a, b, needles);
    DescSlotsSnoc(desc, front, s, kind);
  }

  lemma {:induction false} DescSlotsSnoc(desc: nat, front: seq<PathSet>, s: PathSet, kind: Option<Kind>)
    ensures DescSlots(desc, front + [s], kind)
         == DescSlots(desc, front, kind) + SetSlots(desc, |front|, PathsOf(s), kind)
  {
    assert (front + [s])[..|front|] == front;
  }

  lemma {:induction false} NextSetPaths(hits: seq<Hit>, more: seq<Hit>, sets: seq<PathSet>, subset: PathSet)
    requires SetsPaths(sets) == HitPaths(hits) && PathsOf(subset) == HitPaths(more)
    requires (sets == [] <==> hits == []) && (subset == Set([]) <==> more == [])
    ensures SetsPaths(Pushed(sets, subset)) == HitPaths(hits + more)
    ensures Pushed(sets, subset) == [] <==> hits + more == []
  {
    assert HitPaths(hits + more) == HitPaths(hits) + HitPaths(more);
    assert (sets + [subset])[..|sets|] == sets;
  }

  /** `pathset_for_paths_removing_matches`. */
  method PathsetsForPaths(desc: nat, d: Description, needles: seq<Needle>)
    returns (sets: seq<PathSet>, rest: seq<Needle>)
    ensures var m := Greedy(DescSlots(desc, d.sets, Some(d.kind)), needles);
            && rest == m.rest && SetsPaths(sets) == HitPaths(m.hits)
            && (sets == [] <==> m.hits == [])
            && sets == Grouped(d.sets, m.hits)
  {
    sets, rest := [], needles;
    ghost var hits: seq<Hit> := [];
    for i := 0 to |d.sets|
      invariant SetsTaken(desc, d.sets[..i], Some(d.kind), needles, sets, rest, hits)
    {
      assert d.sets[..i + 1] == d.sets[..i] + [d.sets[i]];
      sets, rest, hits := TakeSet(desc, d.sets[..i], i, d.sets[i], Some(d.kind), needles, sets, rest, hits);
    }
    assert d.sets[..|d.sets|] == d.sets;
  }

  /** One turn of that loop. */
  method TakeSet(desc: nat, ghost front: seq<PathSet>, index: nat, s: PathSet, kind: Option<Kind>, ghost needles: seq<Needle>,
                 sets: seq<PathSet>, rest: seq<Needle>, ghost hits: seq<Hit>)
    returns (sets': seq<PathSet>, rest': seq<Needle>, ghost hits': seq<Hit>)
    requires index == |front| && SetsTaken(desc, front, kind, needles, sets, rest, hits)
    ensures SetsTaken(desc, front + [s], kind, needles, sets', rest', hits')
  {
    ghost var more := Greedy(SetSlots(desc, index, PathsOf(s), kind), rest);
    var subset;
    subset, rest' := IntersectionRemovingMatches(desc, index, s, rest, kind);
    NextSetTaken(desc, front, s, kind, needles, sets, rest, hits, subset, more);
    hits' := hits + more.hits;
    sets' := sets;
    if subset != Set([]) {
      sets' := sets + [subset];
    }
  }

  /** The state after the path sets `front` of a step. */
  ghost predicate SetsTaken(desc: nat, front: seq<PathSet>, kind: Option<Kind>, needles: seq<Needle>,
                            sets: seq<PathSet>, rest: seq<Needle>, hits: seq<Hit>) {
    && Greedy(DescSlots(desc, front, kind), needles) == Matching(hits, rest)
    && SetsPaths(sets) == HitPaths(hits) && (sets == [] <==> hits == [])
    && sets == Grouped(front, hits) && forall h :: h in hits ==> h.slot.index < |front|
  }

  lemma {:induction false} NextSetTaken(
    desc: nat, front: seq<PathSet>, s: PathSet, kind: Option<Kind>, needles: seq<Needle>, sets: seq<PathSet>,
    rest: seq<Needle>, hits: seq<Hit>, subset: PathSet, more: Matching)
    requires SetsTaken(desc, front, kind, needles, sets, rest, hits)
    requires more == Greedy(SetSlots(desc, |front|, PathsOf(s), kind), rest)
    requires PathsOf(subset) == HitPaths(more.hits) && (subset == Set([]) <==> more.hits == [])
    requires more.hits != [] ==> subset == Part(s, HitPaths(more.hits))
    ensures SetsTaken(desc, front + [s], kind, needles, Pushed(sets, subset), more.rest, hits + more.hits)
  {
    NextSet(desc, front, s, kind, needles, Matching(hits, rest), more);
    NextSetPaths(hits, more.hits, sets, subset);
    HitsAreSlots(SetSlots(desc, |front|, PathsOf(s), kind), rest);
    GroupedSnoc(front, s, hits, more.hits);
  }

  // ------------------------------------------------------------------ suites

  predicate StartsWith(p: Path, prefix: Path) {
    |prefix| <= |p| && p[..|prefix|] == prefix
  }

  predicate InSuite(s: PathSet, path: Path) {
    s.Suite? && StartsWith(path, s.suite.path)
  }

  /** `is_suite_path`: the first suite of the step that contains the path. */
  function SuiteOf(sets: seq<PathSet>, path: Path): Option<PathSet> {
    if sets == [] then None
    else if InSuite(sets[0], path) then Some(sets[0])
    else SuiteOf(sets[1..], path)
  }

  /** The first step, from step `i` on, with a suite that contains the path. */
  function SuiteStep(v: seq<Description>, i: nat, path: Path): Option<(nat, PathSet)>
    requires i <= |v|
    decreases |v| - i
  {
    if i == |v| then None
    else
      match SuiteOf(v[i].sets, path)
      case Some(s) => Some((i, s))
      case None => SuiteStep(v, i + 1, path)
  }

  /** What the suite phase hands out: each path that lies in a suite, with the first step and
      suite that contain it. */
  function Handed(v: seq<Description>, needles: seq<Needle>): seq<(nat, PathSet, Needle)> {
    if needles == [] then []
    else
      var front, n := Handed(v, needles[..|needles| - 1]), needles[|needles| - 1];
      match SuiteStep(v, 0, n.path)
      case Some(ds) => front + [(ds.0, ds.1, n)]
      case None => front
  }

  /** The paths `retain` keeps. */
  function Retained(v: seq<Description>, needles: seq<Needle>): seq<Needle> {
    if needles == [] then []
    else
      var front, n := Retained(v, needles[..|needles| - 1]), needles[|needles| - 1];
      if SuiteStep(v, 0, n.path).Some? then front else front + [n]
  }

  /** `maybe_run`: nothing runs when some set is excluded. */
  method MaybeRun(desc: nat, sets: seq<PathSet>, excludes: seq<TaskPath>) returns (job: Job)
    ensures job.desc == desc && job.sets == sets
    ensures FilterKept(job, excludes)
  {
    job := Job(desc, sets, false);
    for i := 0 to |sets|
      invariant job == Job(desc, sets, false)
      invariant forall j, e :: 0 <= j < i && e in excludes ==> !Covers(sets[j], e)
    {
      for k := 0 to |excludes|
        invariant forall l :: 0 <= l < k ==> !Covers(sets[i], excludes[l])
      {
        HasIs(sets[i], excludes[k]);
        if Has(sets[i], excludes[k].path, excludes[k].kind) {
          assert excludes[k] in excludes;
          return Job(desc, sets, true);
        }
      }
    }
  }

  /** Some path of the set ends in the excluded one, and the kinds agree where both are given. */
  ghost predicate Covers(s: PathSet, e: TaskPath) {
    match s
    case Set(paths) => exists p :: p in paths && EndsIn(p.path, e.path) && KindsFit(p.kind, e.kind)
    case Suite(suite) => EndsIn(suite.path, e.path) && KindsFit(suite.kind, e.kind)
  }

  lemma HasIs(s: PathSet, e: TaskPath)
    ensures Has(s, e.path, e.kind) <==> Covers(s, e)
  {
    forall p ensures Check(p, e.path, e.kind) <==> EndsIn(p.path, e.path) && KindsFit(p.kind, e.kind) {
      CheckIs(p, e.path, e.kind);
    }
    if s.Suite? { assert s.suite in PathsOf(s); }
  }

  /** `is_excluded` decides the job: some set of it has some excluded path. */
  ghost predicate FilterKept(job: Job, excludes: seq<TaskPath>) {
    job.excluded <==> exists i, e :: 0 <= i < |job.sets| && e in excludes && Covers(job.sets[i], e)
  }

  ghost predicate FiltersKept(jobs: seq<Job>, excludes: seq<TaskPath>) {
    forall i :: 0 <= i < |jobs| ==> FilterKept(jobs[i], excludes)
  }

  /** Exactly the default steps, in order, each with all its sets. */
  ghost predicate AllDefaults(v: seq<Description>, jobs: seq<Job>) {
    && (forall i :: 0 <= i < |jobs| ==>
          jobs[i].desc < |v| && v[jobs[i].desc].isDefault && jobs[i].sets == v[jobs[i].desc].sets)
    && (forall i, j :: 0 <= i < j < |jobs| ==> jobs[i].desc < jobs[j].desc)
    && (forall d :: 0 <= d < |v| && v[d].isDefault ==> exists i :: 0 <= i < |jobs| && jobs[i].desc == d)
  }

  /** `PathSet::has`. */
  predicate Has(s: PathSet, needle: Path, module_: Option<Kind>) {
    exists p :: p in PathsOf(s) && Check(p, needle, module_)
  }

  /** `strip_prefix(".")`. */
  function Strip(p: Path): Path {
    if p != [] && p[0] == "." then p[1..] else p
  }

  function NeedlesFrom(args: seq<Path>): seq<Needle> {
    seq(|args|, i requires 0 <= i < |args| => Needle(i, Strip(args[i])))
  }

  function SuiteOwners(suites: seq<(Job, Needle)>): seq<(nat, PathSet, Needle)>
    requires forall i :: 0 <= i < |suites| ==> |suites[i].0.sets| == 1
  {
    seq(|suites|, i requires 0 <= i < |suites| => (suites[i].0.desc, suites[i].0.sets[0], suites[i].1))
  }

  ghost predicate OneSetEach(suites: seq<(Job, Needle)>) {
    forall i :: 0 <= i < |suites| ==> |suites[i].0.sets| == 1
  }

  /** `StepDescription::run`: the plan it carries out; the run fails when paths are unmatched. */
  method RunSteps(v: seq<Description>, args: seq<Path>, excludes: seq<TaskPath>, includeDefaults: bool)
    returns (plan: Plan)
    ensures OneSetEach(plan.suites)
    ensures SuiteOwners(plan.suites) == Handed(v, NeedlesFrom(args))
    ensures var m := Greedy(AllSlots(v), Retained(v, NeedlesFrom(args)));
            plan.unmatched == m.rest && JobsPaths(plan.jobs) == HitOwners(m.hits) && Pairs(plan.jobs) == JobsFor(v, m.hits)
    ensures forall path :: args == [path] ==> (plan.unmatched == [] <==> InSomeSuite(v, Bare(path)) || EndOfSome(v, Bare(path)))
    ensures forall i :: 0 <= i < |plan.jobs| ==> plan.jobs[i].sets != []
    ensures if args == [] || includeDefaults then AllDefaults(v, plan.defaults) else plan.defaults == []
    ensures FiltersKept(plan.defaults, excludes) && FiltersKept(JobsOf(plan.suites), excludes) && FiltersKept(plan.jobs, excludes)
  {
    var defaults: seq<Job> := [];
    if args == [] || includeDefaults {
      defaults := RunDefaults(v, excludes);
    }
    var needles := NeedlesFrom(args);
    var suites, kept := RunSuites(v, needles, excludes);
    var jobs, unmatched, hits := RunPathSets(v, kept, excludes);
    plan := Plan(defaults, suites, jobs, unmatched);
    forall path | args == [path]
      ensures plan.unmatched == [] <==> InSomeSuite(v, Bare(path)) || EndOfSome(v, Bare(path))
    {
      OneArgument(v, path, Matching(hits, unmatched));
    }
  }

  /** A path without the `.` it may begin with. */
  ghost function Bare(path: Path): (bare: Path)
    ensures path == bare || path == ["."] + bare
    ensures path != [] && path[0] == "." ==> path == ["."] + bare
  {
    if path != [] && path[0] == "." then path[1..] else path
  }

  /** The path lies below some suite of some step. */
  ghost predicate InSomeSuite(v: seq<Description>, path: Path) {
    exists d, s, rest :: 0 <= d < |v| && s in v[d].sets && s.Suite? && path == s.suite.path + rest
  }

  /** Some path of some step ends in it, the kinds agreeing. */
  ghost predicate EndOfSome(v: seq<Description>, path: Path) {
    exists d, s :: 0 <= d < |v| && s in v[d].sets && Covers(s, TaskPath(path, Some(v[d].kind)))
  }

  lemma InSuiteIs(s: PathSet, path: Path)
    ensures InSuite(s, path) <==> s.Suite? && exists rest :: path == s.suite.path + rest
  {
    if InSuite(s, path) { assert path == s.suite.path + path[|s.suite.path|..]; }
  }

  lemma {:induction false} DescSlotsAre(desc: nat, sets: seq<PathSet>, kind: Option<Kind>, path: TaskPath)
    ensures (exists s :: s in DescSlots(desc, sets, kind) && s.path == path && s.kind == kind)
       <==> exists i :: 0 <= i < |sets| && path in PathsOf(sets[i])
    ensures forall s :: s in DescSlots(desc, sets, kind) ==> s.kind == kind
    decreases |sets|
  {
    if sets != [] {
      var n := |sets| - 1;
      DescSlotsAre(desc, sets[..n], kind, path);
      var last := SetSlots(desc, n, PathsOf(sets[n]), kind);
      if path in PathsOf(sets[n]) {
        var i :| 0 <= i < |PathsOf(sets[n])| && PathsOf(sets[n])[i] == path;
        assert last[i] in DescSlots(desc, sets, kind) && last[i].path == path;
      }
      if i :| 0 <= i < |sets| && path in PathsOf(sets[i]) {
        assert i < n ==> sets[..n][i] == sets[i];
      }
    }
  }

  /** Some slot of the steps matches exactly when some path of them ends in the needle. */
  lemma {:induction false} SomeSlot(v: seq<Description>, n: Needle)
    ensures (exists s :: s in AllSlots(v) && Matches(s, n)) <==> EndOfSome(v, n.path)
    decreases |v|
  {
    if v != [] {
      var k := |v| - 1;
      SomeSlot(v[..k], n);
      StepSlot(k, v[k], n);
      assert forall d :: 0 <= d < k ==> v[..k][d] == v[d];
      if EndOfSome(v, n.path) && !EndOfSome(v[..k], n.path) {
        var d, s :| 0 <= d < |v| && s in v[d].sets && Covers(s, TaskPath(n.path, Some(v[d].kind)));
        assert d == k;
      }
      if EndOfSome(v[..k], n.path) {
        var d, s :| 0 <= d < k && s in v[..k][d].sets && Covers(s, TaskPath(n.path, Some(v[..k][d].kind)));
        assert s in v[d].sets;
      }
    }
  }

  lemma {:induction false} StepSlot(desc: nat, d: Description, n: Needle)
    ensures (exists s :: s in DescSlots(desc, d.sets, Some(d.kind)) && Matches(s, n))
       <==> exists s :: s in d.sets && Covers(s, TaskPath(n.path, Some(d.kind)))
  {
    var slots, kind := DescSlots(desc, d.sets, Some(d.kind)), Some(d.kind);
    if s :| s in slots && Matches(s, n) {
      DescSlotsAre(desc, d.sets, kind, s.path);
      var i :| 0 <= i < |d.sets| && s.path in PathsOf(d.sets[i]);
      HasIs(d.sets[i], TaskPath(n.path, kind));
      assert Covers(d.sets[i], TaskPath(n.path, kind));
    }
    if s :| s in d.sets && Covers(s, TaskPath(n.path, kind)) {
      HasIs(s, TaskPath(n.path, kind));
      var p :| p in PathsOf(s) && Check(p, n.path, kind);
      var i :| 0 <= i < |d.sets| && d.sets[i] == s;
      DescSlotsAre(desc, d.sets, kind, p);
      var slot :| slot in slots && slot.path == p && slot.kind == kind;
      assert Matches(slot, n);
    }
  }

  lemma {:induction false} GreedyOne(slots: seq<Slot>, n: Needle)
    ensures Greedy(slots, [n]).rest == if exists s :: s in slots && Matches(s, n) then [] else [n]
    decreases |slots|
  {
    if slots != [] {
      var front, last := slots[..|slots| - 1], slots[|slots| - 1];
      GreedyOne(front, n);
      assert slots == front + [last];
      if s :| s in slots && Matches(s, n) { assert s in front || s == last; }
    }
  }

  /** A single argument is left over exactly when it lies in no suite and no path of any step ends
      in it: for all steps and arguments. */
  lemma OneArgument(v: seq<Description>, path: Path, m: Matching)
    requires m == Greedy(AllSlots(v), Retained(v, NeedlesFrom([path])))
    ensures m.rest == [] <==> InSomeSuite(v, Bare(path)) || EndOfSome(v, Bare(path))
  {
    var n := Needle(0, Bare(path));
    assert NeedlesFrom([path]) == [n] && [n][..0] == [];
    InSomeIs(v, n.path);
    assert Retained(v, [n]) == if SuiteStep(v, 0, n.path).Some? then [] else [n];
    if InSomeSuite(v, n.path) {
      NothingToTake(AllSlots(v));
    } else {
      GreedyOne(AllSlots(v), n);
      SomeSlot(v, n);
    }
  }

  lemma InSomeIs(v: seq<Description>, path: Path)
    ensures InSomeSuite(v, path) <==> SuiteStep(v, 0, path).Some?
  {
    SuiteIsFirst(v, 0, path);
    if SuiteStep(v, 0, path).Some? {
      var ds := SuiteStep(v, 0, path).value;
      InSuiteIs(ds.1, path);
      assert ds.1 in v[ds.0].sets;
    }
    if InSomeSuite(v, path) {
      var d, s, rest :| 0 <= d < |v| && s in v[d].sets && s.Suite? && path == s.suite.path + rest;
      InSuiteIs(s, path);
    }
  }

  method RunDefaults(v: seq<Description>, excludes: seq<TaskPath>) returns (jobs: seq<Job>)
    ensures AllDefaults(v, jobs) && FiltersKept(jobs, excludes)
  {
    jobs := [];
    for i := 0 to |v|
      invariant AllDefaults(v[..i], jobs) && FiltersKept(jobs, excludes)
    {
      if v[i].isDefault {
        var job := MaybeRun(i, v[i].sets, excludes);
        assert (jobs + [job])[|jobs|].desc == i;
        NextDefault(v, i, jobs, job);
        jobs := jobs + [job];
      }
    }
    assert v[..|v|] == v;
  }

  lemma {:induction false} NextDefault(v: seq<Description>, i: nat, jobs: seq<Job>, job: Job)
    requires i < |v| && v[i].isDefault && AllDefaults(v[..i], jobs) && job.desc == i && job.sets == v[i].sets
    ensures AllDefaults(v[..i + 1], jobs + [job])
  {
    var all := jobs + [job];
    forall d | 0 <= d < i + 1 && v[d].isDefault ensures exists k :: 0 <= k < |all| && all[k].desc == d {
      if d == i {
        assert all[|jobs|].desc == d;
      } else {
        assert v[..i][d].isDefault;
        var k :| 0 <= k < |jobs| && jobs[k].desc == d;
        assert all[k].desc == d;
      }
    }
  }

  function JobsOf(suites: seq<(Job, Needle)>): seq<Job> {
    seq(|suites|, i requires 0 <= i < |suites| => suites[i].0)
  }

  method RunSuites(v: seq<Description>, needles: seq<Needle>, excludes: seq<TaskPath>)
    returns (suites: seq<(Job, Needle)>, kept: seq<Needle>)
    ensures OneSetEach(suites) && SuiteOwners(suites) == Handed(v, needles) && kept == Retained(v, needles)
    ensures FiltersKept(JobsOf(suites), excludes)
  {
    suites, kept := [], [];
    for i := 0 to |needles|
      invariant OneSetEach(suites) && SuiteOwners(suites) == Handed(v, needles[..i])
      invariant kept == Retained(v, needles[..i]) && FiltersKept(JobsOf(suites), excludes)
    {
      assert needles[..i + 1][..i] == needles[..i];
      var found := SuiteStep(v, 0, needles[i].path);
      if found.Some? {
        var job := MaybeRun(found.value.0, [found.value.1], excludes);
        assert JobsOf(suites + [(job, needles[i])]) == JobsOf(suites) + [job];
        suites := suites + [(job, needles[i])];
      } else {
        kept := kept + [needles[i]];
      }
    }
    assert needles[..|needles|] == needles;
  }

  method RunPathSets(v: seq<Description>, needles: seq<Needle>, excludes: seq<TaskPath>)
    returns (jobs: seq<Job>, rest: seq<Needle>, ghost hits: seq<Hit>)
    ensures Taken(v, needles, jobs, rest, hits) && FiltersKept(jobs, excludes)
  {
    jobs, rest, hits := [], needles, [];
    if needles == [] {
      NothingToTake(AllSlots(v));
      NoJobs(v);
      return;
    }
    for i := 0 to |v|
      invariant Taken(v[..i], needles, jobs, rest, hits) && FiltersKept(jobs, excludes)
    {
      assert v[..i + 1] == v[..i] + [v[i]];
      jobs, rest, hits := RunPathSet(v[..i], i, v[i], needles, excludes, jobs, rest, hits);
    }
    assert v[..|v|] == v;
  }

  /** One turn of the loop over the steps. */
  method RunPathSet(ghost front: seq<Description>, desc: nat, d: Description, ghost needles: seq<Needle>, excludes: seq<TaskPath>,
                    jobs: seq<Job>, rest: seq<Needle>, ghost hits: seq<Hit>)
    returns (jobs': seq<Job>, rest': seq<Needle>, ghost hits': seq<Hit>)
    requires desc == |front| && Taken(front, needles, jobs, rest, hits) && FiltersKept(jobs, excludes)
    ensures Taken(front + [d], needles, jobs', rest', hits') && FiltersKept(jobs', excludes)
  {
    ghost var more := Greedy(DescSlots(desc, d.sets, Some(d.kind)), rest).hits;
    var sets, left := PathsetsForPaths(desc, d, rest);
    var now := RunFound(desc, sets, excludes);
    NextTaken(front, d, needles, jobs, rest, hits, sets, left, more, now, excludes);
    jobs', rest', hits' := jobs + now, left, hits + more;
  }

  method RunFound(desc: nat, sets: seq<PathSet>, excludes: seq<TaskPath>) returns (now: seq<Job>)
    ensures if sets == [] then now == [] else |now| == 1 && now[0].desc == desc && now[0].sets == sets
    ensures FiltersKept(now, excludes)
  {
    now := [];
    if sets != [] {
      var job := MaybeRun(desc, sets, excludes);
      now := [job];
    }
  }

  function HitsAt(hits: seq<Hit>, desc: nat): seq<Hit> {
    if hits == [] then []
    else
      var last := hits[|hits| - 1];
      HitsAt(hits[..|hits| - 1], desc) + if last.slot.desc == desc then [last] else []
  }

  /** The steps of which some path took a needle, with the sets it belongs to. */
  function JobsFor(v: seq<Description>, hits: seq<Hit>): seq<(nat, seq<PathSet>)> {
    if v == [] then []
    else
      var n := |v| - 1;
      var own := HitsAt(hits, n);
      JobsFor(v[..n], hits) + if own == [] then [] else [(n, Grouped(v[n].sets, own))]
  }

  function Pairs(jobs: seq<Job>): seq<(nat, seq<PathSet>)> {
    seq(|jobs|, i requires 0 <= i < |jobs| => (jobs[i].desc, jobs[i].sets))
  }

  lemma {:induction false} HitsAtConcat(a: seq<Hit>, b: seq<Hit>, desc: nat)
    ensures HitsAt(a + b, desc) == HitsAt(a, desc) + HitsAt(b, desc)
    decreases |b|
  {
    if b == [] {
      assert a + b == a;
    } else {
      assert (a + b)[..|a + b| - 1] == a + b[..|b| - 1];
      HitsAtConcat(a, b[..|b| - 1], desc);
    }
  }

  lemma {:induction false} HitsAtOnly(hits: seq<Hit>, i: nat, j: nat)
    requires forall h :: h in hits ==> h.slot.desc == j
    ensures HitsAt(hits, i) == if i == j then hits else []
    decreases |hits|
  {
    if hits != [] {
      var n := |hits| - 1;
      assert hits[n] in hits;
      HitsAtOnly(hits[..n], i, j);
      assert hits == hits[..n] + [hits[n]];
    }
  }

  lemma {:induction false} HitsAtNone(hits: seq<Hit>, i: nat)
    requires forall h :: h in hits ==> h.slot.desc < i
    ensures HitsAt(hits, i) == []
    decreases |hits|
  {
    if hits != [] {
      assert hits[|hits| - 1] in hits;
      HitsAtNone(hits[..|hits| - 1], i);
    }
  }

  lemma {:induction false} JobsLater(v: seq<Description>, hits: seq<Hit>, more: seq<Hit>, j: nat)
    requires |v| <= j && forall h :: h in more ==> h.slot.desc == j
    ensures JobsFor(v, hits + more) == JobsFor(v, hits)
    decreases |v|
  {
    if v != [] {
      JobsLater(v[..|v| - 1], hits, more, j);
      HitsAtConcat(hits, more, |v| - 1);
      HitsAtOnly(more, |v| - 1, j);
      assert HitsAt(hits + more, |v| - 1) == HitsAt(hits, |v| - 1);
    }
  }

  lemma {:induction false} JobsForSnoc(front: seq<Description>, d: Description, hits: seq<Hit>, more: seq<Hit>)
    requires forall h :: h in hits ==> h.slot.desc < |front|
    requires forall h :: h in more ==> h.slot.desc == |front|
    ensures JobsFor(front + [d], hits + more)
         == JobsFor(front, hits) + if more == [] then [] else [(|front|, Grouped(d.sets, more))]
  {
    assert (front + [d])[..|front|] == front;
    JobsLater(front, hits, more, |front|);
    HitsAtConcat(hits, more, |front|);
    HitsAtNone(hits, |front|);
    HitsAtOnly(more, |front|, |front|);
    assert HitsAt(hits + more, |front|) == more;
  }

  /** The state after the steps `v`: what their slots took, and the jobs that run it. */
  ghost predicate Taken(v: seq<Description>, needles: seq<Needle>, jobs: seq<Job>, rest: seq<Needle>, hits: seq<Hit>) {
    && Greedy(AllSlots(v), needles) == Matching(hits, rest)
    && JobsPaths(jobs) == HitOwners(hits)
    && NoneEmpty(jobs)
    && JobsTaken(v, jobs, hits)
  }

  ghost predicate NoneEmpty(jobs: seq<Job>) {
    forall i :: 0 <= i < |jobs| ==> jobs[i].sets != []
  }

  lemma NoneEmptyFound(sets: seq<PathSet>, jobs: seq<Job>, now: seq<Job>)
    requires NoneEmpty(jobs) && if sets == [] then now == [] else |now| == 1 && now[0].sets == sets
    ensures NoneEmpty(jobs + now)
  {
  }

  ghost predicate JobsTaken(v: seq<Description>, jobs: seq<Job>, hits: seq<Hit>) {
    Pairs(jobs) == JobsFor(v, hits) && forall h :: h in hits ==> h.slot.desc < |v|
  }

  lemma {:induction false} NextTaken(front: seq<Description>, d: Description, needles: seq<Needle>, jobs: seq<Job>,
                                     rest: seq<Needle>, hits: seq<Hit>, sets: seq<PathSet>, rest': seq<Needle>, more: seq<Hit>,
                                     now: seq<Job>, excludes: seq<TaskPath>)
    requires Taken(front, needles, jobs, rest, hits)
    requires Greedy(DescSlots(|front|, d.sets, Some(d.kind)), rest) == Matching(more, rest')
    requires SetsPaths(sets) == HitPaths(more) && sets == Grouped(d.sets, more) && (sets == [] <==> more == [])
    requires FiltersKept(jobs, excludes) && FiltersKept(now, excludes)
    requires if sets == [] then now == [] else |now| == 1 && now[0].desc == |front| && now[0].sets == sets
    ensures Taken(front + [d], needles, jobs + now, rest', hits + more) && FiltersKept(jobs + now, excludes)
  {
    NextStep(front, d, needles, Matching(hits, rest), Matching(more, rest'));
    NextOwners(|front|, d, rest, hits, Matching(more, rest'), sets, jobs, now);
    DescHits(|front|, d.sets, Some(d.kind), rest, Matching(more, rest'));
    NextPairs(front, d, jobs, hits, sets, more, now);
    NoneEmptyFound(sets, jobs, now);
    FiltersConcat(jobs, now, excludes);
  }

  lemma {:induction false} NextOwners(desc: nat, d: Description, needles: seq<Needle>, hits: seq<Hit>, more: Matching,
                                      sets: seq<PathSet>, jobs: seq<Job>, now: seq<Job>)
    requires more == Greedy(DescSlots(desc, d.sets, Some(d.kind)), needles)
    requires SetsPaths(sets) == HitPaths(more.hits) && JobsPaths(jobs) == HitOwners(hits)
    requires if sets == [] then now == [] else |now| == 1 && now[0].desc == desc && now[0].sets == sets
    ensures JobsPaths(jobs + now) == HitOwners(hits + more.hits)
  {
    NextStepPaths(desc, d, needles, hits, more, sets);
    JobsFound(desc, sets, jobs, now);
  }

  lemma {:induction false} JobsFound(desc: nat, sets: seq<PathSet>, jobs: seq<Job>, now: seq<Job>)
    requires if sets == [] then now == [] else |now| == 1 && now[0].desc == desc && now[0].sets == sets
    ensures JobsPaths(jobs + now) == JobsPaths(jobs) + Owned(desc, SetsPaths(sets))
  {
    if sets == [] {
      assert jobs + now == jobs;
    } else {
      assert now == [now[0]];
      JobsSnoc(jobs, now[0]);
    }
  }

  lemma {:induction false} NextPairs(front: seq<Description>, d: Description, jobs: seq<Job>, hits: seq<Hit>,
                                     sets: seq<PathSet>, more: seq<Hit>, now: seq<Job>)
    requires JobsTaken(front, jobs, hits)
    requires forall h :: h in more ==> h.slot.desc == |front|
    requires sets == Grouped(d.sets, more) && (sets == [] <==> more == [])
    requires if sets == [] then now == [] else |now| == 1 && now[0].desc == |front| && now[0].sets == sets
    ensures JobsTaken(front + [d], jobs + now, hits + more)
  {
    JobsForSnoc(front, d, hits, more);
    PairsFound(|front|, sets, jobs, now);
  }

  lemma PairsFound(desc: nat, sets: seq<PathSet>, jobs: seq<Job>, now: seq<Job>)
    requires if sets == [] then now == [] else |now| == 1 && now[0].desc == desc && now[0].sets == sets
    ensures Pairs(jobs + now) == Pairs(jobs) + if sets == [] then [] else [(desc, sets)]
  {
  }

  lemma FiltersConcat(a: seq<Job>, b: seq<Job>, excludes: seq<TaskPath>)
    requires FiltersKept(a, excludes) && FiltersKept(b, excludes)
    ensures FiltersKept(a + b, excludes)
  {
  }

  lemma {:induction false} NoJobs(v: seq<Description>)
    ensures JobsFor(v, []) == []
    decreases |v|
  {
    if v != [] { NoJobs(v[..|v| - 1]); }
  }

  lemma {:induction false} NothingToTake(slots: seq<Slot>)
    ensures Greedy(slots, []) == Matching([], [])
    decreases |slots|
  {
    if slots != [] {
      NothingToTake(slots[..|slots| - 1]);
    }
  }

  lemma {:induction false} JobsSnoc(jobs: seq<Job>, job: Job)
    ensures JobsPaths(jobs + [job]) == JobsPaths(jobs) + Owned(job.desc, SetsPaths(job.sets))
  {
    assert (jobs + [job])[..|jobs|] == jobs;
  }

  lemma {:induction false} DescSlotsDesc(desc: nat, sets: seq<PathSet>, kind: Option<Kind>)
    ensures forall s :: s in DescSlots(desc, sets, kind) ==> s.desc == desc
    decreases |sets|
  {
    if sets != [] {
      DescSlotsDesc(desc, sets[..|sets| - 1], kind);
    }
  }

  /** One more step. */
  lemma {:induction false} NextStep(front: seq<Description>, d: Description, needles: seq<Needle>, m: Matching, more: Matching)
    requires Greedy(AllSlots(front), needles) == m
    requires Greedy(DescSlots(|front|, d.sets, Some(d.kind)), m.rest) == more
    ensures Greedy(AllSlots(front + [d]), needles) == Matching(m.hits + more.hits, more.rest)
  {
    var a, b := AllSlots(front), DescSlots(|front|, d.sets, Some(d.kind));
    GreedyConcat(a, b, needles);
    AllSlotsSnoc(front, d);
  }

  lemma {:induction false} AllSlotsSnoc(front: seq<Description>, d: Description)
    ensures AllSlots(front + [d]) == AllSlots(front) + DescSlots(|front|, d.sets, Some(d.kind))
  {
    assert (front + [d])[..|front|] == front;
  }

  /** The paths of a step's sets are exactly what its slots took. */
  lemma {:induction false} NextStepPaths(desc: nat, d: Description, needles: seq<Needle>, hits: seq<Hit>, more: Matching,
                                         sets: seq<PathSet>)
    requires more == Greedy(DescSlots(desc, d.sets, Some(d.kind)), needles)
    requires SetsPaths(sets) == HitPaths(more.hits)
    ensures HitOwners(hits + more.hits) == HitOwners(hits) + Owned(desc, SetsPaths(sets))
  {
    DescHits(desc, d.sets, Some(d.kind), needles, more);
    OwnersOf(desc, more.hits);
    OwnersConcat(hits, more.hits);
  }

  lemma {:induction false} DescHits(desc: nat, sets: seq<PathSet>, kind: Option<Kind>, needles: seq<Needle>, more: Matching)
    requires more == Greedy(DescSlots(desc, sets, kind), needles)
    ensures forall h :: h in more.hits ==> h.slot.desc == desc
  {
    DescSlotsDesc(desc, sets, kind);
    HitsAreSlots(DescSlots(desc, sets, kind), needles);
  }

  lemma {:induction false} OwnersConcat(a: seq<Hit>, b: seq<Hit>)
    ensures HitOwners(a + b) == HitOwners(a) + HitOwners(b)
  {
  }

  lemma {:induction false} OwnersOf(desc: nat, hits: seq<Hit>)
    requires forall h :: h in hits ==> h.slot.desc == desc
    ensures HitOwners(hits) == Owned(desc, HitPaths(hits))
  {
    assert forall i :: 0 <= i < |hits| ==> hits[i] in hits;
  }

  // ------------------------------------------------------------------ conservation

  function HandedNeedles(handed: seq<(nat, PathSet, Needle)>): seq<Needle> {
    seq(|handed|, i requires 0 <= i < |handed| => handed[i].2)
  }

  /** Every path of the command line is handed to exactly one suite, taken by exactly one path
      of one step, or reported as unmatched; and everything `Greedy` promises. */
  lemma PathsConserved(v: seq<Description>, args: seq<Path>)
    ensures var needles := NeedlesFrom(args);
            var m := Greedy(AllSlots(v), Retained(v, needles));
            && multiset(HandedNeedles(Handed(v, needles))) + multiset(NeedlesOf(m.hits)) + multiset(m.rest)
               == multiset(needles)
            && GoodMatching(AllSlots(v), Retained(v, needles), m)
  {
    var needles := NeedlesFrom(args);
    assert needles[..|needles|] == needles;
    Partition(v, needles);
    RetainedAscends(v, needles);
    GreedyIsGood(AllSlots(v), Retained(v, needles));
  }

  lemma {:induction false} Partition(v: seq<Description>, needles: seq<Needle>)
    ensures multiset(HandedNeedles(Handed(v, needles))) + multiset(Retained(v, needles)) == multiset(needles)
    decreases |needles|
  {
    if needles != [] {
      var front, n := needles[..|needles| - 1], needles[|needles| - 1];
      Partition(v, front);
      assert needles == front + [n];
      var h := Handed(v, front);
      var found := SuiteStep(v, 0, n.path);
      if found.Some? {
        assert HandedNeedles(h + [(found.value.0, found.value.1, n)]) == HandedNeedles(h) + [n];
      }
    }
  }

  lemma {:induction false} RetainedAscends(v: seq<Description>, needles: seq<Needle>)
    requires Ascending(needles)
    ensures Ascending(Retained(v, needles))
    ensures forall n :: n in Retained(v, needles) ==> n in needles
    decreases |needles|
  {
    if needles != [] {
      var front, n := needles[..|needles| - 1], needles[|needles| - 1];
      RetainedAscends(v, front);
      var kept := Retained(v, front);
      assert forall i :: 0 <= i < |kept| ==> kept[i] in front;
    }
  }

  /** `suite` is the first of `sets` that is a suite around the path. */
  ghost predicate FirstSuite(sets: seq<PathSet>, path: Path, suite: PathSet) {
    exists k :: 0 <= k < |sets| && sets[k] == suite && InSuite(suite, path) && forall l :: 0 <= l < k ==> !InSuite(sets[l], path)
  }

  /** The suite phase picks the first suite around the path, of the first step that has one; and
      none only if no suite of any step contains it. */
  lemma {:induction false} SuiteIsFirst(v: seq<Description>, i: nat, path: Path)
    requires i <= |v|
    ensures match SuiteStep(v, i, path)
            case Some(ds) =>
              && i <= ds.0 < |v| && FirstSuite(v[ds.0].sets, path, ds.1)
              && (forall j, s :: i <= j < ds.0 && s in v[j].sets ==> !InSuite(s, path))
            case None => forall j, s :: i <= j < |v| && s in v[j].sets ==> !InSuite(s, path)
    decreases |v| - i
  {
    if i < |v| {
      SuiteOfIsFirst(v[i].sets, path);
      SuiteIsFirst(v, i + 1, path);
    }
  }

  lemma {:induction false} SuiteOfIsFirst(sets: seq<PathSet>, path: Path)
    ensures SuiteOf(sets, path).Some? ==> FirstSuite(sets, path, SuiteOf(sets, path).value)
    ensures SuiteOf(sets, path).None? ==> forall s :: s in sets ==> !InSuite(s, path)
    decreases |sets|
  {
    if sets != [] {
      SuiteOfIsFirst(sets[1..], path);
      if !InSuite(sets[0], path) && SuiteOf(sets, path).Some? {
        var suite := SuiteOf(sets, path).value;
        var k :| 0 <= k < |sets| - 1 && sets[1..][k] == suite && forall l :: 0 <= l < k ==> !InSuite(sets[1..][l], path);
        forall l | 0 <= l < k + 1 ensures !InSuite(sets[l], path) {
          assert l > 0 ==> sets[l] == sets[1..][l - 1];
        }
        assert sets[k + 1] == suite;
      }
    }
  }

  /** What is handed out goes to the first suite around it, of the first step that has one; what
      is kept lies in no suite. */
  lemma {:induction false} HandedIs(v: seq<Description>, needles: seq<Needle>)
    ensures forall x :: x in Handed(v, needles) ==>
              && x.2 in needles && x.0 < |v| && FirstSuite(v[x.0].sets, x.2.path, x.1)
              && (forall j, s :: 0 <= j < x.0 && s in v[j].sets ==> !InSuite(s, x.2.path))
    ensures forall n :: n in Retained(v, needles) ==> n in needles && !InSomeSuite(v, n.path)
    decreases |needles|
  {
    if needles != [] {
      var front, n := needles[..|needles| - 1], needles[|needles| - 1];
      HandedIs(v, front);
      SuiteIsFirst(v, 0, n.path);
      InSomeIs(v, n.path);
    }
  }
}
