/** The stamp files of cargo builds: `run_cargo` writes a sorted list of paths, each tagged with
    its dependency type and ended by a NUL byte; `read_stamp_file` reads it back. */
module StampFormat {
  import opened Wrappers

  datatype DependencyType = Host | Target | TargetSelfContained

  datatype Dep = Dep(path: Bytes, kind: DependencyType)

  function Tag(kind: DependencyType): bv8 {
    match kind
    case Host => 0x68
    case Target => 0x74
    case TargetSelfContained => 0x73
  }

  function Untag(b: bv8): Option<DependencyType> {
    if b == 0x68 then Some(Host)
    else if b == 0x73 then Some(TargetSelfContained)
    else if b == 0x74 then Some(Target)
    else None
  }

  // ------------------------------------------------------------------ writing

  /** One record without its final NUL. */
  function Part(d: Dep): Bytes {
    [Tag(d.kind)] + d.path
  }

  function Print(deps: seq<Dep>): Bytes {
    if deps == [] then [] else Part(deps[0]) + [0] + Print(deps[1..])
  }

  lemma {:induction false} PrintSnoc(deps: seq<Dep>, d: Dep)
    ensures Print(deps + [d]) == Print(deps) + Part(d) + [0]
    decreases |deps|
  {
    if deps == [] {
      assert [] + [d] == [d];
      assert Print([d][1..]) == [];
    } else {
      assert (deps + [d])[1..] == deps[1..] + [d];
      PrintSnoc(deps[1..], d);
    }
  }

  /** The loop at the end of `run_cargo`, over dependencies already sorted. */
  method PrintStamp(deps: seq<Dep>) returns (contents: Bytes)
    ensures contents == Print(deps)
  {
    contents := [];
    for i := 0 to |deps|
      invariant contents == Print(deps[..i])
    {
      var dep := deps[i];
      PrintSnoc(deps[..i], dep);
      assert deps[..i + 1] == deps[..i] + [dep];
      contents := contents + [Tag(dep.kind)];
      contents := contents + dep.path;
      contents := contents + [0];
    }
    assert deps[..|deps|] == deps;
  }

  // ------------------------------------------------------------------ reading

  /** `contents.split(|b| *b == 0)`, the part being read last. */
  function Split(b: Bytes): (parts: seq<Bytes>)
    ensures |parts| > 0
  {
    if b == [] then [[]]
    else
      var parts := Split(b[..|b| - 1]);
      var last := b[|b| - 1];
      if last == 0 then parts + [[]] else parts[..|parts| - 1] + [parts[|parts| - 1] + [last]]
  }

  /** One part: `Some(None)` for an empty one, which is skipped; `None` where the reader panics
      on an unknown tag or on a path that is not UTF-8. */
  function ParsePart(utf8: Bytes -> bool, part: Bytes): Option<Option<Dep>> {
    if part == [] then Some(None)
    else if Untag(part[0]).None? || !utf8(part[1..]) then None
    else Some(Some(Dep(part[1..], Untag(part[0]).value)))
  }

  function ParseParts(utf8: Bytes -> bool, parts: seq<Bytes>): Option<seq<Dep>> {
    if parts == [] then Some([])
    else
      match (ParseParts(utf8, parts[..|parts| - 1]), ParsePart(utf8, parts[|parts| - 1]))
      case (Some(deps), Some(None)) => Some(deps)
      case (Some(deps), Some(Some(d))) => Some(deps + [d])
      case (_, _) => None
  }

  function Parse(utf8: Bytes -> bool, contents: Bytes): Option<seq<Dep>> {
    ParseParts(utf8, Split(contents))
  }

  /** The loop of `read_stamp_file`. */
  method ReadStampFile(utf8: Bytes -> bool, contents: Bytes) returns (r: Option<seq<Dep>>)
    ensures r == Parse(utf8, contents)
  {
    var parts := Split(contents);
    var paths: seq<Dep> := [];
    for i := 0 to |parts|
      invariant ParseParts(utf8, parts[..i]) == Some(paths)
    {
      assert parts[..i + 1][..i] == parts[..i];
      var part := parts[i];
      if part != [] {
        var kind := Untag(part[0]);
        if kind.None? || !utf8(part[1..]) {
          PartsPanic(utf8, parts, i + 1);
          return None;
        }
        paths := paths + [Dep(part[1..], kind.value)];
      }
    }
    assert parts[..|parts|] == parts;
    return Some(paths);
  }

  lemma {:induction false} PartsPanic(utf8: Bytes -> bool, parts: seq<Bytes>, n: nat)
    requires n <= |parts| && ParseParts(utf8, parts[..n]).None?
    ensures ParseParts(utf8, parts).None?
    decreases |parts| - n
  {
    if n < |parts| {
      assert parts[..n + 1][..n] == parts[..n];
      PartsPanic(utf8, parts, n + 1);
    } else {
      assert parts[..n] == parts;
    }
  }

  // ------------------------------------------------------------------ round trip

  /** What `dep.to_str().unwrap()` demands, and that no path contains a NUL. */
  ghost predicate Writable(utf8: Bytes -> bool, deps: seq<Dep>) {
    forall i :: 0 <= i < |deps| ==> utf8(deps[i].path) && 0 !in deps[i].path
  }

  lemma {:induction false} SplitPart(b: Bytes, part: Bytes)
    requires 0 !in part && Split(b)[|Split(b)| - 1] == []
    ensures Split(b + part) == Split(b)[..|Split(b)| - 1] + [part]
    decreases |part|
  {
    if part == [] {
      assert b + part == b;
    } else {
      var front, last := part[..|part| - 1], part[|part| - 1];
      assert (b + part)[..|b + part| - 1] == b + front;
      SplitPart(b, front);
      assert front + [last] == part;
    }
  }

  /** Splitting what was written gives the records, then one empty part. */
  lemma {:induction false} SplitPrint(deps: seq<Dep>)
    requires forall i :: 0 <= i < |deps| ==> 0 !in deps[i].path
    ensures Split(Print(deps)) == seq(|deps|, i requires 0 <= i < |deps| => Part(deps[i])) + [[]]
    decreases |deps|
  {
    if deps != [] {
      var front, d := deps[..|deps| - 1], deps[|deps| - 1];
      assert deps == front + [d];
      SplitPrint(front);
      PrintSnoc(front, d);
      var parts := seq(|front|, i requires 0 <= i < |front| => Part(front[i]));
      SplitRecord(Print(front), Part(d), parts);
      assert seq(|deps|, i requires 0 <= i < |deps| => Part(deps[i])) == parts + [Part(d)];
    }
  }

  lemma {:induction false} SplitRecord(b: Bytes, part: Bytes, parts: seq<Bytes>)
    requires 0 !in part && Split(b) == parts + [[]]
    ensures Split(b + part + [0]) == parts + [part] + [[]]
  {
    SplitPart(b, part);
    var c := b + part;
    assert (c + [0])[..|c + [0]| - 1] == c;
  }

  /** Reading undoes writing. */
  lemma {:induction false} RoundTrip(utf8: Bytes -> bool, deps: seq<Dep>)
    requires Writable(utf8, deps)
    ensures Parse(utf8, Print(deps)) == Some(deps)
  {
    SplitPrint(deps);
    var parts := seq(|deps|, i requires 0 <= i < |deps| => Part(deps[i]));
    PartsOf(utf8, deps, parts);
    assert (parts + [[]])[..|parts|] == parts;
  }

  lemma {:induction false} PartsOf(utf8: Bytes -> bool, deps: seq<Dep>, parts: seq<Bytes>)
    requires Writable(utf8, deps) && |parts| == |deps|
    requires forall i :: 0 <= i < |deps| ==> parts[i] == Part(deps[i])
    ensures ParseParts(utf8, parts) == Some(deps)
    decreases |deps|
  {
    if deps != [] {
      var n := |deps| - 1;
      PartsOf(utf8, deps[..n], parts[..n]);
      assert parts[n][1..] == deps[n].path;
      assert deps == deps[..n] + [deps[n]];
    }
  }

  // ------------------------------------------------------------------ sorting

  /** The order of `deps.sort()`: any total order. */
  ghost predicate TotalOrder(leq: (Dep, Dep) -> bool) {
    && (forall a, b :: leq(a, b) || leq(b, a))
    && (forall a, b :: leq(a, b) && leq(b, a) ==> a == b)
    && (forall a, b, c :: leq(a, b) && leq(b, c) ==> leq(a, c))
  }

  ghost predicate Sorted(leq: (Dep, Dep) -> bool, s: seq<Dep>) {
    forall i, j :: 0 <= i < j < |s| ==> leq(s[i], s[j])
  }

  function Insert(leq: (Dep, Dep) -> bool, s: seq<Dep>, d: Dep): seq<Dep> {
    if s == [] || leq(d, s[0]) then [d] + s else [s[0]] + Insert(leq, s[1..], d)
  }

  function Sort(leq: (Dep, Dep) -> bool, s: seq<Dep>): seq<Dep> {
    if s == [] then [] else Insert(leq, Sort(leq, s[1..]), s[0])
  }

  lemma {:induction false} InsertSorted(leq: (Dep, Dep) -> bool, s: seq<Dep>, d: Dep)
    requires TotalOrder(leq) && Sorted(leq, s)
    ensures Sorted(leq, Insert(leq, s, d)) && multiset(Insert(leq, s, d)) == multiset(s) + multiset{d}
    decreases |s|
  {
    if s != [] && !leq(d, s[0]) {
      InsertSorted(leq, s[1..], d);
      assert s == [s[0]] + s[1..];
      var rest := Insert(leq, s[1..], d);
      forall x | x in rest ensures leq(s[0], x) {
        assert x in multiset(rest);
      }
      SortedCons(leq, s[0], rest);
    } else {
      assert multiset([d] + s) == multiset{d} + multiset(s);
      SortedCons(leq, d, s);
    }
  }

  lemma {:induction false} SortedCons(leq: (Dep, Dep) -> bool, d: Dep, s: seq<Dep>)
    requires TotalOrder(leq) && Sorted(leq, s) && (s == [] || leq(d, s[0]) || forall x :: x in s ==> leq(d, x))
    ensures Sorted(leq, [d] + s)
  {
    forall j | 0 <= j < |s| ensures leq(d, s[j]) {
      if leq(d, s[0]) && j > 0 { assert leq(s[0], s[j]); }
    }
  }

  lemma {:induction false} SortSorts(leq: (Dep, Dep) -> bool, s: seq<Dep>)
    requires TotalOrder(leq)
    ensures Sorted(leq, Sort(leq, s)) && multiset(Sort(leq, s)) == multiset(s)
    decreases |s|
  {
    if s != [] {
      SortSorts(leq, s[1..]);
      InsertSorted(leq, Sort(leq, s[1..]), s[0]);
      assert s == [s[0]] + s[1..];
    }
  }

  lemma {:induction false} SortedUnique(leq: (Dep, Dep) -> bool, a: seq<Dep>, b: seq<Dep>)
    requires TotalOrder(leq) && Sorted(leq, a) && Sorted(leq, b) && multiset(a) == multiset(b)
    ensures a == b
    decreases |a|
  {
    if a == [] {
      assert |multiset(b)| == |b|;
    } else {
      SameHead(leq, a, b);
      TailMultiset(a);
      TailMultiset(b);
      SortedUnique(leq, a[1..], b[1..]);
    }
  }

  lemma TailMultiset(s: seq<Dep>)
    requires s != []
    ensures s == [s[0]] + s[1..] && multiset(s[1..]) == multiset(s) - multiset{s[0]}
  {
    assert s == [s[0]] + s[1..];
  }

  lemma {:induction false} SameHead(leq: (Dep, Dep) -> bool, a: seq<Dep>, b: seq<Dep>)
    requires TotalOrder(leq) && Sorted(leq, a) && Sorted(leq, b) && multiset(a) == multiset(b) && a != []
    ensures b != [] && a[0] == b[0]
  {
    assert a[0] in multiset(b) && |multiset(a)| == |a| && |multiset(b)| == |b|;
    assert b[0] in multiset(a);
    assert leq(a[0], b[0]) && leq(b[0], a[0]);
  }

  // ------------------------------------------------------------------ main results

  /** What `run_cargo` writes for the dependencies of one build. */
  function Stamp(leq: (Dep, Dep) -> bool, deps: seq<Dep>): Bytes {
    Print(Sort(leq, deps))
  }

  lemma WritableSorted(leq: (Dep, Dep) -> bool, utf8: Bytes -> bool, deps: seq<Dep>)
    requires TotalOrder(leq) && Writable(utf8, deps)
    ensures Writable(utf8, Sort(leq, deps))
  {
    SortSorts(leq, deps);
    forall i | 0 <= i < |Sort(leq, deps)|
      ensures utf8(Sort(leq, deps)[i].path) && 0 !in Sort(leq, deps)[i].path
    {
      assert Sort(leq, deps)[i] in multiset(deps);
    }
  }

  /** Reading a stamp gives the dependencies in sorted order. */
  lemma StampReads(leq: (Dep, Dep) -> bool, utf8: Bytes -> bool, deps: seq<Dep>)
    requires TotalOrder(leq) && Writable(utf8, deps)
    ensures Parse(utf8, Stamp(leq, deps)) == Some(Sort(leq, deps))
    ensures Sorted(leq, Sort(leq, deps)) && multiset(Sort(leq, deps)) == multiset(deps)
  {
    WritableSorted(leq, utf8, deps);
    RoundTrip(utf8, Sort(leq, deps));
    SortSorts(leq, deps);
  }

  /** Two builds leave the same stamp exactly when they have the same dependencies, whatever the
      order in which cargo reported them. */
  lemma StampIdentifies(leq: (Dep, Dep) -> bool, utf8: Bytes -> bool, a: seq<Dep>, b: seq<Dep>)
    requires TotalOrder(leq) && Writable(utf8, a) && Writable(utf8, b)
    ensures Stamp(leq, a) == Stamp(leq, b) <==> multiset(a) == multiset(b)
  {
    StampReads(leq, utf8, a);
    StampReads(leq, utf8, b);
    if multiset(a) == multiset(b) { SortedUnique(leq, Sort(leq, a), Sort(leq, b)); }
  }

  // ------------------------------------------------------------------ the format itself

  /** One record: the letter of the dependency type, the path, a NUL. */
  lemma {:induction false} OneRecord(path: Bytes)
    ensures Print([Dep(path, Host)]) == ['h' as bv8] + path + [0]
    ensures Print([Dep(path, Target)]) == ['t' as bv8] + path + [0]
    ensures Print([Dep(path, TargetSelfContained)]) == ['s' as bv8] + path + [0]
  {
    forall kind: DependencyType ensures Print([Dep(path, kind)]) == [Tag(kind)] + path + [0] {
      assert [Dep(path, kind)][1..] == [];
    }
  }

  /** The parts of a file put together again. */
  function Join(parts: seq<Bytes>): Bytes
    requires |parts| > 0
  {
    if |parts| == 1 then parts[0] else Join(parts[..|parts| - 1]) + [0] + parts[|parts| - 1]
  }

  /** Splitting cuts at every NUL and nowhere else. */
  lemma {:induction false} SplitIs(b: Bytes)
    ensures Join(Split(b)) == b && forall i :: 0 <= i < |Split(b)| ==> 0 !in Split(b)[i]
    decreases |b|
  {
    if b != [] {
      var front, last := b[..|b| - 1], b[|b| - 1];
      SplitIs(front);
      var parts := Split(front);
      var n := |parts| - 1;
      assert b == front + [last];
      if last == 0 {
        assert (parts + [[]])[..|parts|] == parts;
      } else {
        var more := parts[..n] + [parts[n] + [last]];
        assert more[..n] == parts[..n] && |more| == |parts|;
        if n > 0 { assert Join(parts) == Join(parts[..n]) + [0] + parts[n]; }
      }
    }
  }

  /** A part the reader cannot take. */
  predicate BadPart(utf8: Bytes -> bool, part: Bytes) {
    part != [] && (part[0] !in {'h' as bv8, 't' as bv8, 's' as bv8} || !utf8(part[1..]))
  }

  /** The reader panics exactly on a file with such a part. */
  lemma {:induction false} PanicsExactly(utf8: Bytes -> bool, parts: seq<Bytes>)
    ensures ParseParts(utf8, parts).None? <==> exists i :: 0 <= i < |parts| && BadPart(utf8, parts[i])
    decreases |parts|
  {
    if parts != [] {
      var n := |parts| - 1;
      PanicsExactly(utf8, parts[..n]);
      assert ParsePart(utf8, parts[n]).None? <==> BadPart(utf8, parts[n]);
      if i :| 0 <= i < |parts| && BadPart(utf8, parts[i]) {
        assert i < n ==> parts[..n][i] == parts[i];
      }
    }
  }
}
