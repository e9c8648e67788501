/** `Build::in_tree_crates`: the workspace crates a root crate pulls in. */
module CrateGraph {
  import opened Wrappers

  type Name = string

  /** The workspace: its crates with their dependencies (in a hash set, so without order), and
      which optional crates are switched on. */
  datatype Workspace = Workspace(crates: map<Name, set<Name>>, profiler: bool, llvm: bool)

  predicate Enabled(ws: Workspace, dep: Name) {
    (dep != "profiler_builtins" || ws.profiler) && (dep != "rustc_codegen_llvm" || ws.llvm)
  }

  /** `a` pulls in `b`: a dependency that is a workspace member and switched on. */
  predicate Pulls(ws: Workspace, a: Name, b: Name) {
    a in ws.crates && b in ws.crates[a] && b in ws.crates && Enabled(ws, b)
  }

  ghost predicate Chain(ws: Workspace, p: seq<Name>) {
    |p| > 0 && forall i :: 0 < i < |p| ==> Pulls(ws, p[i - 1], p[i])
  }

  ghost predicate Reachable(ws: Workspace, root: Name, x: Name) {
    exists p :: Chain(ws, p) && p[0] == root && p[|p| - 1] == x
  }

  /** Some crate the root leads to pulls in `x`. */
  ghost predicate PulledIn(ws: Workspace, root: Name, x: Name) {
    exists y :: Reachable(ws, root, y) && Pulls(ws, y, x)
  }

  function Indicator(b: bool): nat { if b then 1 else 0 }

  lemma ReachSelf(ws: Workspace, root: Name)
    ensures Reachable(ws, root, root)
  {
    assert Chain(ws, [root]);
  }

  lemma ReachNext(ws: Workspace, root: Name, y: Name, x: Name)
    requires Reachable(ws, root, y) && Pulls(ws, y, x)
    ensures Reachable(ws, root, x)
  {
    var p :| Chain(ws, p) && p[0] == root && p[|p| - 1] == y;
    assert Chain(ws, p + [x]) && (p + [x])[0] == root;
  }

  /** A set that holds the root and is closed under `Pulls` holds all that is reachable. */
  lemma {:induction false} ClosedHoldsReachable(ws: Workspace, s: set<Name>, p: seq<Name>)
    requires Chain(ws, p) && p[0] in s
    requires forall a, b :: a in s && Pulls(ws, a, b) ==> b in s
    ensures p[|p| - 1] in s
    decreases |p|
  {
    if |p| > 1 {
      var q := p[..|p| - 1];
      assert Chain(ws, q) by {
        forall i | 0 < i < |q| ensures Pulls(ws, q[i - 1], q[i]) { assert Pulls(ws, p[i - 1], p[i]); }
      }
      ClosedHoldsReachable(ws, s, q);
      assert Pulls(ws, p[|p| - 2], p[|p| - 1]);
    }
  }

  lemma ReachableHeld(ws: Workspace, s: set<Name>, root: Name, x: Name)
    requires root in s && Reachable(ws, root, x)
    requires forall a, b :: a in s && Pulls(ws, a, b) ==> b in s
    ensures x in s
  {
    var p :| Chain(ws, p) && p[0] == root && p[|p| - 1] == x;
    ClosedHoldsReachable(ws, s, p);
  }

  /** The names put on the list so far: the root, and everything visited that is switched on. */
  ghost predicate Listed(ws: Workspace, root: Name, visited: set<Name>, names: multiset<Name>) {
    forall x :: names[x] == Indicator(x == root) + Indicator(x in visited && Enabled(ws, x))
  }

  /** Visited crates are workspace members that a listed crate depends on. */
  ghost predicate Justified(ws: Workspace, root: Name, visited: set<Name>) {
    forall x :: x in visited ==>
      x in ws.crates && exists y :: Reachable(ws, root, y) && y in ws.crates && x in ws.crates[y]
  }

  /** The dependencies of `y` have been visited. */
  ghost predicate Expanded(ws: Workspace, visited: set<Name>, y: Name) {
    y in ws.crates && ws.crates[y] * ws.crates.Keys <= visited
  }

  lemma ListedAreReachable(ws: Workspace, root: Name, visited: set<Name>, names: multiset<Name>, x: Name)
    requires Listed(ws, root, visited, names) && Justified(ws, root, visited) && x in names
    ensures Reachable(ws, root, x) && (x == root || x in ws.crates)
  {
    ReachSelf(ws, root);
    if x != root {
      var y :| Reachable(ws, root, y) && y in ws.crates && x in ws.crates[y];
      ReachNext(ws, root, y, x);
    }
  }

  lemma PopKeeps(ret: seq<Name>, list: seq<Name>)
    requires list != []
    ensures multiset(ret + [list[|list| - 1]]) + multiset(list[..|list| - 1]) == multiset(ret) + multiset(list)
  {
    assert list == list[..|list| - 1] + [list[|list| - 1]];
  }

  /** The dependencies of a crate that are put on the list when it is expanded. */
  function Fresh(ws: Workspace, visited: set<Name>, deps: set<Name>): set<Name> {
    set d | d in deps && d in ws.crates && d !in visited && Enabled(ws, d)
  }

  lemma ExpandKeeps(ws: Workspace, root: Name, visited: set<Name>, names: multiset<Name>, krate: Name)
    requires Listed(ws, root, visited, names) && Justified(ws, root, visited)
    requires Reachable(ws, root, krate) && krate in ws.crates
    ensures var deps := ws.crates[krate];
            && Justified(ws, root, visited + deps * ws.crates.Keys)
            && Listed(ws, root, visited + deps * ws.crates.Keys, names + multiset(Fresh(ws, visited, deps)))
  {
  }

  lemma FreshStep(ws: Workspace, visited: set<Name>, seen: set<Name>, dep: Name)
    requires dep !in seen
    ensures multiset(Fresh(ws, visited, seen + {dep})) ==
            multiset(Fresh(ws, visited, seen))
            + if dep in ws.crates && dep !in visited && Enabled(ws, dep) then multiset{dep} else multiset{}
  {
    assert Fresh(ws, visited, seen + {dep}) ==
           Fresh(ws, visited, seen)
           + if dep in ws.crates && dep !in visited && Enabled(ws, dep) then {dep} else {};
  }

  /** The inner loop, in whatever order the dependencies come. */
  method Expand(ws: Workspace, deps: set<Name>, list: seq<Name>, visited: set<Name>)
    returns (list': seq<Name>, visited': set<Name>)
    ensures visited' == visited + deps * ws.crates.Keys
    ensures multiset(list') == multiset(list) + multiset(Fresh(ws, visited, deps))
  {
    list', visited' := list, visited;
    var todo := deps;
    while todo != {}
      invariant todo <= deps && visited' == visited + (deps - todo) * ws.crates.Keys
      invariant multiset(list') == multiset(list) + multiset(Fresh(ws, visited, deps - todo))
    {
      var dep :| dep in todo;
      assert deps - (todo - {dep}) == (deps - todo) + {dep};
      FreshStep(ws, visited, deps - todo, dep);
      todo := todo - {dep};
      if dep in ws.crates {
        var isNew := dep !in visited';
        visited' := visited' + {dep};
        if isNew && Enabled(ws, dep) {
          list' := list' + [dep];
        }
      }
    }
    assert deps - todo == deps;
  }

  lemma SameLength(a: seq<Name>, b: seq<Name>)
    requires multiset(a) == multiset(b)
    ensures |a| == |b|
  {
    assert |multiset(a)| == |a| && |multiset(b)| == |b|;
  }

  /** What holds between two rounds of the worklist loop. */
  ghost predicate Progress(ws: Workspace, root: Name, visited: set<Name>, ret: seq<Name>, list: seq<Name>) {
    && visited <= ws.crates.Keys
    && Listed(ws, root, visited, multiset(ret) + multiset(list))
    && Justified(ws, root, visited)
    && (forall y :: y in ret ==> Expanded(ws, visited, y))
  }

  lemma PoppedInWorkspace(ws: Workspace, root: Name, visited: set<Name>, ret: seq<Name>, list: seq<Name>)
    requires root in ws.crates && Progress(ws, root, visited, ret, list) && list != []
    ensures list[|list| - 1] in ws.crates && Reachable(ws, root, list[|list| - 1])
  {
    ListedAreReachable(ws, root, visited, multiset(ret) + multiset(list), list[|list| - 1]);
  }

  lemma RoundKeeps(ws: Workspace, root: Name, visited: set<Name>, ret: seq<Name>, list: seq<Name>,
                   visited': set<Name>, list': seq<Name>)
    requires root in ws.crates && Progress(ws, root, visited, ret, list) && list != []
    requires list[|list| - 1] in ws.crates
    requires var deps := ws.crates[list[|list| - 1]];
             && visited' == visited + deps * ws.crates.Keys
             && multiset(list') == multiset(list[..|list| - 1]) + multiset(Fresh(ws, visited, deps))
    ensures Progress(ws, root, visited', ret + [list[|list| - 1]], list')
  {
    var krate := list[|list| - 1];
    var names := multiset(ret) + multiset(list);
    PoppedInWorkspace(ws, root, visited, ret, list);
    ExpandKeeps(ws, root, visited, names, krate);
    PopKeeps(ret, list);
    assert multiset(ret + [krate]) + multiset(list') == names + multiset(Fresh(ws, visited, ws.crates[krate]));
    forall y | y in ret + [krate] ensures Expanded(ws, visited', y) {
      if y in ret { assert Expanded(ws, visited, y); }
    }
  }

  /** `None` is the panic of indexing a root that is not in the workspace.  Otherwise a crate is
      returned once for being the root and once for being pulled in: exactly the reachable
      crates, each once, except that the root comes twice when a reachable crate pulls it in. */
  method InTreeCrates(ws: Workspace, root: Name) returns (r: Option<seq<Name>>)
    ensures r.Some? <==> root in ws.crates
    ensures r.Some? ==> Counts(ws, root, r.value)
  {
    if root !in ws.crates {
      return None;
    }
    var ret: seq<Name> := [];
    var list := [root];
    var visited: set<Name> := {};
    while list != []
      invariant Progress(ws, root, visited, ret, list)
      decreases ws.crates.Keys - visited, |list|
    {
      var krate := list[|list| - 1];
      PoppedInWorkspace(ws, root, visited, ret, list);
      var list', visited' := Expand(ws, ws.crates[krate], list[..|list| - 1], visited);
      RoundKeeps(ws, root, visited, ret, list, visited', list');
      if visited' == visited {
        SameLength(list[..|list| - 1], list');
      }
      ret := ret + [krate];
      list, visited := list', visited';
    }
    r := Some(ret);
    forall x ensures multiset(ret)[x] == Indicator(x == root) + Indicator(PulledIn(ws, root, x)) {
      Counted(ws, root, visited, ret, x);
    }
  }

  ghost predicate Counts(ws: Workspace, root: Name, ret: seq<Name>) {
    forall x :: multiset(ret)[x] == Indicator(x == root) + Indicator(PulledIn(ws, root, x))
  }

  /** When the list is empty, what was visited and switched on is what is pulled in. */
  lemma Counted(ws: Workspace, root: Name, visited: set<Name>, ret: seq<Name>, x: Name)
    requires root in ws.crates && Progress(ws, root, visited, ret, [])
    ensures multiset(ret)[x] == Indicator(x == root) + Indicator(PulledIn(ws, root, x))
  {
    if x in visited && Enabled(ws, x) {
      var y :| Reachable(ws, root, y) && y in ws.crates && x in ws.crates[y];
      assert Pulls(ws, y, x);
    }
    if PulledIn(ws, root, x) {
      var y :| Reachable(ws, root, y) && Pulls(ws, y, x);
      var s := set z | z in ret;
      assert multiset(ret)[root] > 0;
      forall a, b | a in s && Pulls(ws, a, b) ensures b in s {
        assert Expanded(ws, visited, a);
        assert multiset(ret)[b] > 0;
      }
      ReachableHeld(ws, s, root, y);
      assert Expanded(ws, visited, y);
    }
  }

  /** What the counts say: the root and everything reachable, nothing else; only the root can
      come twice. */
  lemma Result(ws: Workspace, root: Name, ret: seq<Name>, x: Name)
    requires Counts(ws, root, ret)
    ensures x in ret <==> Reachable(ws, root, x)
    ensures x != root ==> multiset(ret)[x] <= 1
    ensures multiset(ret)[root] == 2 <==> exists y :: y in ret && Pulls(ws, y, root)
  {
    forall z ensures z in ret <==> Reachable(ws, root, z) {
      ReachSelf(ws, root);
      assert z in ret <==> multiset(ret)[z] > 0;
      if Reachable(ws, root, z) && z != root {
        var p :| Chain(ws, p) && p[0] == root && p[|p| - 1] == z;
        var q := p[..|p| - 1];
        assert Chain(ws, q) by {
          forall i | 0 < i < |q| ensures Pulls(ws, q[i - 1], q[i]) { assert Pulls(ws, p[i - 1], p[i]); }
        }
        assert Reachable(ws, root, q[|q| - 1]);
        assert Pulls(ws, p[|p| - 2], p[|p| - 1]);
      }
      if PulledIn(ws, root, z) {
        var y :| Reachable(ws, root, y) && Pulls(ws, y, z);
        ReachNext(ws, root, y, z);
      }
    }
  }

  /** Which dependencies of returned crates are returned, in terms of the workspace alone: all
      that are members, but the profiler's runtime and the LLVM backend only when these are
      enabled; and neither of the two is returned otherwise, unless it is the root. */
  lemma Features(ws: Workspace, root: Name, ret: seq<Name>)
    requires Counts(ws, root, ret)
    ensures forall y, d :: y in ret && y in ws.crates && d in ws.crates[y] && d in ws.crates ==>
              && (d != "profiler_builtins" && d != "rustc_codegen_llvm" ==> d in ret)
              && (d == "profiler_builtins" && ws.profiler ==> d in ret)
              && (d == "rustc_codegen_llvm" && ws.llvm ==> d in ret)
    ensures forall x :: x in ret && x != root ==>
              && x in ws.crates
              && (x == "profiler_builtins" ==> ws.profiler)
              && (x == "rustc_codegen_llvm" ==> ws.llvm)
              && exists y :: y in ret && y in ws.crates && x in ws.crates[y]
  {
    forall z ensures z in ret <==> multiset(ret)[z] > 0 { }
    forall y, d | y in ret && Pulls(ws, y, d) ensures d in ret {
      Result(ws, root, ret, y);
      assert PulledIn(ws, root, d);
    }
    forall x | x in ret && x != root ensures exists y :: y in ret && Pulls(ws, y, x) {
      var y :| Reachable(ws, root, y) && Pulls(ws, y, x);
      Result(ws, root, ret, y);
    }
  }
}
