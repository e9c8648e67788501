/** How `config.rs` comes by its settings: it parses the user's file and the profile's into
    structs, and merges these, keeping what is set. */
module ConfigMerge {
  import opened Wrappers
  import opened ConfigLines

  type Table<+V> = map<string, V>

  function Get<V>(t: Table<V>, key: string): Option<V> {
    if key in t then Some(t[key]) else None
  }

  // ------------------------------------------------------------------ one file

  /** The sections that are merged. */
  const MERGED: set<string> := {"build", "install", "llvm", "rust", "dist"}

  /** The other names that may stand above the first header. */
  const SETTINGS: set<string> := {"changelog-seen", "profile"}

  predicate IsTarget(section: string) {
    section == "target" || "target." <= section
  }

  /** The top-level name a header belongs to, if there is one: unknown sections are refused. */
  function Owner(header: string): Option<string> {
    if header in MERGED then Some(header)
    else if IsTarget(header) then Some("target")
    else if header == "llvm.build-config" then Some(header)
    else None
  }

  /** A file that was accepted: the entries above the first header, one table per header, and
      the section at the end. */
  datatype Toml<+V> = Toml(top: map<string, Value<V>>, tables: map<string, Table<V>>, cur: Option<string>)

  /** Above the first header only known settings, and sections given as inline tables. */
  predicate TopAllowed<V>(key: string, value: Value<V>) {
    if value.Inline? then key in MERGED || key == "target" else key in SETTINGS
  }

  /** `None` where TOML rejects a repetition, or the structs an unknown name. */
  function Parse<V>(lines: seq<Reading<V>>): Option<Toml<V>> {
    if lines == [] then Some(Toml(map[], map[], None))
    else
      match Parse(lines[..|lines| - 1])
      case None => None
      case Some(t) => ParseLine(t, lines[|lines| - 1])
  }

  function ParseLine<V>(t: Toml<V>, line: Reading<V>): Option<Toml<V>> {
    match line
    case Header(name) =>
      if Owner(name).None? || name in t.tables || Owner(name).value in t.top then None
      else Some(t.(tables := t.tables[name := map[]], cur := Some(name)))
    case Pair(k, v) =>
      if t.cur.None? then
        if k in t.top || !TopAllowed(k, v) then None else Some(t.(top := t.top[k := v]))
      else if t.cur.value !in t.tables || k in t.tables[t.cur.value] then None
      else Some(t.(tables := t.tables[t.cur.value := t.tables[t.cur.value][k := Text(v)]]))
    case Other => Some(t)
  }

  /** A section, given under a header or inline. */
  function UnderHeader<V>(t: Toml<V>, section: string): Option<Table<V>> {
    if section in t.tables then Some(t.tables[section]) else None
  }

  function InlineAt<V>(t: Toml<V>, section: string): Option<Table<V>> {
    if section in t.top && t.top[section].Inline? then Some(t.top[section].entries) else None
  }

  function Section<V>(t: Toml<V>, section: string): Option<Table<V>> {
    OrElse(UnderHeader(t, section), InlineAt(t, section))
  }

  function Lookup<V>(table: Option<Table<V>>, key: string): Option<V> {
    if table.Some? then Get(table.value, key) else None
  }

  // ------------------------------------------------------------------ merging

  /** `TomlConfig`; `None` for a section that is absent. */
  datatype Config<+V> = Config(
    build: Option<Table<V>>, install: Option<Table<V>>, llvm: Option<Table<V>>, rust: Option<Table<V>>,
    dist: Option<Table<V>>, target: bool)

  function FromToml<V>(t: Toml<V>): Config<V> {
    Config(Section(t, "build"), Section(t, "install"), Section(t, "llvm"), Section(t, "rust"), Section(t, "dist"),
           "target" in t.top || exists s :: s in t.tables && IsTarget(s))
  }

  function Field<V>(c: Config<V>, section: string): Option<Table<V>>
    requires section in MERGED
  {
    if section == "build" then c.build
    else if section == "install" then c.install
    else if section == "llvm" then c.llvm
    else if section == "rust" then c.rust
    else c.dist
  }

  /** `merge` of one section: a field that is set stays. */
  function MergeTable<V>(original: Table<V>, other: Table<V>): Table<V> {
    map k | k in original.Keys + other.Keys :: if k in original then original[k] else other[k]
  }

  /** `do_merge`. */
  function DoMerge<V>(x: Option<Table<V>>, y: Option<Table<V>>): Option<Table<V>> {
    match (x, y)
    case (Some(original), Some(added)) => Some(MergeTable(original, added))
    case (None, Some(added)) => y
    case (_, None) => x
  }

  class TomlConfig {
    var build: Option<Table<string>>
    var install: Option<Table<string>>
    var llvm: Option<Table<string>>
    var rust: Option<Table<string>>
    var dist: Option<Table<string>>
    var target: bool

    ghost function Value(): Config<string>
      reads this
    {
      Config(build, install, llvm, rust, dist, target)
    }

    constructor (c: Config<string>)
      ensures Value() == c
    {
      build, install, llvm, rust, dist, target := c.build, c.install, c.llvm, c.rust, c.dist, c.target;
    }

    /** `ok` is false where the original asserts that the profile configures no target. */
    method Merge(other: Config<string>) returns (ok: bool)
      modifies this
      ensures ok == !other.target
      ensures target == old(target)
      ensures forall s :: s in MERGED ==> Field(Value(), s) == DoMerge(Field(old(Value()), s), Field(other, s))
    {
      build := DoMerge(build, other.build);
      install := DoMerge(install, other.install);
      llvm := DoMerge(llvm, other.llvm);
      rust := DoMerge(rust, other.rust);
      dist := DoMerge(dist, other.dist);
      ok := !other.target;
    }
  }

  /** `config.rs` goes on: it accepts both files, and the profile configures no target. */
  predicate Accepts<V>(user: seq<Reading<V>>, profile: seq<Reading<V>>) {
    Parse(user).Some? && Parse(profile).Some? && !FromToml(Parse(profile).value).target
  }

  /** What `config.rs` has for a key after the merge. */
  function RustValue<V>(user: Toml<V>, profile: Toml<V>, section: string, key: string): Option<V>
    requires section in MERGED
  {
    Lookup(DoMerge(Field(FromToml(user), section), Field(FromToml(profile), section)), key)
  }

  lemma MergeLookup<V>(x: Option<Table<V>>, y: Option<Table<V>>, key: string)
    ensures Lookup(DoMerge(x, y), key) == OrElse(Lookup(x, key), Lookup(y, key))
  {
  }

  /** The user's section first, then the profile's. */
  lemma RustFinds<V>(user: Toml<V>, profile: Toml<V>, section: string, key: string)
    requires section in MERGED
    ensures RustValue(user, profile, section, key) ==
            OrElse(Lookup(Section(user, section), key), Lookup(Section(profile, section), key))
  {
    assert Field(FromToml(user), section) == Section(user, section);
    assert Field(FromToml(profile), section) == Section(profile, section);
    MergeLookup(Section(user, section), Section(profile, section), key);
  }

  // ------------------------------------------------------------------ what an accepted file is

  /** On one accepted file, the first match is what is found under the section's header. */
  lemma {:induction false} SearchIsLookup<V>(lines: seq<Reading<V>>, key: string, section: string)
    requires Parse(lines).Some?
    ensures var t := Parse(lines).value;
            && (t.cur.Some? ==> t.cur.value in t.tables)
            && SectionAfter(lines, None) == t.cur
            && Search(lines, None, key, Some(section)) == Lookup(UnderHeader(t, section), key)
    decreases |lines|
  {
    if lines != [] {
      var front, x := lines[..|lines| - 1], lines[|lines| - 1];
      SearchIsLookup(front, key, section);
      SearchConcat(front, [x], None, key, Some(section));
      assert lines == front + [x];
      assert [x][1..] == [];
    }
  }

  /** A section has a header or is given inline, not both; and nothing else stands at the top. */
  lemma {:induction false} TopOnly<V>(lines: seq<Reading<V>>)
    requires Parse(lines).Some?
    ensures var t := Parse(lines).value;
            && (forall k :: k in t.top ==> TopAllowed(k, t.top[k]))
            && (forall name :: name in t.tables ==> Owner(name).Some? && Owner(name).value !in t.top)
            && (forall k :: k in t.top ==> k !in t.tables)
            && (t.cur.None? ==> t.tables == map[])
    decreases |lines|
  {
    if lines != [] {
      TopOnly(lines[..|lines| - 1]);
      var t := Parse(lines).value;
      forall k | k in t.top ensures k !in t.tables { OwnersOfNames(k, t.top[k]); }
    }
  }

  lemma OwnersOfNames<V>(key: string, value: Value<V>)
    requires TopAllowed(key, value)
    ensures Owner(key).Some? ==> Owner(key).value == key
  {
    TargetsApart(key);
  }

  lemma TargetsApart(key: string)
    ensures "target." <= key ==> key !in SETTINGS && key !in MERGED && key != "target"
  {
    if "target." <= key {
      assert key[0] == 't' && key[6] == '.';
      assert "profile"[0] != 't' && "changelog-seen"[0] != 't';
    }
  }

  /** Starting inside a section only matters for the keys before the first header. */
  lemma {:induction false} SearchInside<V>(lines: seq<Reading<V>>, cur: string, key: string, section: string)
    requires Parse(lines).Some?
    ensures SectionAfter(lines, Some(cur)) == OrElse(Parse(lines).value.cur, Some(cur))
    ensures Search(lines, Some(cur), key, Some(section)) ==
            if section == cur && key in Parse(lines).value.top then Some(Text(Parse(lines).value.top[key]))
            else Lookup(UnderHeader(Parse(lines).value, section), key)
    decreases |lines|
  {
    if lines != [] {
      var front, x := lines[..|lines| - 1], lines[|lines| - 1];
      SearchInside(front, cur, key, section);
      SearchIsLookup(front, key, section);
      TopOnly(front);
      SearchConcat(front, [x], Some(cur), key, Some(section));
      assert lines == front + [x];
      assert [x][1..] == [];
    }
  }

  /** A file that opens with a header has nothing at the top. */
  lemma {:induction false} HeaderFirst<V>(profile: seq<Reading<V>>)
    requires Parse(profile).Some?
    requires forall i :: 0 <= i < |profile| && profile[i].Pair? ==> exists j :: 0 <= j < i && profile[j].Header?
    ensures Parse(profile).value.top == map[]
    ensures Parse(profile).value.cur.Some? <==> exists j :: 0 <= j < |profile| && profile[j].Header?
    decreases |profile|
  {
    if profile != [] {
      var n := |profile| - 1;
      forall i | 0 <= i < n && profile[..n][i].Pair? ensures exists j :: 0 <= j < i && profile[..n][j].Header? {
        assert profile[i].Pair?;
        var j :| 0 <= j < i && profile[j].Header?;
        assert profile[..n][j].Header?;
      }
      HeaderFirst(profile[..n]);
      if profile[n].Pair? {
        var j :| 0 <= j < n && profile[j].Header?;
        assert profile[..n][j].Header?;
      }
    }
  }

  // ------------------------------------------------------------------ which files are accepted

  /** The line of the header in force after some lines. */
  function LastHeader<V>(lines: seq<Reading<V>>): Option<nat> {
    if lines == [] then None
    else if lines[|lines| - 1].Header? then Some(|lines| - 1)
    else LastHeader(lines[..|lines| - 1])
  }

  /** Line `j` sets `key`. */
  predicate SetsAt<V>(lines: seq<Reading<V>>, j: nat, key: string) {
    j < |lines| && lines[j].Pair? && lines[j].key == key
  }

  /** Line `j` stands above the first header. */
  predicate AtTop<V>(lines: seq<Reading<V>>, j: nat) {
    j <= |lines| && LastHeader(lines[..j]).None?
  }

  /** What may stand above the first header: sections given inline, and two settings. */
  ghost predicate AllowedThere<V>(key: string, value: Value<V>) {
    if value.Inline? then key in {"build", "install", "llvm", "rust", "dist", "target"}
    else key in {"changelog-seen", "profile"}
  }

  lemma OwnerIs(name: string)
    ensures Owner(name).Some? <==>
            name in {"build", "install", "llvm", "rust", "dist", "target", "llvm.build-config"} || "target." <= name
    ensures Owner(name).Some? ==> Owner(name).value == if "target." <= name then "target" else name
  {
    TargetsApart(name);
  }

  /** A line is acceptable after those before it: a header is known, new, and its section has not
      been given inline; an entry at the top is allowed there and new; an entry of a section has
      not been given since its header. */
  ghost predicate LineOk<V>(lines: seq<Reading<V>>, i: nat)
    requires i < |lines|
  {
    match lines[i]
    case Header(name) =>
      && (name in {"build", "install", "llvm", "rust", "dist", "target", "llvm.build-config"} || "target." <= name)
      && (forall j :: 0 <= j < i ==> lines[j] != Header(name))
      && (forall j :: 0 <= j < i && AtTop(lines, j) ==> !SetsAt(lines, j, if "target." <= name then "target" else name))
    case Pair(k, v) =>
      if AtTop(lines, i) then AllowedThere(k, v) && forall j :: 0 <= j < i ==> !SetsAt(lines, j, k)
      else forall j :: LastHeader(lines[..i]).value < j < i ==> !SetsAt(lines, j, k)
    case Other => true
  }

  /** What a parsed file holds, in terms of its lines. */
  ghost predicate Holds<V>(t: Toml<V>, lines: seq<Reading<V>>) {
    var h := LastHeader(lines);
    && (forall k :: k in t.top <==> exists j :: 0 <= j < |lines| && AtTop(lines, j) && SetsAt(lines, j, k))
    && (forall name :: name in t.tables <==> exists j :: 0 <= j < |lines| && lines[j] == Header(name))
    && (h.None? <==> t.cur.None?)
    && (h.Some? ==>
          && h.value < |lines| && lines[h.value] == Header(t.cur.value) && t.cur.value in t.tables
          && forall k :: k in t.tables[t.cur.value] <==> exists j :: h.value < j < |lines| && SetsAt(lines, j, k))
  }

  lemma PrefixTops<V>(front: seq<Reading<V>>, x: Reading<V>)
    ensures forall j :: 0 <= j <= |front| ==> (AtTop(front + [x], j) <==> AtTop(front, j))
    ensures forall j, k :: 0 <= j < |front| ==> (SetsAt(front + [x], j, k) <==> SetsAt(front, j, k))
  {
    forall j | 0 <= j <= |front| ensures (front + [x])[..j] == front[..j] { }
  }

  lemma {:induction false} HeaderBelow<V>(lines: seq<Reading<V>>)
    ensures LastHeader(lines).Some? ==> LastHeader(lines).value < |lines| && lines[LastHeader(lines).value].Header?
    ensures LastHeader(lines).None? ==> forall j :: 0 <= j <= |lines| ==> AtTop(lines, j)
    decreases |lines|
  {
    if lines == [] {
      assert lines[..0] == [];
    } else {
      var front, x := lines[..|lines| - 1], lines[|lines| - 1];
      HeaderBelow(front);
      assert lines == front + [x] && lines[..|lines|] == lines;
      PrefixTops(front, x);
    }
  }

  lemma HoldsHeader<V>(t: Toml<V>, front: seq<Reading<V>>, name: string)
    requires Holds(t, front) && ParseLine(t, Header(name)).Some?
    ensures Holds(ParseLine(t, Header(name)).value, front + [Header(name)])
  {
    var x: Reading<V> := Header(name);
    var lines := front + [x];
    PrefixTops(front, x);
    assert lines[|front|] == x && LastHeader(lines) == Some(|front|);
    forall n ensures n in t.tables || n == name <==> exists j :: 0 <= j < |lines| && lines[j] == Header(n) {
      if j :| 0 <= j < |front| && front[j] == Header(n) { assert lines[j] == Header(n); }
    }
    forall k ensures k in t.top <==> exists j :: 0 <= j < |lines| && AtTop(lines, j) && SetsAt(lines, j, k) {
      if j :| 0 <= j < |front| && AtTop(front, j) && SetsAt(front, j, k) { assert AtTop(lines, j) && SetsAt(lines, j, k); }
      if j :| 0 <= j < |lines| && AtTop(lines, j) && SetsAt(lines, j, k) { assert AtTop(front, j) && SetsAt(front, j, k); }
    }
  }

  lemma HoldsTop<V>(t: Toml<V>, front: seq<Reading<V>>, k: string, v: Value<V>)
    requires Holds(t, front) && t.cur.None? && ParseLine(t, Pair(k, v)).Some?
    ensures Holds(ParseLine(t, Pair(k, v)).value, front + [Pair(k, v)])
  {
    var x := Pair(k, v);
    var lines := front + [x];
    PrefixTops(front, x);
    HeaderBelow(front);
    assert lines[..|front|] == front && LastHeader(lines) == None && AtTop(lines, |front|) && SetsAt(lines, |front|, k);
    forall n ensures n in t.tables <==> exists j :: 0 <= j < |lines| && lines[j] == Header(n) {
      if j :| 0 <= j < |front| && front[j] == Header(n) { assert lines[j] == Header(n); }
    }
    forall n ensures n in t.top || n == k <==> exists j :: 0 <= j < |lines| && AtTop(lines, j) && SetsAt(lines, j, n) {
      if j :| 0 <= j < |front| && AtTop(front, j) && SetsAt(front, j, n) { assert AtTop(lines, j) && SetsAt(lines, j, n); }
      if j :| 0 <= j < |front| && AtTop(lines, j) && SetsAt(lines, j, n) { assert AtTop(front, j) && SetsAt(front, j, n); }
    }
  }

  lemma HoldsEntry<V>(t: Toml<V>, front: seq<Reading<V>>, x: Reading<V>)
    requires Holds(t, front) && ParseLine(t, x).Some? && (x.Other? || (x.Pair? && t.cur.Some?))
    ensures Holds(ParseLine(t, x).value, front + [x])
  {
    var lines := front + [x];
    PrefixTops(front, x);
    HeaderBelow(front);
    assert lines[..|front|] == front && LastHeader(lines) == LastHeader(front);
    forall n ensures n in t.tables <==> exists j :: 0 <= j < |lines| && lines[j] == Header(n) {
      if j :| 0 <= j < |front| && front[j] == Header(n) { assert lines[j] == Header(n); }
    }
    forall n ensures n in t.top <==> exists j :: 0 <= j < |lines| && AtTop(lines, j) && SetsAt(lines, j, n) {
      if j :| 0 <= j < |front| && AtTop(front, j) && SetsAt(front, j, n) { assert AtTop(lines, j) && SetsAt(lines, j, n); }
      if j :| 0 <= j < |front| && AtTop(lines, j) && SetsAt(lines, j, n) { assert AtTop(front, j) && SetsAt(front, j, n); }
    }
    if t.cur.Some? {
      var h := LastHeader(front).value;
      forall n ensures n in t.tables[t.cur.value] || (x.Pair? && n == x.key) <==> exists j :: h < j < |lines| && SetsAt(lines, j, n) {
        if j :| h < j < |front| && SetsAt(front, j, n) { assert SetsAt(lines, j, n); }
        if x.Pair? && n == x.key { assert SetsAt(lines, |front|, n); }
      }
    }
  }

  lemma {:induction false} ParseHolds<V>(lines: seq<Reading<V>>)
    requires Parse(lines).Some?
    ensures Holds(Parse(lines).value, lines)
    decreases |lines|
  {
    if lines != [] {
      var front, x := lines[..|lines| - 1], lines[|lines| - 1];
      ParseHolds(front);
      assert lines == front + [x];
      if x.Header? {
        HoldsHeader(Parse(front).value, front, x.name);
      } else if x.Pair? && Parse(front).value.cur.None? {
        HoldsTop(Parse(front).value, front, x.key, x.value);
      } else {
        HoldsEntry(Parse(front).value, front, x);
      }
    }
  }

  /** The last line of a file is accepted after the others exactly when it is acceptable. */
  lemma NextOk<V>(t: Toml<V>, front: seq<Reading<V>>, x: Reading<V>)
    requires Holds(t, front)
    ensures ParseLine(t, x).Some? <==> LineOk(front + [x], |front|)
  {
    var lines := front + [x];
    PrefixTops(front, x);
    HeaderBelow(front);
    if x.Header? { OwnerIs(x.name); }
    assert lines[..|front|] == front && lines[|front|] == x;
    assert forall j :: 0 <= j < |front| ==> lines[j] == front[j];
  }

  lemma LineOkStill<V>(front: seq<Reading<V>>, x: Reading<V>, i: nat)
    requires i < |front|
    ensures LineOk(front + [x], i) <==> LineOk(front, i)
  {
    PrefixTops(front, x);
    assert (front + [x])[..i] == front[..i];
    HeaderBelow(front[..i]);
  }

  /** A file is accepted exactly when every line of it is acceptable after those before it. */
  lemma {:induction false} AcceptedExactly<V>(lines: seq<Reading<V>>)
    ensures Parse(lines).Some? <==> forall i :: 0 <= i < |lines| ==> LineOk(lines, i)
    decreases |lines|
  {
    if lines != [] {
      var front, x := lines[..|lines| - 1], lines[|lines| - 1];
      AcceptedExactly(front);
      assert lines == front + [x];
      forall i | 0 <= i < |front| ensures LineOk(lines, i) <==> LineOk(front, i) { LineOkStill(front, x, i); }
      if Parse(front).Some? {
        ParseHolds(front);
        NextOk(Parse(front).value, front, x);
      }
    }
  }

  /** A file configures a target exactly when it has a header for one, or one at the top. */
  lemma TargetExactly<V>(lines: seq<Reading<V>>)
    requires Parse(lines).Some?
    ensures FromToml(Parse(lines).value).target <==>
            || (exists j :: 0 <= j < |lines| && lines[j].Header? && (lines[j].name == "target" || "target." <= lines[j].name))
            || (exists j :: 0 <= j < |lines| && AtTop(lines, j) && SetsAt(lines, j, "target"))
  {
    ParseHolds(lines);
    var t := Parse(lines).value;
    forall j | 0 <= j < |lines| && lines[j].Header? ensures lines[j].name in t.tables { assert lines[j] == Header(lines[j].name); }
  }
}
