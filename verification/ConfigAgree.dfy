/** "The user's config.toml overrides the profile's defaults", twice: `bootstrap.py` appends the
    profile's text and takes the first match; `config.rs` parses both files and merges structs.
    When do the two agree? */
module ConfigAgree {
  import opened Wrappers
  import opened ConfigLines
  import opened ConfigMerge

  // ------------------------------------------------------------------ the two readers

  /** What `bootstrap.py` finds for a key of a section when a profile is included. */
  function PythonValue<V>(user: seq<Reading<V>>, profile: seq<Reading<V>>, section: string, key: string): Option<V> {
    Search(user + profile, None, key, Some(section))
  }

  /** What `config.rs` finds, if it accepts both files. */
  function MergedValue<V>(user: seq<Reading<V>>, profile: seq<Reading<V>>, section: string, key: string): Option<V>
    requires section in MERGED
  {
    if Parse(user).None? || Parse(profile).None? then None
    else RustValue(Parse(user).value, Parse(profile).value, section, key)
  }

  // ------------------------------------------------------------------ where they part

  /** A profile entry above its first header that, for Python, falls into the section in which
      the user's file ends. */
  function Stray<V>(user: Toml<V>, profile: Toml<V>, section: string, key: string): Option<V> {
    if user.cur == Some(section) && key in profile.top then Some(Text(profile.top[key])) else None
  }

  /** The user sets the key in an inline table, which Python does not look into. */
  predicate UserInline<V>(user: Toml<V>, section: string, key: string) {
    Lookup(InlineAt(user, section), key).Some?
  }

  /** The user does not set the key, and a stray entry stands in for the profile's. */
  predicate Strays<V>(user: Toml<V>, profile: Toml<V>, section: string, key: string) {
    Lookup(Section(user, section), key).None? && Stray(user, profile, section, key).Some?
  }

  /** Nobody sets the key but the profile, in an inline table. */
  predicate ProfileInline<V>(user: Toml<V>, profile: Toml<V>, section: string, key: string) {
    && Lookup(Section(user, section), key).None?
    && Stray(user, profile, section, key).None?
    && Lookup(InlineAt(profile, section), key).Some?
  }

  /** None of the three. */
  predicate Straight<V>(user: Toml<V>, profile: Toml<V>, section: string, key: string) {
    !UserInline(user, section, key) && !Strays(user, profile, section, key) && !ProfileInline(user, profile, section, key)
  }

  lemma OneForm<V>(lines: seq<Reading<V>>, section: string)
    requires Parse(lines).Some?
    ensures UnderHeader(Parse(lines).value, section).None? || InlineAt(Parse(lines).value, section).None?
  {
    TopOnly(lines);
  }

  /** What Python finds in two accepted files whose lines it reads as TOML does. */
  lemma PythonFinds<V>(user: seq<Reading<V>>, profile: seq<Reading<V>>, section: string, key: string)
    requires Parse(user).Some? && Parse(profile).Some?
    ensures var u, p := Parse(user).value, Parse(profile).value;
            PythonValue(user, profile, section, key) ==
            OrElse(Lookup(UnderHeader(u, section), key),
                   OrElse(Stray(u, p, section, key), Lookup(UnderHeader(p, section), key)))
  {
    SearchIsLookup(user, key, section);
    SearchConcat(user, profile, None, key, Some(section));
    match Parse(user).value.cur
    case None => SearchIsLookup(profile, key, section);
    case Some(cur) => SearchInside(profile, cur, key, section);
  }

  lemma StraightAgree<V>(user: seq<Reading<V>>, profile: seq<Reading<V>>, section: string, key: string)
    requires Parse(user).Some? && Parse(profile).Some? && section in MERGED
    requires Straight(Parse(user).value, Parse(profile).value, section, key)
    ensures PythonValue(user, profile, section, key) == MergedValue(user, profile, section, key)
  {
    PythonFinds(user, profile, section, key);
    RustFinds(Parse(user).value, Parse(profile).value, section, key);
    OneForm(user, section);
    OneForm(profile, section);
  }

  // ------------------------------------------------------------------ the same file with other values

  function MapValue<V, W>(f: V -> W, v: Value<V>): Value<W> {
    match v
    case Plain(value) => Plain(f(value))
    case Inline(text, entries) => Inline(f(text), MapTable(f, entries))
  }

  function MapTable<V, W>(f: V -> W, t: map<string, V>): map<string, W> {
    map k | k in t :: f(t[k])
  }

  function MapReading<V, W>(f: V -> W, r: Reading<V>): Reading<W> {
    match r
    case Header(name) => Header(name)
    case Pair(key, value) => Pair(key, MapValue(f, value))
    case Other => Other
  }

  function MapAll<V, W>(f: V -> W, lines: seq<Reading<V>>): seq<Reading<W>> {
    seq(|lines|, i requires 0 <= i < |lines| => MapReading(f, lines[i]))
  }

  function MapOption<V, W>(f: V -> W, o: Option<V>): Option<W> {
    if o.Some? then Some(f(o.value)) else None
  }

  function MapTables<V, W>(f: V -> W, tables: map<string, map<string, V>>): map<string, map<string, W>> {
    map s | s in tables :: MapTable(f, tables[s])
  }

  function MapToml<V, W>(f: V -> W, t: Toml<V>): Toml<W> {
    Toml(map k | k in t.top :: MapValue(f, t.top[k]), MapTables(f, t.tables), t.cur)
  }

  /** Searching does not look at values. */
  lemma {:induction false} SearchMap<V, W>(
    f: V -> W, lines: seq<Reading<V>>, cur: Option<string>, key: string, section: Option<string>)
    ensures Search(MapAll(f, lines), cur, key, section) == MapOption(f, Search(lines, cur, key, section))
    decreases |lines|
  {
    if lines != [] {
      assert MapAll(f, lines)[1..] == MapAll(f, lines[1..]);
      SearchMap(f, lines[1..], if lines[0].Header? then Some(lines[0].name) else cur, key, section);
    }
  }

  lemma ParseLineMap<V, W>(f: V -> W, t: Toml<V>, line: Reading<V>)
    ensures ParseLine(MapToml(f, t), MapReading(f, line)) == MapOption(x => MapToml(f, x), ParseLine(t, line))
  {
    if ParseLine(t, line).Some? {
      match line
      case Header(name) => TablesMap(f, t.tables, name, map[]);
      case Pair(k, v) =>
        if t.cur.None? {
          assert MapToml(f, t.(top := t.top[k := v])).top == MapToml(f, t).top[k := MapValue(f, v)];
        } else {
          var table := t.tables[t.cur.value];
          TablesMap(f, t.tables, t.cur.value, table[k := Text(v)]);
          assert MapTable(f, table[k := Text(v)]) == MapTable(f, table)[k := f(Text(v))];
        }
      case Other =>
    }
  }

  lemma TablesMap<V, W>(f: V -> W, tables: map<string, map<string, V>>, name: string, table: map<string, V>)
    ensures MapTables(f, tables[name := table]) == MapTables(f, tables)[name := MapTable(f, table)]
  {
  }

  /** Nor does parsing. */
  lemma {:induction false} ParseMap<V, W>(f: V -> W, lines: seq<Reading<V>>)
    ensures Parse(MapAll(f, lines)) == MapOption(x => MapToml(f, x), Parse(lines))
    decreases |lines|
  {
    if lines == [] {
      assert MapToml<V, W>(f, Toml(map[], map[], None)) == Toml(map[], map[], None);
    } else {
      var front, last := lines[..|lines| - 1], lines[|lines| - 1];
      assert MapAll(f, lines)[..|lines| - 1] == MapAll(f, front);
      ParseMap(f, front);
      if Parse(front).Some? { ParseLineMap(f, Parse(front).value, last); }
    }
  }

  lemma LookupMap<V, W>(f: V -> W, t: Toml<V>, section: string, key: string)
    ensures Lookup(UnderHeader(MapToml(f, t), section), key) == MapOption(f, Lookup(UnderHeader(t, section), key))
    ensures Lookup(InlineAt(MapToml(f, t), section), key) == MapOption(f, Lookup(InlineAt(t, section), key))
    ensures Lookup(Section(MapToml(f, t), section), key) == MapOption(f, Lookup(Section(t, section), key))
  {
  }

  lemma MergedMap<V, W>(f: V -> W, user: seq<Reading<V>>, profile: seq<Reading<V>>, section: string, key: string)
    requires section in MERGED
    ensures MergedValue(MapAll(f, user), MapAll(f, profile), section, key)
         == MapOption(f, MergedValue(user, profile, section, key))
  {
    ParseMap(f, user);
    ParseMap(f, profile);
    if Parse(user).Some? && Parse(profile).Some? {
      var u, p := Parse(user).value, Parse(profile).value;
      RustFinds(u, p, section, key);
      RustFinds(MapToml(f, u), MapToml(f, p), section, key);
      LookupMap(f, u, section, key);
      LookupMap(f, p, section, key);
    }
  }

  lemma PythonMap<V, W>(f: V -> W, user: seq<Reading<V>>, profile: seq<Reading<V>>, section: string, key: string)
    ensures PythonValue(MapAll(f, user), MapAll(f, profile), section, key)
         == MapOption(f, PythonValue(user, profile, section, key))
  {
    assert MapAll(f, user) + MapAll(f, profile) == MapAll(f, user + profile);
    SearchMap(f, user + profile, None, key, Some(section));
  }

  /** Nor does it matter to the three cases. */
  lemma StraightMap<V, W>(f: V -> W, u: Toml<V>, p: Toml<V>, section: string, key: string)
    ensures Straight(MapToml(f, u), MapToml(f, p), section, key) <==> Straight(u, p, section, key)
  {
    LookupMap(f, u, section, key);
    LookupMap(f, p, section, key);
  }

  // ------------------------------------------------------------------ values named by their place

  /** A value named by its place: the value of a line of the user's file (0) or the profile (1);
      an entry of an inline table there; and what Python makes of the value of a line that it
      reads unlike TOML. */
  datatype Place = AtLine(file: nat, line: nat) | InEntry(file: nat, line: nat, key: string) | Misread(file: nat, line: nat)

  function PlaceValue<V>(v: Value<V>, file: nat, line: nat): Value<Place> {
    match v
    case Plain(_) => Plain(AtLine(file, line))
    case Inline(_, entries) => Inline(AtLine(file, line), map k | k in entries :: InEntry(file, line, k))
  }

  function PlaceReading<V>(r: Reading<V>, file: nat, line: nat): Reading<Place> {
    match r
    case Header(name) => Header(name)
    case Pair(key, value) => Pair(key, PlaceValue(value, file, line))
    case Other => Other
  }

  /** A file with every value replaced by its place. */
  function Places<V>(lines: seq<Reading<V>>, file: nat): seq<Reading<Place>> {
    seq(|lines|, i requires 0 <= i < |lines| => PlaceReading(lines[i], file, i))
  }

  /** The lines whose values Python reads unlike TOML. */
  datatype Unlike = Unlike(user: set<nat>, profile: set<nat>)

  predicate IsUnlike(x: Unlike, at: Place) {
    at.AtLine? && at.line in if at.file == 0 then x.user else x.profile
  }

  function Misreading(x: Unlike): Place -> Place {
    (at: Place) => if IsUnlike(x, at) then Misread(at.file, at.line) else at
  }

  /** The values of the file itself, by place. */
  function ValueAt<V>(lines: seq<Reading<V>>, at: Place, default: V): V {
    if at.line < |lines| && lines[at.line].Pair? then
      var v := lines[at.line].value;
      if at.InEntry? then (if v.Inline? && at.key in v.entries then v.entries[at.key] else default) else Text(v)
    else default
  }

  function ValuesOf(user: seq<Reading<string>>, profile: seq<Reading<string>>): Place -> string {
    (at: Place) => ValueAt(if at.file == 0 then user else profile, at, "")
  }

  /** The files themselves are among those with the same places. */
  lemma PlacesRead(user: seq<Reading<string>>, profile: seq<Reading<string>>)
    ensures MapAll(ValuesOf(user, profile), Places(user, 0)) == user
    ensures MapAll(ValuesOf(user, profile), Places(profile, 1)) == profile
  {
    forall i | 0 <= i < |user| ensures MapReading(ValuesOf(user, profile), Places(user, 0)[i]) == user[i] {
      ReadingRead(user, 0, i, ValuesOf(user, profile));
    }
    forall i | 0 <= i < |profile| ensures MapReading(ValuesOf(user, profile), Places(profile, 1)[i]) == profile[i] {
      ReadingRead(profile, 1, i, ValuesOf(user, profile));
    }
  }

  lemma ReadingRead(lines: seq<Reading<string>>, file: nat, i: nat, f: Place -> string)
    requires i < |lines| && forall at: Place :: at.file == file ==> f(at) == ValueAt(lines, at, "")
    ensures MapReading(f, PlaceReading(lines[i], file, i)) == lines[i]
  {
    if lines[i].Pair? && lines[i].value.Inline? {
      var entries := lines[i].value.entries;
      assert MapTable(f, map k | k in entries :: InEntry(file, i, k)) == entries;
    }
  }

  // ------------------------------------------------------------------ where places stand

  /** All values of a file stand on its first `n` lines, those above the first header on other
      lines than those below. */
  ghost predicate Placed(t: Toml<Place>, file: nat, n: nat) {
    && (forall k :: k in t.top ==> Text(t.top[k]).AtLine? && Text(t.top[k]).file == file && Text(t.top[k]).line < n)
    && (forall k, e :: k in t.top && t.top[k].Inline? && e in t.top[k].entries ==>
          t.top[k].entries[e].InEntry? && t.top[k].entries[e].file == file)
    && (forall s, k :: s in t.tables && k in t.tables[s] ==>
          t.tables[s][k].AtLine? && t.tables[s][k].file == file && t.tables[s][k].line < n)
    && (forall j, s, k :: j in t.top && s in t.tables && k in t.tables[s] ==> Text(t.top[j]) != t.tables[s][k])
  }

  lemma PlacedNext<V>(t: Toml<Place>, file: nat, n: nat, r: Reading<V>)
    requires Placed(t, file, n) && ParseLine(t, PlaceReading(r, file, n)).Some?
    ensures Placed(ParseLine(t, PlaceReading(r, file, n)).value, file, n + 1)
  {
  }

  lemma {:induction false} ParsePlaced<V>(lines: seq<Reading<V>>, file: nat)
    requires Parse(Places(lines, file)).Some?
    ensures Placed(Parse(Places(lines, file)).value, file, |lines|)
    decreases |lines|
  {
    if lines != [] {
      var n := |lines| - 1;
      assert Places(lines, file)[..n] == Places(lines[..n], file);
      ParsePlaced(lines[..n], file);
      PlacedNext(Parse(Places(lines[..n], file)).value, file, n, lines[n]);
    }
  }

  /** On places, the readers agree only if none of the three cases holds. */
  lemma OnlyStraight(u: Toml<Place>, p: Toml<Place>, m: nat, n: nat, section: string, key: string)
    requires Placed(u, 0, m) && Placed(p, 1, n)
    requires UnderHeader(u, section).None? || InlineAt(u, section).None?
    requires UnderHeader(p, section).None? || InlineAt(p, section).None?
    requires OrElse(Lookup(UnderHeader(u, section), key),
                    OrElse(Stray(u, p, section, key), Lookup(UnderHeader(p, section), key)))
          == OrElse(Lookup(Section(u, section), key), Lookup(Section(p, section), key))
    ensures Straight(u, p, section, key)
  {
  }

  // ------------------------------------------------------------------ main results

  /** Whatever the values are: the readers agree on all files that differ from these in nothing
      but values.  `seenUser` and `seenProfile` are what Python makes of the lines; where it takes
      a value to be another than TOML does, that other is arbitrary too. */
  ghost predicate AgreeWhatever(
    user: seq<Reading<string>>, profile: seq<Reading<string>>,
    seenUser: seq<Reading<Place>>, seenProfile: seq<Reading<Place>>, section: string, key: string)
    requires section in MERGED
  {
    forall f: Place -> string ::
      PythonValue(MapAll(f, seenUser), MapAll(f, seenProfile), section, key)
      == MergedValue(MapAll(f, Places(user, 0)), MapAll(f, Places(profile, 1)), section, key)
  }

  /** The place from which `config.rs` takes the value. */
  function Source(user: seq<Reading<string>>, profile: seq<Reading<string>>, section: string, key: string): Option<Place>
    requires section in MERGED
  {
    MergedValue(Places(user, 0), Places(profile, 1), section, key)
  }

  /** If the two take the value from different places, some values tell them apart. */
  lemma WhateverMeansSame(a: Option<Place>, b: Option<Place>)
    requires a != b
    ensures exists f: Place -> string :: MapOption(f, a) != MapOption(f, b)
  {
    var f: Place -> string := at => if Some(at) == a then "a" else "b";
    assert MapOption(f, a) != MapOption(f, b);
  }

  /** Whatever Python makes of the lines, the readers agree whatever the values exactly when they
      take the value from the same place. */
  lemma WhateverExactly(
    user: seq<Reading<string>>, profile: seq<Reading<string>>,
    seenUser: seq<Reading<Place>>, seenProfile: seq<Reading<Place>>, section: string, key: string)
    requires section in MERGED
    ensures AgreeWhatever(user, profile, seenUser, seenProfile, section, key)
       <==> PythonValue(seenUser, seenProfile, section, key) == Source(user, profile, section, key)
  {
    var us, ps := Places(user, 0), Places(profile, 1);
    var a, b := PythonValue(seenUser, seenProfile, section, key), Source(user, profile, section, key);
    forall f: Place -> string
      ensures PythonValue(MapAll(f, seenUser), MapAll(f, seenProfile), section, key) == MapOption(f, a)
      ensures MergedValue(MapAll(f, us), MapAll(f, ps), section, key) == MapOption(f, b)
    {
      PythonMap(f, seenUser, seenProfile, section, key);
      MergedMap(f, us, ps, section, key);
    }
    if a != b {
      WhateverMeansSame(a, b);
    }
  }

  /** What Python makes of a file whose headers and keys it recognises, but for the values of
      some lines. */
  function Seen(lines: seq<Reading<string>>, file: nat, x: Unlike): seq<Reading<Place>> {
    MapAll(Misreading(x), Places(lines, file))
  }

  /** For any two files that `config.rs` accepts, of whose lines Python recognises the headers and
      keys as TOML does, every section that is merged and every key: the readers agree, whatever
      the values, exactly when the key is in none of the three cases, and the value that
      `config.rs` takes does not stand on a line whose value Python reads unlike. */
  lemma AgreeExactly(user: seq<Reading<string>>, profile: seq<Reading<string>>, x: Unlike, section: string, key: string)
    requires Accepts(user, profile) && section in MERGED
    ensures AgreeWhatever(user, profile, Seen(user, 0, x), Seen(profile, 1, x), section, key) <==>
            && Straight(Parse(user).value, Parse(profile).value, section, key)
            && (Source(user, profile, section, key).Some? ==> !IsUnlike(x, Source(user, profile, section, key).value))
  {
    PlacesAccepted(user, profile, section, key);
    var us, ps := Places(user, 0), Places(profile, 1);
    var py := PythonValue(us, ps, section, key);
    PythonMap(Misreading(x), us, ps, section, key);
    WhateverExactly(user, profile, Seen(user, 0, x), Seen(profile, 1, x), section, key);
    if Straight(Parse(user).value, Parse(profile).value, section, key) {
      StraightAgree(us, ps, section, key);
    } else {
      assert py != Source(user, profile, section, key);
    }
    SourceIsNotMisread(user, profile, section, key);
  }

  /** What parsing the places shows of the files: the same three cases, and that the readers do
      not take the same place in any of them. */
  lemma PlacesAccepted(user: seq<Reading<string>>, profile: seq<Reading<string>>, section: string, key: string)
    requires Accepts(user, profile) && section in MERGED
    ensures var us, ps := Places(user, 0), Places(profile, 1);
            && Parse(us).Some? && Parse(ps).Some?
            && (Straight(Parse(us).value, Parse(ps).value, section, key)
                <==> Straight(Parse(user).value, Parse(profile).value, section, key))
            && (PythonValue(us, ps, section, key) == MergedValue(us, ps, section, key)
                ==> Straight(Parse(us).value, Parse(ps).value, section, key))
  {
    var f := ValuesOf(user, profile);
    var us, ps := Places(user, 0), Places(profile, 1);
    PlacesRead(user, profile);
    ParseMap(f, us);
    ParseMap(f, ps);
    var u, p := Parse(us).value, Parse(ps).value;
    StraightMap(f, u, p, section, key);
    ParsePlaced(user, 0);
    ParsePlaced(profile, 1);
    OneForm(us, section);
    OneForm(ps, section);
    PythonFinds(us, ps, section, key);
    RustFinds(u, p, section, key);
    if PythonValue(us, ps, section, key) == MergedValue(us, ps, section, key) {
      OnlyStraight(u, p, |user|, |profile|, section, key);
    }
  }

  lemma SourceIsNotMisread(user: seq<Reading<string>>, profile: seq<Reading<string>>, section: string, key: string)
    requires Accepts(user, profile) && section in MERGED
    ensures Source(user, profile, section, key).Some? ==> !Source(user, profile, section, key).value.Misread?
  {
    PlacesAccepted(user, profile, section, key);
    var us, ps := Places(user, 0), Places(profile, 1);
    ParsePlaced(user, 0);
    ParsePlaced(profile, 1);
    RustFinds(Parse(us).value, Parse(ps).value, section, key);
  }

  // ------------------------------------------------------------------ actual files

  /** A line: its text, and what TOML takes it to be. */
  datatype Line = Line(raw: string, meant: Reading<string>)

  function Raw(lines: seq<Line>): seq<string> {
    seq(|lines|, i requires 0 <= i < |lines| => lines[i].raw)
  }

  function Meant(lines: seq<Line>): seq<Reading<string>> {
    seq(|lines|, i requires 0 <= i < |lines| => lines[i].meant)
  }

  /** As far as a search for `key` goes, the regular expressions read the line as TOML does. */
  predicate Alike(line: Line, key: string) {
    Sees(line.raw, key) ==
    match line.meant
    case Header(name) => Header(name)
    case Pair(k, v) => if k == key then Pair(key, Plain(Text(v))) else Other
    case Other => Other
  }

  predicate AllAlike(lines: seq<Line>, key: string) {
    forall i :: 0 <= i < |lines| ==> Alike(lines[i], key)
  }

  /** What `get_toml` returns once the profile's text has been appended. */
  function PythonText(user: seq<Line>, profile: seq<Line>, section: string, key: string): Option<string> {
    Search(SeesAll(Raw(user) + Raw(profile), key), None, key, Some(section))
  }

  lemma {:induction false} SearchAlike(lines: seq<Line>, cur: Option<string>, key: string, section: Option<string>)
    requires AllAlike(lines, key)
    ensures Search(SeesAll(Raw(lines), key), cur, key, section) == Search(Meant(lines), cur, key, section)
    decreases |lines|
  {
    if lines != [] {
      assert SeesAll(Raw(lines), key)[1..] == SeesAll(Raw(lines[1..]), key);
      assert Meant(lines)[1..] == Meant(lines[1..]);
      assert Alike(lines[0], key);
      SearchAlike(lines[1..], if lines[0].meant.Header? then Some(lines[0].meant.name) else cur, key, section);
    }
  }

  lemma AlikeValue(user: seq<Line>, profile: seq<Line>, section: string, key: string)
    requires AllAlike(user, key) && AllAlike(profile, key)
    ensures PythonText(user, profile, section, key) == PythonValue(Meant(user), Meant(profile), section, key)
  {
    SearchAlike(user + profile, None, key, Some(section));
    assert Raw(user + profile) == Raw(user) + Raw(profile) && Meant(user + profile) == Meant(user) + Meant(profile);
  }

  /** Two accepted files whose lines are read alike: the readers agree on every section that
      both files write with a header, if at all, and every key that does not stand above the
      first header of the profile; and an accepted profile has nothing there but two settings
      and inline sections. */
  lemma ReadersAgree(user: seq<Line>, profile: seq<Line>, section: string, key: string)
    requires Accepts(Meant(user), Meant(profile)) && section in MERGED && AllAlike(user, key) && AllAlike(profile, key)
    requires section !in Parse(Meant(user)).value.top && section !in Parse(Meant(profile)).value.top
    ensures key !in Parse(Meant(profile)).value.top ==>
              PythonText(user, profile, section, key) == MergedValue(Meant(user), Meant(profile), section, key)
    ensures key in Parse(Meant(profile)).value.top ==> key in SETTINGS + MERGED
  {
    AlikeValue(user, profile, section, key);
    if key !in Parse(Meant(profile)).value.top { StraightAgree(Meant(user), Meant(profile), section, key); }
    TopOnly(Meant(profile));
  }

  /** With a profile that opens with a header, as those in the repository do, they agree on every
      key of a section that the user's file does not give inline, lines being read alike. */
  lemma RepositoryProfiles(user: seq<Line>, profile: seq<Line>, section: string, key: string)
    requires Accepts(Meant(user), Meant(profile)) && section in MERGED && AllAlike(user, key) && AllAlike(profile, key)
    requires section !in Parse(Meant(user)).value.top
    requires forall i :: 0 <= i < |profile| && profile[i].meant.Pair? ==> exists j :: 0 <= j < i && profile[j].meant.Header?
    ensures PythonText(user, profile, section, key) == MergedValue(Meant(user), Meant(profile), section, key)
  {
    var meant := Meant(profile);
    forall i | 0 <= i < |meant| && meant[i].Pair? ensures exists j :: 0 <= j < i && meant[j].Header? {
      var j :| 0 <= j < i && profile[j].meant.Header?;
      assert meant[j].Header?;
    }
    HeaderFirst(meant);
    ReadersAgree(user, profile, section, key);
  }

  // ------------------------------------------------------------------ inputs on which they differ

  /** The user sets a key in an inline table: both readers accept that, Python passes over it. */
  lemma ReadersDiffer(profile: seq<Line>)
    requires Accepts([], Meant(profile)) && AllAlike(profile, "deny-warnings")
    requires "rust" !in Parse(Meant(profile)).value.top && "deny-warnings" !in Parse(Meant(profile)).value.top
    requires Lookup(UnderHeader(Parse(Meant(profile)).value, "rust"), "deny-warnings").None?
    ensures var user := [Line("rust = { deny-warnings = false }",
                              Pair("rust", Inline("{ deny-warnings = false }", map["deny-warnings" := "false"])))];
            && Accepts(Meant(user), Meant(profile)) && AllAlike(user, "deny-warnings")
            && PythonText(user, profile, "rust", "deny-warnings") == None
            && MergedValue(Meant(user), Meant(profile), "rust", "deny-warnings") == Some("false")
  {
    var raw, key := "rust = { deny-warnings = false }", "deny-warnings";
    var meant: Reading<string> := Pair("rust", Inline("{ deny-warnings = false }", map["deny-warnings" := "false"]));
    var user := [Line(raw, meant)];
    NoHeader(raw);
    assert !(key <= raw) by { assert raw[0] == 'r' && key[0] == 'd'; }
    assert Sees(raw, key) == Other;
    assert Meant(user) == [meant] && [meant][..0] == [];
    var empty: Toml<string> := Toml(map[], map[], None);
    assert Parse([meant]) == ParseLine(empty, meant);
    AlikeValue(user, profile, "rust", key);
    PythonFinds([meant], Meant(profile), "rust", key);
    RustFinds(Parse([meant]).value, Parse(Meant(profile)).value, "rust", key);
  }

  /** A file of one section with one setting. */
  function Small(header: string, line: string, section: string, key: string, value: string): seq<Line> {
    [Line(header, Header(section)), Line(line, Pair(key, Plain(value)))]
  }

  lemma SmallAccepted(header: string, line: string, section: string, key: string, value: string, profile: seq<Line>)
    requires Accepts([], Meant(profile)) && section in MERGED
    ensures var user := Small(header, line, section, key, value);
            && Accepts(Meant(user), Meant(profile))
            && MergedValue(Meant(user), Meant(profile), section, key) == Some(value)
  {
    var empty: Toml<string> := Toml(map[], map[], None);
    var meant := Meant(Small(header, line, section, key, value));
    var first: Reading<string> := Header(section);
    assert meant == [first, Pair(key, Plain(value))];
    assert meant[..1] == [first] && [first][..0] == [];
    assert Parse([first]) == ParseLine(empty, first);
    assert Parse(meant) == ParseLine(Parse([first]).value, Pair(key, Plain(value)));
    RustFinds(Parse(meant).value, Parse(Meant(profile)).value, section, key);
  }

  lemma SmallSeen(header: string, line: string, section: string, key: string, value: string, profile: seq<Line>)
    ensures SeesAll(Raw(Small(header, line, section, key, value)) + Raw(profile), key)
         == [Sees(header, key), Sees(line, key)] + SeesAll(Raw(profile), key)
  {
  }

  /** A value followed by a comment: Python takes the comment to be part of the value, whatever
      the section, the key and the profile. */
  lemma CommentMisread(section: string, key: string, value: string, comment: string, text: string, profile: seq<Line>)
    requires Accepts([], Meant(profile)) && section in MERGED && KeyName(key)
    requires text == value + " #" + comment && value != "" && !Space(value[0]) && '"' !in text && '\'' !in text
    requires comment != "" && !Space(comment[|comment| - 1])
    ensures var user := Small("[" + section + "]" + "", key + " = " + text, section, key, value);
            && Accepts(Meant(user), Meant(profile))
            && PythonText(user, profile, section, key) == Some(text)
            && MergedValue(Meant(user), Meant(profile), section, key) == Some(value) != Some(text)
  {
    assert text[0] == value[0] && text[|text| - 1] == comment[|comment| - 1] && |text| > |value|;
    SmallAccepted("[" + section + "]" + "", key + " = " + text, section, key, value, profile);
    SmallSeen("[" + section + "]" + "", key + " = " + text, section, key, value, profile);
    HeaderLine(section, "");
    SettingLine(key, text);
    FirstSetting(section, key, text, SeesAll(Raw(profile), key));
  }

  /** A header followed by a comment: Python does not see the section begin. */
  lemma HeaderNotSeen(section: string, key: string, value: string, comment: string)
    requires section in MERGED && KeyName(key) && comment != ""
    requires !Space(comment[|comment| - 1]) && comment[|comment| - 1] != ']'
    requires value != "" && !Space(value[0]) && !Space(value[|value| - 1]) && '"' !in value && '\'' !in value
    ensures var user := Small("[" + section + "]" + (" #" + comment), key + " = " + value, section, key, value);
            && Accepts(Meant(user), [])
            && PythonText(user, [], section, key) == None
            && MergedValue(Meant(user), [], section, key) == Some(value)
  {
    var header, line := "[" + section + "]" + (" #" + comment), key + " = " + value;
    var rest := " #" + comment;
    assert Meant([]) == [] && rest[|rest| - 1] == comment[|comment| - 1] && header[0] == '[';
    SmallAccepted(header, line, section, key, value, []);
    SmallSeen(header, line, section, key, value, []);
    HeaderLine(section, rest);
    NoSetting(header, key);
    SettingLine(key, value);
    OneSetting(Sees(line, key), None, key, section);
    NothingFound(Sees(header, key), Sees(line, key), key, section);
  }

  /** An indented key: Python does not see it set. */
  lemma SettingNotSeen(section: string, key: string, value: string)
    requires section in MERGED && KeyName(key)
    ensures var user := Small("[" + section + "]" + "", " " + (key + " = " + value), section, key, value);
            && Accepts(Meant(user), [])
            && PythonText(user, [], section, key) == None
            && MergedValue(Meant(user), [], section, key) == Some(value)
  {
    var header, line := "[" + section + "]" + "", " " + (key + " = " + value);
    assert Meant([]) == [];
    SmallAccepted(header, line, section, key, value, []);
    SmallSeen(header, line, section, key, value, []);
    HeaderLine(section, "");
    IndentedLine(key, value);
    OneSetting(Sees(line, key), Some(section), key, section);
    NothingFound(Sees(header, key), Sees(line, key), key, section);
  }

  lemma NothingFound(a: Reading<string>, b: Reading<string>, key: string, section: string)
    requires !a.Pair? && Search([b], if a.Header? then Some(a.name) else None, key, Some(section)) == None
    ensures Search([a, b] + SeesAll(Raw([]), key), None, key, Some(section)) == None
  {
    assert [a, b] + SeesAll(Raw([]), key) == [a, b] && [a, b][1..] == [b];
  }
}
