/** Lines of a configuration file: what a reader takes a line to be, and what the regular
    expressions of `bootstrap.py` make of its text. */
module ConfigLines {
  import opened Wrappers

  /** A value, or an inline table with its entries. */
  datatype Value<+V> = Plain(value: V) | Inline(text: V, entries: map<string, V>)

  datatype Reading<+V> = Header(name: string) | Pair(key: string, value: Value<V>) | Other

  function Text<V>(v: Value<V>): V {
    match v
    case Plain(value) => value
    case Inline(text, _) => text
  }

  function OrElse<T>(a: Option<T>, b: Option<T>): Option<T> {
    if a.Some? then a else b
  }

  // ------------------------------------------------------------------ first match wins

  /** The search of `get_toml` from a line on, `cur` being the section it is in. */
  function Search<V>(lines: seq<Reading<V>>, cur: Option<string>, key: string, section: Option<string>): Option<V> {
    if lines == [] then None
    else
      match lines[0]
      case Header(name) => Search(lines[1..], Some(name), key, section)
      case Pair(k, v) =>
        if k == key && (section.None? || section == cur) then Some(Text(v))
        else Search(lines[1..], cur, key, section)
      case Other => Search(lines[1..], cur, key, section)
  }

  /** The section in force after some lines. */
  function SectionAfter<V>(lines: seq<Reading<V>>, cur: Option<string>): Option<string> {
    if lines == [] then cur
    else SectionAfter(lines[1..], if lines[0].Header? then Some(lines[0].name) else cur)
  }

  /** Searching appended text: first the one, then the other, in the section left open. */
  lemma {:induction false} SearchConcat<V>(
    a: seq<Reading<V>>, b: seq<Reading<V>>, cur: Option<string>, key: string, section: Option<string>)
    ensures Search(a + b, cur, key, section) ==
            OrElse(Search(a, cur, key, section), Search(b, SectionAfter(a, cur), key, section))
    ensures SectionAfter(a + b, cur) == SectionAfter(b, SectionAfter(a, cur))
    decreases |a|
  {
    if a == [] {
      assert a + b == b;
    } else {
      assert (a + b)[1..] == a[1..] + b;
      SearchConcat(a[1..], b, if a[0].Header? then Some(a[0].name) else cur, key, section);
    }
  }

  // ------------------------------------------------------------------ regular expressions

  predicate Space(ch: char) {
    ch == ' ' || '\t' <= ch <= '\r'
  }

  function StripLeft(s: string): string {
    if s != "" && Space(s[0]) then StripLeft(s[1..]) else s
  }

  function StripRight(s: string): string {
    if s != "" && Space(s[|s| - 1]) then StripRight(s[..|s| - 1]) else s
  }

  function Strip(s: string): string {
    StripRight(StripLeft(s))
  }

  /** `^\s*\[(.*)\]\s*$` */
  function HeaderName(line: string): Option<string> {
    var s := Strip(line);
    if |s| >= 2 && s[0] == '[' && s[|s| - 1] == ']' then Some(s[1..|s| - 1]) else None
  }

  /** `^key\s*=(.*)$` */
  function KeyText(line: string, key: string): Option<string> {
    if key <= line then
      var rest := StripLeft(line[|key|..]);
      if rest != "" && rest[0] == '=' then Some(rest[1..]) else None
    else None
  }

  function Find(s: string, ch: char): Option<nat> {
    if s == "" then None
    else if s[0] == ch then Some(0)
    else
      match Find(s[1..], ch)
      case None => None
      case Some(i) => Some(i + 1)
  }

  lemma {:induction false} FindIs(s: string, ch: char)
    ensures Find(s, ch).Some? ==> Find(s, ch).value < |s| && s[Find(s, ch).value] == ch
    ensures Find(s, ch).Some? ==> forall j :: 0 <= j < Find(s, ch).value ==> s[j] != ch
    ensures Find(s, ch).None? ==> ch !in s
  {
    if s != "" {
      FindIs(s[1..], ch);
      assert s == [s[0]] + s[1..];
    }
  }

  /** The text between the first two quotes; nothing if there is only one. */
  function Quoted(s: string, quote: char): Option<string> {
    match Find(s, quote)
    case None => None
    case Some(start) =>
      FindIs(s, quote);
      var rest := s[start + 1..];
      match Find(rest, quote)
      case None => Some("")
      case Some(end) => FindIs(rest, quote); Some(rest[..end])
  }

  /** `get_string`. */
  function GetString(s: string): Option<string> {
    OrElse(Quoted(s, '"'), Quoted(s, '\''))
  }

  /** `self.get_string(value) or value.strip()` */
  function ValueText(s: string): string {
    if GetString(s).Some? && GetString(s).value != "" then GetString(s).value else Strip(s)
  }

  /** What a line is for a search for `key`. */
  function Sees(line: string, key: string): Reading<string> {
    if HeaderName(line).Some? then Header(HeaderName(line).value)
    else if KeyText(line, key).Some? then Pair(key, Plain(ValueText(KeyText(line, key).value)))
    else Other
  }

  function SeesAll(lines: seq<string>, key: string): seq<Reading<string>> {
    seq(|lines|, i requires 0 <= i < |lines| => Sees(lines[i], key))
  }

  /** Keys are made of these characters, none of which means anything in a regular expression. */
  predicate KeyName(key: string) {
    key != "" && forall i :: 0 <= i < |key| ==> KeyChar(key[i])
  }

  predicate KeyChar(ch: char) {
    'a' <= ch <= 'z' || 'A' <= ch <= 'Z' || '0' <= ch <= '9' || ch == '-' || ch == '_'
  }

  lemma {:induction false} StripRightPrefix(s: string)
    ensures StripRight(s) <= s
    decreases |s|
  {
    if s != "" && Space(s[|s| - 1]) { StripRightPrefix(s[..|s| - 1]); }
  }

  /** A line is not both a header and a setting. */
  lemma {:induction false} HeaderOrKey(line: string, key: string)
    requires KeyName(key)
    ensures HeaderName(line).None? || KeyText(line, key).None?
  {
    if key <= line {
      assert line[0] == key[0] && KeyChar(key[0]);
      assert StripLeft(line) == line;
      StripRightPrefix(line);
    }
  }

  /** `get_toml`. */
  method GetToml(lines: seq<string>, key: string, section: Option<string>) returns (r: Option<string>)
    requires KeyName(key)
    ensures r == Search(SeesAll(lines, key), None, key, section)
  {
    var curSection: Option<string> := None;
    ghost var seen := SeesAll(lines, key);
    for i := 0 to |lines|
      invariant Search(seen, None, key, section) == Search(seen[i..], curSection, key, section)
    {
      HeaderOrKey(lines[i], key);
      assert seen[i..][1..] == seen[i + 1..];
      var header := HeaderName(lines[i]);
      if header.Some? {
        curSection := header;
      }
      var text := KeyText(lines[i], key);
      if text.Some? {
        if section.None? || section == curSection {
          return Some(ValueText(text.value));
        }
      }
    }
    return None;
  }

  // ------------------------------------------------------------------ common shapes of lines

  lemma NoHeader(line: string)
    requires line != "" && !Space(line[0]) && line[0] != '['
    ensures HeaderName(line).None?
  {
    StripRightPrefix(line);
  }

  /** A header, and one that is followed by something. */
  lemma HeaderLine(name: string, rest: string)
    requires rest == "" || (!Space(rest[|rest| - 1]) && rest[|rest| - 1] != ']')
    ensures HeaderName("[" + name + "]" + rest) == if rest == "" then Some(name) else None
  {
    var line := "[" + name + "]" + rest;
    assert line[0] == '[' && StripLeft(line) == line;
    assert line[|line| - 1] == (if rest == "" then ']' else rest[|rest| - 1]);
    assert StripRight(line) == line;
    assert rest == "" ==> line[1..|line| - 1] == name;
  }

  lemma {:induction false} FindNone(s: string, ch: char)
    requires ch !in s
    ensures Find(s, ch).None?
    decreases |s|
  {
    if s != "" { FindNone(s[1..], ch); }
  }

  lemma KeyLine(key: string, text: string)
    requires KeyName(key)
    ensures HeaderName(key + (" =" + text)).None? && KeyText(key + (" =" + text), key) == Some(text)
  {
    var line, rest := key + (" =" + text), " =" + text;
    assert line[0] == key[0] && KeyChar(key[0]);
    NoHeader(line);
    assert line[|key|..] == rest && rest[1..] == "=" + text;
    assert StripLeft(rest) == "=" + text && ("=" + text)[1..] == text;
  }

  lemma PlainText(value: string)
    requires value != "" && !Space(value[0]) && !Space(value[|value| - 1]) && '"' !in value && '\'' !in value
    ensures ValueText(" " + value) == value
  {
    var text := " " + value;
    FindNone(text, '"');
    FindNone(text, '\'');
    assert text[1..] == value && StripLeft(text) == value && StripRight(value) == value;
  }

  /** A setting without quotes: everything after the equals sign, less the spaces around it. */
  lemma SettingLine(key: string, value: string)
    requires KeyName(key) && value != "" && !Space(value[0]) && !Space(value[|value| - 1])
    requires '"' !in value && '\'' !in value
    ensures Sees(key + " = " + value, key) == Pair(key, Plain(value))
  {
    KeyLine(key, " " + value);
    PlainText(value);
    assert key + " = " + value == key + (" =" + (" " + value));
  }

  /** A line that begins with a space or a bracket sets nothing. */
  lemma NoSetting(line: string, key: string)
    requires KeyName(key) && line != "" && (Space(line[0]) || line[0] == '[')
    ensures KeyText(line, key).None?
  {
    assert KeyChar(key[0]);
  }

  /** An indented setting is neither a header nor seen to set anything. */
  lemma IndentedLine(key: string, value: string)
    requires KeyName(key)
    ensures Sees(" " + (key + " = " + value), key) == Other
  {
    var rest := key + " = " + value;
    var line := " " + rest;
    assert line[1..] == rest && rest[0] == key[0] && KeyChar(key[0]);
    assert StripLeft(line) == rest;
    StripRightPrefix(rest);
    NoSetting(line, key);
  }

  lemma {:induction false} OneSetting<V>(r: Reading<V>, cur: Option<string>, key: string, section: string)
    requires r.Other? || (r.Pair? && cur != Some(section))
    ensures Search([r], cur, key, Some(section)) == None
  {
    assert [r][1..] == [];
  }

  lemma FirstSetting<V>(section: string, key: string, v: V, rest: seq<Reading<V>>)
    ensures Search([Header(section), Pair(key, Plain(v))] + rest, None, key, Some(section)) == Some(v)
  {
    var lines := [Header(section), Pair(key, Plain(v))] + rest;
    assert lines[0] == Header(section) && lines[1..][0] == Pair(key, Plain(v));
  }

  // ------------------------------------------------------------------ what the expressions match

  /** White space, character by character. */
  predicate White(s: string) {
    forall i :: 0 <= i < |s| ==> s[i] in {' ', '\t', '\n', '\U{000B}', '\U{000C}', '\r'}
  }

  predicate NoEdges(s: string) {
    s == "" || (!White(s[..1]) && !White(s[|s| - 1..]))
  }

  lemma SpaceIs(ch: char)
    ensures Space(ch) <==> White([ch])
  {
    assert White([ch]) <==> [ch][0] in {' ', '\t', '\n', '\U{000B}', '\U{000C}', '\r'};
  }

  lemma {:induction false} StripLeftIs(pre: string, s: string)
    requires White(pre) && (s == "" || !White(s[..1]))
    ensures StripLeft(pre + s) == s
    decreases |pre|
  {
    if pre == "" {
      assert pre + s == s;
      if s != "" {
        SpaceIs(s[0]);
        assert s[..1] == [s[0]];
      }
    } else {
      SpaceIs(pre[0]);
      assert White([pre[0]]) && White(pre[1..]);
      assert (pre + s)[1..] == pre[1..] + s;
      StripLeftIs(pre[1..], s);
    }
  }

  lemma {:induction false} StripRightIs(s: string, post: string)
    requires White(post) && (s == "" || !White(s[|s| - 1..]))
    ensures StripRight(s + post) == s
    decreases |post|
  {
    if post == "" {
      assert s + post == s;
      if s != "" {
        SpaceIs(s[|s| - 1]);
        assert s[|s| - 1..] == [s[|s| - 1]];
      }
    } else {
      var n := |post| - 1;
      SpaceIs(post[n]);
      assert White([post[n]]) && White(post[..n]);
      assert (s + post)[..|s + post| - 1] == s + post[..n];
      StripRightIs(s, post[..n]);
    }
  }

  lemma {:induction false} WhiteStrips(post: string)
    requires White(post)
    ensures StripLeft(post) == "" && Strip(post) == ""
  {
    StripLeftIs(post, "");
    assert post + "" == post;
  }

  /** Stripping takes the white space off both ends, and nothing else. */
  lemma {:induction false} StripIs(pre: string, s: string, post: string)
    requires White(pre) && White(post) && NoEdges(s)
    ensures Strip(pre + s + post) == s
  {
    assert pre + s + post == pre + (s + post);
    if s == "" {
      assert White(pre + s + post);
      WhiteStrips(pre + s + post);
    } else {
      assert (s + post)[..1] == s[..1];
      StripLeftIs(pre, s + post);
      StripRightIs(s, post);
    }
  }

  /** A header: a name in brackets, with any white space around them. */
  lemma {:induction false} HeaderIs(pre: string, name: string, post: string)
    requires White(pre) && White(post)
    ensures HeaderName(pre + ("[" + name + "]") + post) == Some(name)
  {
    var s := "[" + name + "]";
    assert s[..1] == "[" && s[|s| - 1..] == "]" && s[1..|s| - 1] == name;
    assert !White("[") by { assert "["[0] == '['; }
    assert !White("]") by { assert "]"[0] == ']'; }
    StripIs(pre, s, post);
  }

  /** A setting: the key at the very beginning, any white space, an equals sign. */
  lemma {:induction false} KeyIs(key: string, gap: string, text: string)
    requires KeyName(key) && White(gap)
    ensures KeyText(key + gap + "=" + text, key) == Some(text) && HeaderName(key + gap + "=" + text).None?
  {
    var line, rest := key + gap + "=" + text, "=" + text;
    assert line == key + (gap + rest) && line[|key|..] == gap + rest && line[0] == key[0] && KeyChar(key[0]);
    assert rest[..1] == "=" && rest[1..] == text;
    assert !White("=") by { assert "="[0] == '='; }
    StripLeftIs(gap, rest);
    NoHeader(line);
  }

  lemma {:induction false} FindFirst(pre: string, ch: char, rest: string)
    requires ch !in pre
    ensures Find(pre + [ch] + rest, ch) == Some(|pre|)
    decreases |pre|
  {
    var s := pre + [ch] + rest;
    if pre != "" {
      assert s[1..] == pre[1..] + [ch] + rest && s[0] == pre[0];
      FindFirst(pre[1..], ch, rest);
    }
  }

  /** The text between the first two quotes. */
  lemma {:induction false} QuotedIs(pre: string, quote: char, value: string, rest: string)
    requires quote !in pre && quote !in value
    ensures Quoted(pre + [quote] + (value + [quote] + rest), quote) == Some(value)
  {
    var inner := value + [quote] + rest;
    var s := pre + [quote] + inner;
    FindFirst(pre, quote, inner);
    FindFirst(value, quote, rest);
    assert s[|pre| + 1..] == inner && inner[..|value|] == value;
  }

  /** One quote alone counts for nothing. */
  lemma {:induction false} UnclosedIs(pre: string, quote: char, rest: string)
    requires quote !in pre && quote !in rest
    ensures Quoted(pre + [quote] + rest, quote) == Some("")
  {
    FindFirst(pre, quote, rest);
    FindNone(rest, quote);
    assert (pre + [quote] + rest)[|pre| + 1..] == rest;
  }

  lemma {:induction false} NotQuoted(s: string, quote: char)
    requires quote !in s
    ensures Quoted(s, quote).None?
  {
    FindNone(s, quote);
  }

  /** The value of a setting: what stands between double quotes, if that is not empty, whatever
      comes after them. */
  lemma {:induction false} DoubleQuoted(pre: string, value: string, rest: string)
    requires '"' !in pre && '"' !in value && value != ""
    ensures ValueText(pre + ['"'] + (value + ['"'] + rest)) == value
  {
    QuotedIs(pre, '"', value, rest);
  }

  /** Else, if there are no double quotes, what stands between single ones. */
  lemma {:induction false} SingleQuoted(pre: string, value: string, rest: string)
    requires '\'' !in pre && '\'' !in value && value != "" && '"' !in pre + value + rest
    ensures ValueText(pre + ['\''] + (value + ['\''] + rest)) == value
  {
    QuotedIs(pre, '\'', value, rest);
    NotQuoted(pre + ['\''] + (value + ['\''] + rest), '"');
  }

  /** Nothing between the first two double quotes, or no second one: the whole text, less the white
      space around it, quotes and all. */
  lemma {:induction false} EmptyQuotes(pre: string, rest: string)
    requires '"' !in pre
    ensures ValueText(pre + ['"'] + ([] + ['"'] + rest)) == Strip(pre + ['"'] + ([] + ['"'] + rest))
    ensures '"' !in rest ==> ValueText(pre + ['"'] + rest) == Strip(pre + ['"'] + rest)
  {
    QuotedIs(pre, '"', [], rest);
    if '"' !in rest { UnclosedIs(pre, '"', rest); }
  }

  /** The same for single quotes; and a text without quotes. */
  lemma {:induction false} EmptySingleQuotes(pre: string, rest: string)
    requires '\'' !in pre && '"' !in pre + rest
    ensures ValueText(pre + ['\''] + ([] + ['\''] + rest)) == Strip(pre + ['\''] + ([] + ['\''] + rest))
    ensures '\'' !in rest ==> ValueText(pre + ['\''] + rest) == Strip(pre + ['\''] + rest)
    ensures ValueText(pre) == Strip(pre)
  {
    QuotedIs(pre, '\'', [], rest);
    NotQuoted(pre + ['\''] + ([] + ['\''] + rest), '"');
    NotQuoted(pre + ['\''] + rest, '"');
    NotQuoted(pre, '"');
    NotQuoted(pre, '\'');
    if '\'' !in rest { UnclosedIs(pre, '\'', rest); }
  }

  /** A setting below its header is found, with the value that its text has. */
  lemma {:induction false} SettingFound(section: string, key: string, text: string, more: seq<string>)
    requires KeyName(key)
    ensures Search(SeesAll(["[" + section + "]", key + " =" + text] + more, key), None, key, Some(section)) == Some(ValueText(text))
  {
    SeenLines(section, key, text);
    FirstSetting(section, key, ValueText(text), SeesAll(more, key));
    SeesTwo("[" + section + "]", key + " =" + text, more, key);
  }

  lemma SeenLines(section: string, key: string, text: string)
    requires KeyName(key)
    ensures Sees("[" + section + "]", key) == Header(section)
    ensures Sees(key + " =" + text, key) == Pair(key, Plain(ValueText(text)))
  {
    var header, line := "[" + section + "]", key + " =" + text;
    assert White("") && White(" ") && header == "" + header + "" && line == key + " " + "=" + text;
    HeaderIs("", section, "");
    KeyIs(key, " ", text);
  }

  lemma SeesTwo(a: string, b: string, more: seq<string>, key: string)
    ensures SeesAll([a, b] + more, key) == [Sees(a, key), Sees(b, key)] + SeesAll(more, key)
  {
  }

  /** What `get_toml` finds for a value in double quotes, whatever follows it on its line and in the
      file: the value without the quotes. */
  lemma {:induction false} QuotedFound(section: string, key: string, value: string, rest: string, more: seq<string>)
    requires KeyName(key) && value != "" && '"' !in value
    ensures Search(SeesAll(["[" + section + "]", key + " =" + (" " + ['"'] + (value + ['"'] + rest))] + more, key),
                   None, key, Some(section)) == Some(value)
  {
    SettingFound(section, key, " " + ['"'] + (value + ['"'] + rest), more);
    DoubleQuoted(" ", value, rest);
  }
}
