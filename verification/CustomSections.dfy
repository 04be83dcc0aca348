/**
 The section parser of BuildCustomConfig, the defaults it overrides and the texts it prints
 (provider/haproxy/haproxy_config_util.go:83-145, 243-283).
 */
module CustomSections {
  import opened Prelude
  import opened Text
  import Sorting

  type Sections = map<string, map<string, string>>  // section name, default directive, its value

  type FiledTexts = map<string, seq<string>>        // section name, its custom lines in order

  const KEYWORDS: seq<string> := ["backend", "frontend", "global", "defaults", "listen", "userlist", "peers", "mailers"]
  const SERVER_PREFIX := "server $IP"

  predicate IsDirective(word: string) {
    exists i :: 0 <= i < |KEYWORDS| && EqualFold(word, KEYWORDS[i])
  }

  // ---------------------------------------------------------------------------------------
  // Lines
  // ---------------------------------------------------------------------------------------

  /** The text before the first blank. */
  function FirstPiece(s: string): (piece: string)
    ensures ' ' !in piece && piece <= s
    ensures |piece| < |s| ==> s[|piece|] == ' '
  {
    if s == "" || s[0] == ' ' then "" else [s[0]] + FirstPiece(s[1..])
  }

  /** What a line is: blank, a server line of the current section, a section header, or a line
      of the current section, with and without the white space around it. */
  datatype Line = Empty | Server(value: string) | Header(section: string) | Body(text: string, trimmed: string)

  function SectionName(trimmed: string): string {
    var first := FirstPiece(trimmed);
    if |first| == |trimmed| then first
    else TrimSpace(TrimSpace(first) + " " + TrimSpace(trimmed[|first| + 1..]))
  }

  function KindOf(line: string): Line {
    var trimmed := TrimSpace(line);
    if trimmed == "" then Empty
    else if HasPrefix(trimmed, SERVER_PREFIX) then Server(trimmed[|SERVER_PREFIX|..])
    else if IsDirective(FirstPiece(trimmed)) then Header(SectionName(trimmed))
    else Body(line, trimmed)
  }

  function Lines(text: seq<string>): seq<Line> {
    seq(|text|, i requires 0 <= i < |text| => KindOf(text[i]))
  }

  /** The section a line belongs to: that of the last header before it. */
  function SectionAt(lines: seq<Line>, n: nat): string
    requires n <= |lines|
  {
    if n == 0 then ""
    else if lines[n - 1].Header? then lines[n - 1].section
    else SectionAt(lines, n - 1)
  }

  /** Where the text of a line is filed, and the text. */
  function FiledAt(section: string, line: Line): Option<(string, string)> {
    match line
    case Body(text, _) => Some((section, text))
    case Server(value) => Some((section + "_$IP", value))
    case _ => None
  }

  /** All texts filed under a name by the first `n` lines, in order. */
  function FiledUnder(lines: seq<Line>, n: nat, name: string): seq<string>
    requires n <= |lines|
  {
    if n == 0 then []
    else
      var filed := FiledAt(SectionAt(lines, n - 1), lines[n - 1]);
      FiledUnder(lines, n - 1, name) + if filed.Some? && filed.value.0 == name then [filed.value.1] else []
  }

  /** A custom line of the section that starts with the words of `k`. */
  predicate Overrides(lines: seq<Line>, i: nat, section: string, k: string)
    requires i < |lines|
  {
    lines[i].Body? && SectionAt(lines, i) == section && HasPrefix(lines[i].trimmed, k + " ")
  }

  predicate Overridden(lines: seq<Line>, n: nat, section: string, k: string)
    requires n <= |lines|
  {
    exists i :: 0 <= i < n && Overrides(lines, i, section, k)
  }

  /** The defaults of a section that no custom line overrides. */
  function Surviving(lines: seq<Line>, n: nat, section: string, defaults: map<string, string>): map<string, string>
    requires n <= |lines|
  {
    map k | k in defaults && !Overridden(lines, n, section, k) :: defaults[k]
  }

  // ---------------------------------------------------------------------------------------
  // A custom line never equals its section name
  // ---------------------------------------------------------------------------------------

  lemma KeywordsAreWords(i: nat)
    requires i < |KEYWORDS|
    ensures ' ' !in KEYWORDS[i]
  {
  }

  lemma {:induction false} NoBlankNoSplit(s: string)
    requires ' ' !in s
    ensures FirstPiece(s) == s
  {
    if s != "" {
      NoBlankNoSplit(s[1..]);
    }
  }

  lemma SectionNameIsDirective(trimmed: string, section: string)
    requires section in KEYWORDS && EqualFold(trimmed, section)
    ensures IsDirective(FirstPiece(trimmed))
  {
    var j :| 0 <= j < |KEYWORDS| && KEYWORDS[j] == section;
    KeywordsAreWords(j);
    forall i | 0 <= i < |trimmed| ensures trimmed[i] != ' ' {
      assert Fold(trimmed[i]) == Fold(section[i]);
    }
    NoBlankNoSplit(trimmed);
    assert EqualFold(FirstPiece(trimmed), KEYWORDS[j]);
  }

  /** The first disjunct of the override test cannot hold for a line that reaches it. */
  lemma BodyIsNoSectionName(line: string, section: string)
    requires KindOf(line).Body? && section in KEYWORDS
    ensures !EqualFold(TrimSpace(line), section)
  {
    if EqualFold(TrimSpace(line), section) {
      SectionNameIsDirective(TrimSpace(line), section);
    }
  }

  // ---------------------------------------------------------------------------------------
  // The line loop
  // ---------------------------------------------------------------------------------------

  function Texts(custom: FiledTexts, name: string): seq<string> {
    if name in custom then custom[name] else []
  }

  /** `custom` holds exactly what the first `n` lines file. */
  ghost predicate FilesRight(custom: FiledTexts, lines: seq<Line>, n: nat)
    requires n <= |lines|
  {
    && (forall name :: Texts(custom, name) == FiledUnder(lines, n, name))
    && (forall name :: name in custom ==> custom[name] != [])
  }

  /** `left` holds exactly the defaults that the first `n` lines leave alone. */
  ghost predicate LeavesRight(left: Sections, defaults: Sections, lines: seq<Line>, n: nat)
    requires n <= |lines|
  {
    && left.Keys == defaults.Keys
    && forall section :: section in defaults ==> left[section] == Surviving(lines, n, section, defaults[section])
  }

  function File(custom: FiledTexts, name: string, text: string): FiledTexts {
    custom[name := Texts(custom, name) + [text]]
  }

  lemma FileIsRight(custom: FiledTexts, lines: seq<Line>, n: nat)
    requires n < |lines| && FilesRight(custom, lines, n)
    ensures var filed := FiledAt(SectionAt(lines, n), lines[n]);
            FilesRight(if filed.Some? then File(custom, filed.value.0, filed.value.1) else custom, lines, n + 1)
  {
    var filed := FiledAt(SectionAt(lines, n), lines[n]);
    var custom' := if filed.Some? then File(custom, filed.value.0, filed.value.1) else custom;
    forall name ensures Texts(custom', name) == FiledUnder(lines, n + 1, name) {
      assert Texts(custom, name) == FiledUnder(lines, n, name);
    }
  }

  lemma SurvivingNext(lines: seq<Line>, n: nat, section: string, defaults: map<string, string>)
    requires n < |lines|
    ensures Surviving(lines, n + 1, section, defaults) ==
            map k | k in Surviving(lines, n, section, defaults) && !Overrides(lines, n, section, k) :: defaults[k]
  {
    forall k
      ensures Overridden(lines, n + 1, section, k) <==>
              Overridden(lines, n, section, k) || Overrides(lines, n, section, k)
    {
      if Overridden(lines, n + 1, section, k) && !Overrides(lines, n, section, k) {
        var i :| 0 <= i < n + 1 && Overrides(lines, i, section, k);
        assert i < n;
      }
    }
  }

  /** The loop over the defaults of a section, whatever their order. */
  method DropOverridden(defaults: map<string, string>, trimmed: string, section: string)
    returns (left: map<string, string>)
    requires !EqualFold(trimmed, section)
    ensures left == map k | k in defaults && !HasPrefix(trimmed, k + " ") :: defaults[k]
  {
    left := defaults;
    var todo := defaults.Keys;
    while todo != {}
      invariant todo <= defaults.Keys
      invariant left == map k | k in defaults && (k in todo || !HasPrefix(trimmed, k + " ")) :: defaults[k]
    {
      var k :| k in todo;
      if EqualFold(trimmed, section) || HasPrefix(trimmed, k + " ") {
        left := left - {k};
      }
      todo := todo - {k};
    }
  }

  lemma PieceIsNotBlank(trimmed: string)
    requires trimmed != "" && !IsSpace(trimmed[0])
    ensures TrimSpace(FirstPiece(trimmed)) != ""
  {
    assert FirstPiece(trimmed)[0] == trimmed[0];
  }

  /** The tests on one line. */
  method ReadKind(conf: string) returns (kind: Line)
    ensures kind == KindOf(conf)
    ensures kind.Body? ==> kind.text == conf && kind.trimmed == TrimSpace(conf)
  {
    var trimmed := TrimSpace(conf);
    var prefix := FirstPiece(trimmed);
    if trimmed != "" {
      PieceIsNotBlank(trimmed);
    }
    if TrimSpace(prefix) == "" {
      return Empty;
    }
    if IsDirective(prefix) || HasPrefix(trimmed, SERVER_PREFIX) {
      if HasPrefix(trimmed, SERVER_PREFIX) {
        return Server(trimmed[|SERVER_PREFIX|..]);
      } else if |prefix| < |trimmed| {
        return Header(TrimSpace(TrimSpace(prefix) + " " + TrimSpace(trimmed[|prefix| + 1..])));
      }
      return Header(prefix);
    }
    return Body(conf, trimmed);
  }

  predicate KeywordSections(defaults: Sections) {
    forall section :: section in defaults ==> section in KEYWORDS
  }

  /** The defaults left after line `line` of section `key`. */
  function DropFrom(left: Sections, key: string, line: Line): Sections {
    if line.Body? && key in left
    then left[key := map k | k in left[key] && !HasPrefix(line.trimmed, k + " ") :: left[key][k]]
    else left
  }

  lemma LeftNextAt(left: map<string, string>, defaults: map<string, string>, lines: seq<Line>, n: nat, section: string)
    requires n < |lines| && left == Surviving(lines, n, section, defaults)
    ensures Surviving(lines, n + 1, section, defaults) ==
            if lines[n].Body? && SectionAt(lines, n) == section
            then map k | k in left && !HasPrefix(lines[n].trimmed, k + " ") :: left[k] else left
  {
    SurvivingNext(lines, n, section, defaults);
  }

  lemma LeftNext(left: Sections, defaults: Sections, lines: seq<Line>, n: nat, key: string)
    requires n < |lines| && LeavesRight(left, defaults, lines, n) && key == SectionAt(lines, n)
    ensures LeavesRight(DropFrom(left, key, lines[n]), defaults, lines, n + 1)
  {
    forall section | section in defaults
      ensures DropFrom(left, key, lines[n])[section] == Surviving(lines, n + 1, section, defaults[section])
    {
      LeftNextAt(left[section], defaults[section], lines, n, section);
    }
  }

  /** The variables of the line loop. */
  datatype Parser = Parser(key: string, custom: FiledTexts, left: Sections)

  ghost predicate HasRead(p: Parser, defaults: Sections, lines: seq<Line>, n: nat) {
    && n <= |lines| && p.key == SectionAt(lines, n)
    && FilesRight(p.custom, lines, n) && LeavesRight(p.left, defaults, lines, n)
  }

  lemma NothingRead(lines: seq<Line>, defaults: Sections)
    ensures HasRead(Parser("", map[], defaults), defaults, lines, 0)
  {
    forall section | section in defaults ensures defaults[section] == Surviving(lines, 0, section, defaults[section]) {
      assert forall k :: !Overridden(lines, 0, section, k);
    }
  }

  /** One line. */
  method ReadLine(p: Parser, conf: string, ghost defaults: Sections, ghost lines: seq<Line>, ghost n: nat)
    returns (p': Parser)
    requires HasRead(p, defaults, lines, n) && n < |lines| && lines[n] == KindOf(conf)
    requires KeywordSections(defaults)
    ensures HasRead(p', defaults, lines, n + 1)
  {
    hide KindOf, TrimSpace, EqualFold, FiledUnder, Surviving, FilesRight;
    FileIsRight(p.custom, lines, n);
    LeftNext(p.left, defaults, lines, n, p.key);
    var kind := ReadKind(conf);
    match kind
    case Empty =>
      p' := p;
    case Header(section) =>
      p' := p.(key := section);
    case Server(value) =>
      p' := p.(custom := File(p.custom, p.key + "_$IP", value));
    case Body(text, trimmed) =>
      p' := p.(custom := File(p.custom, p.key, text));
      if p.key in p.left {
        BodyIsNoSectionName(conf, p.key);
        var dropped := DropOverridden(p.left[p.key], trimmed, p.key);
        p' := p'.(left := p.left[p.key := dropped]);
      }
  }

  /** The line loop of BuildCustomConfig: what is filed where, and which defaults are left. */
  method ReadLines(text: seq<string>, defaults: Sections) returns (p: Parser)
    requires KeywordSections(defaults)
    ensures HasRead(p, defaults, Lines(text), |text|)
  {
    hide KindOf;
    p := Parser("", map[], defaults);
    ghost var lines := Lines(text);
    NothingRead(lines, defaults);
    for n := 0 to |text|
      invariant HasRead(p, defaults, lines, n)
    {
      p := ReadLine(p, text[n], defaults, lines, n);
    }
  }

  /** A default survives exactly if no custom line of a section named just so starts with it. */
  lemma DefaultSurvivesIff(text: seq<string>, defaults: Sections, left: Sections, section: string, k: string)
    requires LeavesRight(left, defaults, Lines(text), |text|) && section in defaults && k in defaults[section]
    ensures k in left[section] <==>
            forall i :: 0 <= i < |text| && KindOf(text[i]).Body? && SectionAt(Lines(text), i) == section
              ==> !HasPrefix(TrimSpace(text[i]), k + " ")
    ensures k in left[section] ==> left[section][k] == defaults[section][k]
  {
    var lines := Lines(text);
    assert left[section] == Surviving(lines, |text|, section, defaults[section]);
    forall i | 0 <= i < |text|
      ensures Overrides(lines, i, section, k) <==>
              KindOf(text[i]).Body? && SectionAt(lines, i) == section && HasPrefix(TrimSpace(text[i]), k + " ")
    {
      assert lines[i] == KindOf(text[i]);
    }
  }

  // ---------------------------------------------------------------------------------------
  // What is left of the defaults is appended
  // ---------------------------------------------------------------------------------------

  function DefaultLine(k: string, v: string): string {
    TrimSpace(TrimSpace(k) + " " + TrimSpace(v))
  }

  /** The default lines of these keys, without an order. */
  ghost function DefaultLines(defaults: map<string, string>, keys: set<string>): multiset<string>
    requires keys <= defaults.Keys
  {
    if keys == {} then multiset{}
    else
      var k :| k in keys;
      multiset{DefaultLine(k, defaults[k])} + DefaultLines(defaults, keys - {k})
  }

  lemma {:induction false} AnyDefaultFirst(defaults: map<string, string>, keys: set<string>, k: string)
    requires keys <= defaults.Keys && k in keys
    ensures DefaultLines(defaults, keys) == multiset{DefaultLine(k, defaults[k])} + DefaultLines(defaults, keys - {k})
    decreases keys
  {
    hide DefaultLine;
    var first :| first in keys && DefaultLines(defaults, keys) ==
      multiset{DefaultLine(first, defaults[first])} + DefaultLines(defaults, keys - {first});
    if first != k {
      AnyDefaultFirst(defaults, keys - {first}, k);
      AnyDefaultFirst(defaults, keys - {k}, first);
      assert keys - {first} - {k} == keys - {k} - {first};
    }
  }

  /** confToString without the sorting. */
  function ConfToString(conf: seq<string>, tab: bool): string {
    if conf == [] then ""
    else if tab then "    " + Join(conf, "\n    ")
    else Join(conf, "\n    ")
  }

  /** The defaults of a section as text: one text, whatever order the map yields them in. */
  ghost function DefaultText(defaults: map<string, string>): string {
    ConfToString(Sorting.SortedStrings(DefaultLines(defaults, defaults.Keys)), false)
  }

  /** Collecting the default lines of a section in map order, then confToString with sorting. */
  method PrintDefaults(defaults: map<string, string>) returns (text: string)
    ensures text == DefaultText(defaults)
  {
    hide DefaultLine, ConfToString;
    var values: seq<string> := [];
    var todo := defaults.Keys;
    while todo != {}
      invariant todo <= defaults.Keys
      invariant multiset(values) + DefaultLines(defaults, todo) == DefaultLines(defaults, defaults.Keys)
    {
      var k :| k in todo;
      AnyDefaultFirst(defaults, todo, k);
      values := values + [DefaultLine(k, defaults[k])];
      todo := todo - {k};
    }
    assert multiset(values) + multiset{} == multiset(values);
    var sorted := Sorting.Sort(values, Sorting.Self, false);
    Sorting.SortedIsUnique(sorted, Sorting.SortedStrings(DefaultLines(defaults, defaults.Keys)));
    text := ConfToString(sorted, false);
  }

  /** The custom texts with those defaults at the end of their sections. */
  ghost function WithDefaults(custom: FiledTexts, left: Sections): FiledTexts {
    map name | name in custom.Keys + left.Keys ::
      Texts(custom, name) + if name in left then [DefaultText(left[name])] else []
  }

  /** The texts while the defaults of the sections in `todo` are still to come. */
  ghost function Appended(custom: FiledTexts, left: Sections, todo: set<string>): FiledTexts {
    map name | name in custom.Keys + (left.Keys - todo) ::
      Texts(custom, name) + if name in left && name !in todo then [DefaultText(left[name])] else []
  }

  lemma AppendedNext(custom: FiledTexts, left: Sections, todo: set<string>, name: string)
    requires name in todo && name in left
    ensures Appended(custom, left, todo - {name}) == File(Appended(custom, left, todo), name, DefaultText(left[name]))
  {
    hide DefaultText;
    assert Texts(custom, name) + [] == Texts(custom, name);
    assert Texts(Appended(custom, left, todo), name) == Texts(custom, name);
  }

  lemma NothingAppended(custom: FiledTexts, left: Sections)
    ensures Appended(custom, left, left.Keys) == custom
  {
    hide DefaultText;
    forall name | name in custom ensures Appended(custom, left, left.Keys)[name] == custom[name] {
      assert Texts(custom, name) + [] == custom[name];
    }
  }

  method AppendDefaults(custom: FiledTexts, left: Sections) returns (all: FiledTexts)
    ensures all == WithDefaults(custom, left)
  {
    hide DefaultText, File;
    all := custom;
    var todo := left.Keys;
    NothingAppended(custom, left);
    while todo != {}
      invariant todo <= left.Keys && all == Appended(custom, left, todo)
    {
      var name :| name in todo;
      AppendedNext(custom, left, todo, name);
      var text := PrintDefaults(left[name]);
      all := File(all, name, text);
      todo := todo - {name};
    }
    assert Appended(custom, left, {}) == WithDefaults(custom, left);
  }

  // ---------------------------------------------------------------------------------------
  // Sections that no frontend or backend has used
  // ---------------------------------------------------------------------------------------

  predicate IsExtra(name: string, processed: set<string>) {
    && !EqualFold(name, "global") && !EqualFold(name, "backend") && !EqualFold(name, "defaults")
    && name !in processed
    && !(HasPrefix(name, "backend") && HasSuffix(name, "_$IP"))
  }

  function ExtraText(names: seq<string>, custom: FiledTexts, processed: set<string>): string {
    if names == [] then ""
    else
      var last := names[|names| - 1];
      ExtraText(names[..|names| - 1], custom, processed) +
      if IsExtra(last, processed) then last + "\n" + ConfToString(Texts(custom, last), true) + "\n" else ""
  }

  /** The text outside frontends and backends, whatever order the map yields its sections in. */
  ghost function GlobalText(custom: FiledTexts, processed: set<string>): string {
    var extra := ExtraText(Sorting.SortedStrings(multiset(custom.Keys)), custom, processed);
    "global\n" + ConfToString(Texts(custom, "global"), true) + "\n\ndefaults\n"
    + ConfToString(Texts(custom, "defaults"), true) +
    if extra != "" then "\n\n" + extra else ""
  }

  /** The names of all sections, sorted. */
  method SortedNames(custom: FiledTexts) returns (sorted: seq<string>)
    ensures sorted == Sorting.SortedStrings(multiset(custom.Keys))
  {
    var names: seq<string> := [];
    var todo := custom.Keys;
    while todo != {}
      invariant todo <= custom.Keys && multiset(names) == multiset(custom.Keys - todo)
    {
      var name :| name in todo;
      names := names + [name];
      assert custom.Keys - (todo - {name}) == (custom.Keys - todo) + {name};
      todo := todo - {name};
    }
    assert custom.Keys - {} == custom.Keys;
    sorted := Sorting.Sort(names, Sorting.Self, false);
    Sorting.SortedIsUnique(sorted, Sorting.SortedStrings(multiset(custom.Keys)));
  }

  method PrintExtra(sorted: seq<string>, custom: FiledTexts, processed: set<string>) returns (extra: string)
    ensures extra == ExtraText(sorted, custom, processed)
  {
    hide IsExtra, ConfToString, Texts;
    extra := "";
    for i := 0 to |sorted|
      invariant extra == ExtraText(sorted[..i], custom, processed)
    {
      assert sorted[..i + 1][..i] == sorted[..i];
      if IsExtra(sorted[i], processed) {
        extra := extra + (sorted[i] + "\n" + ConfToString(Texts(custom, sorted[i]), true) + "\n");
      } else {
        assert extra + "" == extra;
      }
    }
    assert sorted[..|sorted|] == sorted;
  }

  method PrintGlobal(custom: FiledTexts, processed: set<string>) returns (text: string)
    ensures text == GlobalText(custom, processed)
  {
    hide IsExtra, ConfToString, ExtraText, Texts;
    var sorted := SortedNames(custom);
    var extra := PrintExtra(sorted, custom, processed);
    text := "global\n" + ConfToString(Texts(custom, "global"), true) + "\n\ndefaults\n"
        + ConfToString(Texts(custom, "defaults"), true);
    if extra != "" {
      text := text + ("\n\n" + extra);
    } else {
      assert text + "" == text;
    }
  }

  // ---------------------------------------------------------------------------------------
  // Which sections are printed
  // ---------------------------------------------------------------------------------------

  function Without(names: seq<string>, name: string): seq<string> {
    if names == [] then []
    else Without(names[..|names| - 1], name) + if names[|names| - 1] == name then [] else [names[|names| - 1]]
  }

  lemma ItemsOfConcat(a: seq<string>, b: seq<string>)
    ensures multiset(a + b) == multiset(a) + multiset(b)
  {
  }

  lemma {:induction false} WithoutItems(names: seq<string>, name: string)
    ensures multiset(Without(names, name)) == multiset(names)[name := 0]
  {
    if names != [] {
      var front, last := names[..|names| - 1], names[|names| - 1];
      WithoutItems(front, name);
      ItemsOfConcat(front, [last]);
      ItemsOfConcat(Without(front, name), [last]);
      assert names == front + [last];
      assert Without(front, name) + [] == Without(front, name);
    }
  }

  lemma {:induction false} WithoutIsSorted(names: seq<string>, name: string)
    requires Sorting.Sorted(names, Sorting.Self, false)
    ensures Sorting.Sorted(Without(names, name), Sorting.Self, false)
  {
    if names != [] {
      var front, last := names[..|names| - 1], names[|names| - 1];
      WithoutIsSorted(front, name);
      forall i | 0 <= i < |front| ensures Sorting.InOrder(front[i], last, false) {
        assert Sorting.InOrder(Sorting.Self(names[i]), Sorting.Self(names[|names| - 1]), false);
      }
      WithoutKeepsBound(front, name, last);
    }
  }

  lemma WithoutKeepsBound(names: seq<string>, name: string, bound: string)
    requires forall i :: 0 <= i < |names| ==> Sorting.InOrder(names[i], bound, false)
    ensures forall i :: 0 <= i < |Without(names, name)| ==> Sorting.InOrder(Without(names, name)[i], bound, false)
  {
    if names != [] {
      WithoutKeepsBound(names[..|names| - 1], name, bound);
    }
  }

  lemma SortedWithout(custom: FiledTexts, name: string)
    ensures Sorting.SortedStrings(multiset((custom - {name}).Keys)) ==
            Without(Sorting.SortedStrings(multiset(custom.Keys)), name)
  {
    var all := Sorting.SortedStrings(multiset(custom.Keys));
    WithoutItems(all, name);
    WithoutIsSorted(all, name);
    assert multiset((custom - {name}).Keys) == multiset(custom.Keys)[name := 0];
    Sorting.SortedIsUnique(Sorting.SortedStrings(multiset((custom - {name}).Keys)), Without(all, name));
  }

  /** Without one section the extra text is the same exactly if that section has no part in it, and
      otherwise shorter. */
  lemma {:induction false} ExtraTextWithout(names: seq<string>, custom: FiledTexts, processed: set<string>,
        name: string)
    ensures |ExtraText(Without(names, name), custom - {name}, processed)| <= |ExtraText(names, custom, processed)|
    ensures ExtraText(Without(names, name), custom - {name}, processed) == ExtraText(names, custom, processed) <==>
            !(name in names && IsExtra(name, processed))
    ensures name in names && IsExtra(name, processed) ==>
            |ExtraText(Without(names, name), custom - {name}, processed)| < |ExtraText(names, custom, processed)|
  {
    hide IsExtra, ConfToString;
    if names != [] {
      var front, last := names[..|names| - 1], names[|names| - 1];
      ExtraTextWithout(front, custom, processed, name);
      assert names == front + [last];
      if last != name {
        assert Texts(custom - {name}, last) == Texts(custom, last);
        assert Without(names, name)[..|Without(names, name)| - 1] == Without(front, name);
        var part :=
          if IsExtra(last, processed) then last + "\n" + ConfToString(Texts(custom, last), true) + "\n" else "";
        SameTail(ExtraText(Without(front, name), custom - {name}, processed),
                 ExtraText(front, custom, processed), part);
      } else {
        assert Without(names, name) == Without(front, name);
      }
    }
  }

  lemma SameTail(a: string, b: string, tail: string)
    ensures a + tail == b + tail <==> a == b
  {
    if a + tail == b + tail {
      assert a == (a + tail)[..|a|] && b == (b + tail)[..|b|];
    }
  }

  function AfterDefaults(extra: string): string {
    if extra != "" then "\n\n" + extra else ""
  }

  /** The text outside frontends and backends depends on a section other than "global" and
      "defaults" if and only if the section is an extra one: whatever lines it has, a section that
      is not is not printed there. */
  lemma SectionIsPrintedIff(custom: FiledTexts, processed: set<string>, name: string)
    requires name in custom && name != "global" && name != "defaults"
    ensures GlobalText(custom - {name}, processed) != GlobalText(custom, processed) <==> IsExtra(name, processed)
  {
    hide IsExtra, ConfToString, ExtraText;
    var names := Sorting.SortedStrings(multiset(custom.Keys));
    SortedWithout(custom, name);
    ExtraTextWithout(names, custom, processed, name);
    assert name in names by {
      assert name in multiset(names);
    }
    var x, y := ExtraText(Without(names, name), custom - {name}, processed), ExtraText(names, custom, processed);
    assert Texts(custom - {name}, "global") == Texts(custom, "global");
    assert Texts(custom - {name}, "defaults") == Texts(custom, "defaults");
    var head := "global\n" + ConfToString(Texts(custom, "global"), true) + "\n\ndefaults\n"
        + ConfToString(Texts(custom, "defaults"), true);
    assert GlobalText(custom - {name}, processed) == head + AfterDefaults(x);
    assert GlobalText(custom, processed) == head + AfterDefaults(y);
    assert x != y ==> |AfterDefaults(x)| < |AfterDefaults(y)|;
  }

  predicate IsSectionWord(word: string) {
    word in ["backend", "global", "defaults"]
  }

  lemma FoldedWordIsToken(name: string, word: string)
    requires IsSectionWord(word) && EqualFold(name, word)
    ensures IsToken(name) && ' ' !in name && name[0] != 's'
  {
    forall j | 0 <= j < |name| ensures !IsSpace(name[j]) {
      assert Fold(name[j]) == Fold(word[j]);
    }
    assert Fold(name[0]) == Fold(word[0]);
    assert IsSpace(' ');
  }

  /** Section headers are found in any letter case, but sections are told apart exactly. */
  lemma HeaderOfWord(name: string, word: string)
    requires IsSectionWord(word) && EqualFold(name, word)
    ensures KindOf(name) == Header(name)
  {
    hide EqualFold, TrimSpace, IsSpace;
    FoldedWordIsToken(name, word);
    NoBlankNoSplit(name);
    TokenIsTrimmed(name);
    assert SERVER_PREFIX[0] == 's';
    assert KEYWORDS[0] == "backend" && KEYWORDS[2] == "global" && KEYWORDS[3] == "defaults";
  }

  /** A header such as "GLOBAL" or "Defaults" opens a section of its own, whose lines are printed
      nowhere outside frontends and backends. */
  lemma MiscasedSectionIsDropped(custom: FiledTexts, processed: set<string>, name: string, word: string)
    requires IsSectionWord(word) && EqualFold(name, word)
    requires name in custom && name != "global" && name != "defaults"
    ensures KindOf(name) == Header(name)
    ensures GlobalText(custom - {name}, processed) == GlobalText(custom, processed)
  {
    hide GlobalText;
    HeaderOfWord(name, word);
    SectionIsPrintedIff(custom, processed, name);
  }

  /** The server lines of a backend that is not configured are not printed either. */
  lemma UnusedServerLinesAreDropped(custom: FiledTexts, processed: set<string>, name: string)
    requires name in custom && HasPrefix(name, "backend") && HasSuffix(name, "_$IP")
    ensures GlobalText(custom - {name}, processed) == GlobalText(custom, processed)
  {
    hide GlobalText;
    assert "backend"[0] != "global"[0] && "backend"[0] != "defaults"[0];
    assert name[0] == 'b';
    SectionIsPrintedIff(custom, processed, name);
  }

  lemma TokenIsTrimmed(s: string)
    requires IsToken(s)
    ensures TrimSpace(s) == s
  {
    assert !Blank(s);
    assert TrimLeft(s) == s;
    assert TrimRight(s) == s;
  }
}
