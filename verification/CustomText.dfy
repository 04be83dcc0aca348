/**
 From the custom text to the texts of the configuration: what BuildCustomConfig prints into every
 server line, backend, frontend and into the rest, said of the lines of the text and of the output
 (provider/haproxy/haproxy_config_util.go:94-283).
 */
module CustomText {
  import opened Prelude
  import opened Text
  import opened Config
  import opened CustomSections
  import opened CustomLines
  import opened ServerLines
  import opened CustomConfig
  import Sorting

  // ---------------------------------------------------------------------------------------
  // The lines of the text
  // ---------------------------------------------------------------------------------------

  /** The lines of a text contain no line end and are the text when joined by them. */
  lemma {:induction false} SplitLinesIs(text: string)
    ensures SplitLines(text) != [] && Join(SplitLines(text), "\n") == text
    ensures forall i :: 0 <= i < |SplitLines(text)| ==> '\n' !in SplitLines(text)[i]
  {
    if text != "" {
      SplitLinesIs(text[1..]);
      var rest := SplitLines(text[1..]);
      if text[0] == '\n' {
        assert ([""] + rest)[1..] == rest;
        assert text == "" + "\n" + text[1..];
      } else {
        FirstLineGrows(text[0], rest);
        assert text == [text[0]] + text[1..];
      }
    }
  }

  lemma FirstLineGrows(c: char, lines: seq<string>)
    requires lines != []
    ensures Join([[c] + lines[0]] + lines[1..], "\n") == [c] + Join(lines, "\n")
  {
    var longer := [[c] + lines[0]] + lines[1..];
    if |lines| > 1 {
      assert longer[1..] == lines[1..];
      assert [c] + lines[0] + "\n" + Join(lines[1..], "\n") == [c] + (lines[0] + "\n" + Join(lines[1..], "\n"));
    }
  }

  // ---------------------------------------------------------------------------------------
  // What is filed under a name, defaults included
  // ---------------------------------------------------------------------------------------

  /** The defaults that no text line of their section starts with. */
  function Unoverridden(lines: seq<string>, section: string, defaults: map<string, string>): map<string, string> {
    map k | k in defaults && !OverriddenBy(lines, section, k) :: defaults[k]
  }

  /** The texts of a section, and what is left of its defaults after them. */
  ghost function AllTexts(lines: seq<string>, defaults: Sections, name: string): seq<string> {
    TextsOf(lines, name, |lines|)
    + if name in defaults then [DefaultText(Unoverridden(lines, name, defaults[name]))] else []
  }

  lemma LeftIs(lines: seq<string>, defaults: Sections, left: Sections, section: string)
    requires |Lines(lines)| == |lines| && LeavesRight(left, defaults, Lines(lines), |lines|) && section in defaults
    ensures left[section] == Unoverridden(lines, section, defaults[section])
  {
    hide Lines, Overridden, OverriddenBy;
    forall k ensures Overridden(Lines(lines), |lines|, section, k) <==> OverriddenBy(lines, section, k) {
      OverriddenIff(lines, section, k);
    }
  }

  lemma TextsAre(lines: seq<string>, defaults: Sections, p: Parser, name: string)
    requires |Lines(lines)| == |lines| && HasRead(p, defaults, Lines(lines), |lines|)
    ensures Texts(WithDefaults(p.custom, p.left), name) == AllTexts(lines, defaults, name)
    ensures name in WithDefaults(p.custom, p.left) <==> AllTexts(lines, defaults, name) != []
  {
    hide Lines, TextsOf, DefaultText, Unoverridden, FiledUnder, LeavesRight;
    FiledIs(lines, name, |lines|);
    assert Texts(p.custom, name) == TextsOf(lines, name, |lines|);
    SameSections(p, defaults, lines);
    if name in defaults {
      LeftIs(lines, defaults, p.left, name);
    } else {
      assert Texts(p.custom, name) + [] == Texts(p.custom, name);
    }
  }

  lemma SameSections(p: Parser, defaults: Sections, lines: seq<string>)
    requires |Lines(lines)| == |lines| && HasRead(p, defaults, Lines(lines), |lines|)
    ensures p.left.Keys == defaults.Keys
  {
  }

  ghost predicate IsFiled(custom: FiledTexts, lines: seq<string>, defaults: Sections, name: string) {
    && Texts(custom, name) == AllTexts(lines, defaults, name)
    && (name in custom <==> AllTexts(lines, defaults, name) != [])
  }

  /** A built configuration is printed from these texts. */
  lemma PrintedFrom(config: LoadBalancerConfig, defaults: Sections, text: string, out: LoadBalancerConfig)
    returns (custom: FiledTexts)
    requires IsBuilt(config, defaults, text, out)
    ensures forall name :: IsFiled(custom, SplitLines(text), defaults, name)
    ensures out.frontends == PrintFrontends(custom, config.frontends, config.policy)
    ensures out.config == GlobalText(custom, UsedNames(config.frontends))
  {
    hide PrintFrontends, GlobalText, UsedNames, PolicyAfter, WithDefaults, SplitLines, HasRead, AllTexts, Texts;
    var lines := SplitLines(text);
    assert |Lines(lines)| == |lines|;
    var p :| HasRead(p, defaults, Lines(lines), |lines|) && IsBuiltFrom(config, p, out);
    custom := WithDefaults(p.custom, p.left);
    forall name ensures IsFiled(custom, lines, defaults, name) {
      TextsAre(lines, defaults, p, name);
    }
  }

  // ---------------------------------------------------------------------------------------
  // The text of the defaults
  // ---------------------------------------------------------------------------------------

  lemma DefaultIsListed(defaults: map<string, string>, keys: set<string>, line: string) returns (k: string)
    requires keys <= defaults.Keys && line in DefaultLines(defaults, keys)
    ensures k in keys && line == DefaultLine(k, defaults[k])
    decreases keys
  {
    hide DefaultLine;
    var first :| first in keys && DefaultLines(defaults, keys) ==
      multiset{DefaultLine(first, defaults[first])} + DefaultLines(defaults, keys - {first});
    if line == DefaultLine(first, defaults[first]) {
      k := first;
    } else {
      k := DefaultIsListed(defaults, keys - {first}, line);
    }
  }

  ghost predicate ListsOnce(order: seq<string>, keys: set<string>) {
    && (forall i, j :: 0 <= i < j < |order| ==> order[i] != order[j])
    && (forall k :: k in order <==> k in keys)
  }

  lemma ListsOneMore(front: seq<string>, keys: set<string>, k: string)
    requires k in keys && ListsOnce(front, keys - {k})
    ensures ListsOnce(front + [k], keys)
  {
  }

  lemma OneIsSome(x: string, rest: multiset<string>)
    ensures multiset{x} + rest != multiset{}
  {
    assert x in multiset{x} + rest;
  }

  lemma WithoutLast(lines: seq<string>)
    requires lines != []
    ensures multiset(lines) == multiset{lines[|lines| - 1]} + multiset(lines[..|lines| - 1])
  {
    assert lines == lines[..|lines| - 1] + [lines[|lines| - 1]];
  }

  lemma SameRest(x: string, a: multiset<string>, b: multiset<string>)
    requires multiset{x} + a == multiset{x} + b
    ensures a == b
  {
    assert a == multiset{x} + a - multiset{x};
    assert b == multiset{x} + b - multiset{x};
  }

  lemma {:induction false} KeysInOrder(defaults: map<string, string>, keys: set<string>, lines: seq<string>)
    returns (order: seq<string>)
    requires keys <= defaults.Keys && multiset(lines) == DefaultLines(defaults, keys)
    ensures ListsOnce(order, keys) && |order| == |lines|
    ensures forall i :: 0 <= i < |lines| ==> order[i] in defaults
                                             && lines[i] == DefaultLine(order[i], defaults[order[i]])
  {
    hide DefaultLine, DefaultLines, ListsOnce;
    if lines == [] {
      order := [];
      if k :| k in keys {
        KeyHasLine(defaults, keys, k);
      }
      assert keys == {};
      NothingListed();
    } else {
      var n := |lines| - 1;
      WithoutLast(lines);
      var k := DefaultIsListed(defaults, keys, lines[n]);
      AnyDefaultFirst(defaults, keys, k);
      SameRest(lines[n], multiset(lines[..n]), DefaultLines(defaults, keys - {k}));
      var front := KeysInOrder(defaults, keys - {k}, lines[..n]);
      ListsOneMore(front, keys, k);
      order := front + [k];
    }
  }

  lemma NothingListed()
    ensures ListsOnce([], {})
  {
  }

  lemma KeyHasLine(defaults: map<string, string>, keys: set<string>, k: string)
    requires keys <= defaults.Keys && k in keys
    ensures DefaultLines(defaults, keys) != multiset{}
  {
    hide DefaultLine;
    AnyDefaultFirst(defaults, keys, k);
    OneIsSome(DefaultLine(k, defaults[k]), DefaultLines(defaults, keys - {k}));
  }

  lemma {:induction false} BlankBefore(before: string, s: string)
    requires Blank(before)
    ensures Fields(before + s) == Fields(s)
  {
    hide IsSpace;
    if before == "" {
      assert before + s == s;
    } else {
      BlankBefore(before[1..], s);
      assert (before + s)[1..] == before[1..] + s;
    }
  }

  lemma BlankAfter(s: string, after: string)
    requires Blank(after)
    ensures Fields(s + after) == Fields(s)
  {
    hide IsSpace, Fields;
    if after == "" {
      assert s + after == s;
    } else {
      FieldsOfConcat(s, after[0], after[1..]);
      BlankBefore(after[1..], "");
      assert s + after == s + [after[0]] + after[1..];
      assert after[1..] + "" == after[1..];
      assert Fields("") == [] by {
        EmptyHasNoFields();
      }
    }
  }

  lemma EmptyHasNoFields()
    ensures Fields("") == []
  {
  }

  lemma FieldsOfTrimmed(s: string)
    ensures Fields(TrimSpace(s)) == Fields(s)
  {
    hide Fields, TrimSpace, Blank;
    var before, after := TrimSpaceIs(s);
    BlankBefore(before, TrimSpace(s));
    BlankAfter(before + TrimSpace(s), after);
  }

  lemma DefaultLineRead(k: string, v: string)
    ensures Fields(DefaultLine(k, v)) == Fields(k) + Fields(v)
  {
    hide Fields, TrimSpace;
    FieldsOfTrimmed(TrimSpace(k) + " " + TrimSpace(v));
    FieldsOfTrimmed(k);
    FieldsOfTrimmed(v);
    FieldsOfConcat(TrimSpace(k), ' ', TrimSpace(v));
    assert TrimSpace(k) + " " + TrimSpace(v) == TrimSpace(k) + [' '] + TrimSpace(v);
  }

  /** The text of some defaults has a line for each of them, once, with the words of the directive and
      of its value; the lines are sorted. */
  lemma DefaultTextIs(defaults: map<string, string>) returns (lines: seq<string>, order: seq<string>)
    ensures DefaultText(defaults) == Join(lines, "\n    ")
    ensures Sorting.Sorted(lines, Sorting.Self, false)
    ensures ListsOnce(order, defaults.Keys) && |order| == |lines|
    ensures forall i :: 0 <= i < |lines| ==>
              order[i] in defaults && Fields(lines[i]) == Fields(order[i]) + Fields(defaults[order[i]])
  {
    hide Fields, DefaultLine, Join;
    lines := Sorting.SortedStrings(DefaultLines(defaults, defaults.Keys));
    order := KeysInOrder(defaults, defaults.Keys, lines);
    forall i | 0 <= i < |lines| ensures Fields(lines[i]) == Fields(order[i]) + Fields(defaults[order[i]]) {
      DefaultLineRead(order[i], defaults[order[i]]);
    }
    NothingJoined("\n    ");
  }

  lemma NothingJoined(sep: string)
    ensures Join([], sep) == ""
  {
  }

  // ---------------------------------------------------------------------------------------
  // Server lines
  // ---------------------------------------------------------------------------------------

  /** The words of all these texts, in order. */
  function AllWords(texts: seq<string>): seq<string> {
    if texts == [] then [] else Fields(texts[0]) + AllWords(texts[1..])
  }

  lemma FieldsAcrossLines(a: string, b: string)
    ensures Fields(a + "\n    " + b) == Fields(a) + Fields(b)
  {
    hide Fields;
    FieldsOfConcat(a, '\n', "    " + b);
    BlankBefore("    ", b);
    assert a + "\n    " + b == a + ['\n'] + ("    " + b);
  }

  lemma {:induction false} JoinedRead(texts: seq<string>)
    ensures Fields(Join(texts, "\n    ")) == AllWords(texts)
  {
    hide Fields;
    if texts == [] {
      EmptyHasNoFields();
    } else if |texts| == 1 {
      assert AllWords(texts[1..]) == [];
    } else {
      JoinedRead(texts[1..]);
      FieldsAcrossLines(texts[0], Join(texts[1..], "\n    "));
    }
  }

  lemma CustomTextRead(texts: seq<string>)
    ensures Fields(ConfToString(texts, false)) == AllWords(texts)
  {
    hide Fields, AllWords, Join;
    JoinedRead(texts);
    NothingJoined("\n    ");
  }

  // ---------------------------------------------------------------------------------------
  // The cookie of a backend
  // ---------------------------------------------------------------------------------------

  /** The frontend carries cookies. */
  predicate CarriesCookies(policy: Option<StickinessPolicy>, fe: FrontendService) {
    policy.Some? && policy.value.mode != "" && (EqualFold(fe.protocol, "http") || EqualFold(fe.protocol, "https"))
  }

  /** The policy a backend is printed with: its cookie is the given one, or the first name of any
      backend of a frontend that carries cookies up to this one. */
  function CookiePolicy(policy: Option<StickinessPolicy>, fes: seq<FrontendService>, f: nat, b: nat)
    : Option<StickinessPolicy>
    requires f < |fes| && b < |fes[f].backends|
  {
    if CarriesCookies(policy, fes[f]) then
      var before := StickyBackends(policy, fes[..f]) + fes[f].backends[..b + 1];
      Some(policy.value.(cookie := Cookie(policy.value, before)))
    else None
  }

  lemma {:induction false} NoPolicyAfter(fes: seq<FrontendService>)
    ensures PolicyAfter(None, fes) == None
  {
    if fes != [] {
      NoPolicyAfter(fes[..|fes| - 1]);
    }
  }

  lemma SameFrontendCookies(policy: Option<StickinessPolicy>, fes: seq<FrontendService>, fe: FrontendService)
    ensures Sticky(PolicyAfter(policy, fes), fe) <==> CarriesCookies(policy, fe)
  {
    hide EqualFold, StickyBackends, FirstName, PolicyAfter;
    if policy.None? {
      NoPolicyAfter(fes);
    } else {
      PolicyAfterIs(policy.value, fes);
    }
  }

  lemma BackendPrinted(custom: FiledTexts, policy: Option<StickinessPolicy>, fes: seq<FrontendService>, f: nat, b: nat)
    requires f < |fes| && b < |fes[f].backends|
    ensures var fe := PrintFrontends(custom, fes, policy)[f];
            && |fe.backends| == |fes[f].backends|
            && fe.backends[b] == PrintBackend(custom, fes[f].backends[b], CookiePolicy(policy, fes, f, b))
  {
    hide ConfToString, Texts, IsAcceptProxy, PrintBackend, PolicyAfter, StickyBackends, Cookie, Sticky, CarriesCookies;
    SameFrontendCookies(policy, fes[..f], fes[f]);
    SameFrontendCookies(policy, [], fes[f]);
    assert PolicyAfter(policy, []) == policy by {
      NothingChangesPolicy(policy);
    }
    var so := PolicyAfter(policy, fes[..f]);
    assert PrintFrontends(custom, fes, policy)[f] == PrintFrontend(custom, fes[f], so);
    if CarriesCookies(policy, fes[f]) {
      assert policy.Some? by {
        CookiesNeedPolicy(policy, fes[f]);
      }
      BackendsShareTheFirstCookie(custom, policy.value, fes, f, b);
    } else {
      NobodyNamed(fes[f].backends[..b + 1]);
    }
  }

  lemma NothingChangesPolicy(policy: Option<StickinessPolicy>)
    ensures PolicyAfter(policy, []) == policy
  {
  }

  lemma CookiesNeedPolicy(policy: Option<StickinessPolicy>, fe: FrontendService)
    requires CarriesCookies(policy, fe)
    ensures policy.Some?
  {
  }

  lemma {:induction false} NobodyNamed(bes: seq<BackendService>)
    ensures NamedByAll(None, bes) == None
  {
    if bes != [] {
      NobodyNamed(bes[..|bes| - 1]);
    }
  }

  // ---------------------------------------------------------------------------------------
  // Server lines of the output
  // ---------------------------------------------------------------------------------------

  lemma NoDefaultsThere(lines: seq<string>, defaults: Sections, name: string)
    requires KeywordSections(defaults) && ' ' in name
    ensures AllTexts(lines, defaults, name) == TextsOf(lines, name, |lines|)
  {
    hide TextsOf, DefaultText, Unoverridden;
    if name in defaults {
      var i :| 0 <= i < |KEYWORDS| && KEYWORDS[i] == name;
      KeywordsAreWords(i);
    }
    assert TextsOf(lines, name, |lines|) + [] == TextsOf(lines, name, |lines|);
  }

  lemma ServerSectionHasBlank(uuid: string)
    ensures ' ' in "backend " + uuid + "_$IP" && ' ' in "backend " + uuid && ' ' in "frontend " + uuid
  {
    assert ("backend " + uuid)[7] == ' ' && ("backend " + uuid + "_$IP")[7] == ' ' && ("frontend " + uuid)[8] == ' ';
  }

  lemma EndpointPrinted(custom: FiledTexts, policy: Option<StickinessPolicy>, fes: seq<FrontendService>, p: Place)
    requires Within(PrintFrontends(custom, fes, policy), p)
    ensures Within(fes, p)
    ensures EndpointAt(PrintFrontends(custom, fes, policy), p) ==
            PrintEndpoint(custom, BackendOf(fes, p), CarriesCookies(policy, fes[p.fe]), EndpointAt(fes, p))
  {
    hide PrintFrontends, PrintEndpoint, BackendText, CarriesCookies, Cookie, StickyBackends;
    PrintedPlace(custom, fes, policy, p);
    BackendPrinted(custom, policy, fes, p.fe, p.be);
  }

  /** The words of a printed server line: first those after "server $IP" in every server line that
      stands in the section of its backend, in the order of the text; then the health check with its
      own port, interval and thresholds, the resolvers of a host name, its cookie and its weight.
      Nothing else comes first unless there is text under a header that ends in "_$IP". */
  lemma ServerLineIs(config: LoadBalancerConfig, defaults: Sections, text: string, out: LoadBalancerConfig, p: Place)
    requires IsBuilt(config, defaults, text, out) && KeywordSections(defaults)
    requires Within(out.frontends, p) && IsToken(EndpointAt(out.frontends, p).name)
    ensures Within(config.frontends, p)
    ensures var lines, be, ep := SplitLines(text), BackendOf(config.frontends, p), EndpointAt(config.frontends, p);
            var section, more := "backend " + be.uuid, MoreWords(config, p);
            var words := Fields(EndpointAt(out.frontends, p).config);
            && words == AllWords(TextsOf(lines, section + "_$IP", |lines|)) + more
            && (!HasText(lines, section + "_$IP", |lines|) ==>
                  words == AllWords(ServerTexts(lines, section, |lines|)) + more)
            && EndpointAt(out.frontends, p).(config := "") == ep.(config := "")
  {
    hide Fields, IsToken, IsBuilt, PrintFrontends, TextsOf, AllTexts, AllWords, CarriesCookies, SplitLines;
    hide CheckWords, ResolverWords, CookieWords, WeightWords, ConfToString, ServerTexts, HasText, LineText, WeightText;
    var custom := PrintedFrom(config, defaults, text, out);
    EndpointPrinted(custom, config.policy, config.frontends, p);
    var lines, be, ep := SplitLines(text), BackendOf(config.frontends, p), EndpointAt(config.frontends, p);
    var name := "backend " + be.uuid + "_$IP";
    ServerLineWords(custom, be, CarriesCookies(config.policy, config.frontends[p.fe]), ep);
    ServerSectionHasBlank(be.uuid);
    NoDefaultsThere(lines, defaults, name);
    assert IsFiled(custom, lines, defaults, name);
    CustomTextRead(TextsOf(lines, name, |lines|));
    OnlyServerLines(lines, "backend " + be.uuid, |lines|);
  }

  /** What follows the custom words of a server line. */
  function MoreWords(config: LoadBalancerConfig, p: Place): seq<string>
    requires Within(config.frontends, p)
  {
    var be, ep := BackendOf(config.frontends, p), EndpointAt(config.frontends, p);
    CheckWords(be) + ResolverWords(be, ep)
    + CookieWords(CarriesCookies(config.policy, config.frontends[p.fe]), ep) + WeightWords(ep.weight)
  }

  lemma BackendStarts(t: string)
    requires |t| > 8 && t[..8] == "backend "
    ensures t[..7] == "backend" && t[7] == ' ' && t[0] == 'b'
    ensures StartsWith(t, "backend") && "backend" in SECTION_WORDS
  {
    assert t[..7] == t[..8][..7];
  }

  lemma OwnName(t: string)
    requires |t| > 8 && t[..8] == "backend " && !IsSpace(t[8]) && !IsSpace(t[|t| - 1])
    ensures Names(t, "backend", t)
  {
    hide IsSpace, StartsWith, TrimSpace;
    BackendStarts(t);
    RestTrims(t, 7);
    Trimmed(t[8..]);
    assert t[..7] + " " + t[8..] == t;
    assert |"backend"| == 7;
  }

  lemma OwnHeader(t: string)
    requires |t| > 8 && t[..8] == "backend " && !IsSpace(t[8]) && !IsSpace(t[|t| - 1])
    ensures Opens(t, t)
  {
    hide IsSpace, StartsWith, TrimSpace, Names;
    BackendStarts(t);
    LetterIsNoSpace();
    Trimmed(t);
    OwnName(t);
    assert "server $IP"[0] == 's';
  }

  lemma LetterIsNoSpace()
    ensures !IsSpace('b') && !IsSpace('P')
  {
  }

  /** A text line under a header such as "backend foo_$IP" gets onto the server lines of "foo" as well. */
  lemma HeaderOfServersAddsText(uuid: string, line: string)
    requires IsToken(uuid) && IsText(line)
    ensures HasText(["backend " + uuid + "_$IP", line], "backend " + uuid + "_$IP", 2)
  {
    hide IsSpace, IsText, Opens;
    var header := "backend " + uuid + "_$IP";
    var lines := [header, line];
    assert header[..8] == "backend " && header[8] == uuid[0] && header[|header| - 1] == 'P';
    LetterIsNoSpace();
    OwnHeader(header);
    assert Opens(lines[0], header);
    assert StandsIn(lines, 1, header);
  }

  // ---------------------------------------------------------------------------------------
  // Backends and frontends of the output
  // ---------------------------------------------------------------------------------------

  /** Every line indented, on a line of its own. */
  function Indented(lines: seq<string>): string {
    if lines == [] then ""
    else if |lines| == 1 then "    " + lines[0]
    else Indented(lines[..|lines| - 1]) + "\n" + "    " + lines[|lines| - 1]
  }

  lemma LineIndented(line: string)
    ensures NextLine(line) == "\n" + "    " + line
  {
    assert "\n    " == "\n" + "    ";
  }

  lemma {:induction false} IndentedIs(lines: seq<string>)
    ensures ConfToString(lines, true) == Indented(lines)
  {
    hide NextLine;
    if lines == [] {
    } else if |lines| == 1 {
      assert Join(lines, "\n    ") == lines[0];
    } else {
      var n := |lines| - 1;
      IndentedIs(lines[..n]);
      OneMoreLine(lines[..n], lines[n]);
      LineIndented(lines[n]);
      assert lines == lines[..n] + [lines[n]];
      assert Indented(lines[..n]) + "\n" + "    " + lines[n] == Indented(lines[..n]) + ("\n" + "    " + lines[n]);
    }
  }

  /** A backend has, one per line and indented, the text lines of its own section, those of the
      section "backend" with what is left of its defaults, the check timeout and request if its
      health is checked, and its cookie. */
  lemma BackendIs(config: LoadBalancerConfig, defaults: Sections, text: string, out: LoadBalancerConfig, f: nat, b: nat)
    returns (more: seq<string>)
    requires IsBuilt(config, defaults, text, out) && KeywordSections(defaults) && "backend" in defaults
    requires f < |config.frontends| && b < |config.frontends[f].backends|
    ensures |out.frontends| == |config.frontends|
    ensures |out.frontends[f].backends| == |config.frontends[f].backends|
    ensures var lines, be := SplitLines(text), config.frontends[f].backends[b];
            out.frontends[f].backends[b].config ==
            Indented(TextsOf(lines, "backend " + be.uuid, |lines|) + AllTexts(lines, defaults, "backend") + more)
    ensures var be := config.frontends[f].backends[b];
            WordsOfEach(more) == BackendWords(be, CookiePolicy(config.policy, config.frontends, f, b))
    ensures var be := config.frontends[f].backends[b];
            out.frontends[f].backends[b].(config := "", endpoints := []) == be.(config := "", endpoints := [])
  {
    hide IsBuilt, PrintFrontends, TextsOf, AllTexts, CookiePolicy, SplitLines, Indented, ConfToString, BackendText;
    hide BackendLines, BackendWords, WordsOfEach, Texts, PrintEndpoints;
    var custom := PrintedFrom(config, defaults, text, out);
    BackendPrinted(custom, config.policy, config.frontends, f, b);
    BuiltPlace(config, defaults, text, out, Place(f, b, 0));
    var lines, be := SplitLines(text), config.frontends[f].backends[b];
    var policy := CookiePolicy(config.policy, config.frontends, f, b);
    var section := "backend " + be.uuid;
    ServerSectionHasBlank(be.uuid);
    NoDefaultsThere(lines, defaults, section);
    assert IsFiled(custom, lines, defaults, section) && IsFiled(custom, lines, defaults, "backend");
    BackendHasDefaults(lines, defaults);
    BackendTextIs(custom, be, policy);
    BackendLinesRead(be, policy);
    more := BackendLines(be, policy);
    IndentedIs(TextsOf(lines, section, |lines|) + AllTexts(lines, defaults, "backend") + more);
  }

  lemma BackendHasDefaults(lines: seq<string>, defaults: Sections)
    requires "backend" in defaults
    ensures AllTexts(lines, defaults, "backend") != []
  {
  }

  predicate SaysAcceptProxy(line: string) {
    EqualFold(TrimSpace(line), "accept-proxy")
  }

  /** The other lines. */
  function OtherLines(lines: seq<string>): seq<string> {
    if lines == [] then []
    else (if SaysAcceptProxy(lines[0]) then [] else [lines[0]]) + OtherLines(lines[1..])
  }

  lemma {:induction false} OtherLinesNext(lines: seq<string>, last: string)
    ensures OtherLines(lines + [last]) == OtherLines(lines) + if SaysAcceptProxy(last) then [] else [last]
  {
    hide SaysAcceptProxy;
    if lines == [] {
      assert lines + [last] == [last] && [last][1..] == [];
    } else {
      OtherLinesNext(lines[1..], last);
      assert (lines + [last])[1..] == lines[1..] + [last];
    }
  }

  lemma {:induction false} OtherLinesAre(lines: seq<string>)
    ensures WithoutAcceptProxy(lines) == OtherLines(lines)
  {
    hide EqualFold, TrimSpace;
    if lines != [] {
      var n := |lines| - 1;
      OtherLinesAre(lines[..n]);
      OtherLinesNext(lines[..n], lines[n]);
      assert lines == lines[..n] + [lines[n]];
    }
  }

  /** A frontend has the text lines of its section, but for "accept-proxy" in any letter case: that
      sets the mark instead. */
  lemma FrontendIs(config: LoadBalancerConfig, defaults: Sections, text: string, out: LoadBalancerConfig, f: nat)
    requires IsBuilt(config, defaults, text, out) && KeywordSections(defaults) && f < |config.frontends|
    ensures |out.frontends| == |config.frontends|
    ensures var lines, fe := SplitLines(text), config.frontends[f];
            var own := TextsOf(lines, "frontend " + fe.name, |lines|);
            && out.frontends[f].config == Indented(OtherLines(own))
            && (out.frontends[f].acceptProxy <==>
                  fe.acceptProxy || exists i :: 0 <= i < |own| && SaysAcceptProxy(own[i]))
            && |out.frontends[f].backends| == |fe.backends|
    ensures out.frontends[f].(config := "", acceptProxy := false, backends := []) ==
            config.frontends[f].(config := "", acceptProxy := false, backends := [])
  {
    hide IsBuilt, TextsOf, AllTexts, SplitLines, Indented, OtherLines, ConfToString, PrintBackends, PolicyAfter;
    hide WithoutAcceptProxy, EqualFold, TrimSpace, PolicyOf, Texts;
    var custom := PrintedFrom(config, defaults, text, out);
    var lines, fe := SplitLines(text), config.frontends[f];
    var own := TextsOf(lines, "frontend " + fe.name, |lines|);
    ServerSectionHasBlank(fe.name);
    NoDefaultsThere(lines, defaults, "frontend " + fe.name);
    assert IsFiled(custom, lines, defaults, "frontend " + fe.name);
    var so := PolicyAfter(config.policy, config.frontends[..f]);
    assert out.frontends[f] == PrintFrontend(custom, fe, so);
    OtherLinesAre(own);
    IndentedIs(OtherLines(own));
    assert forall i :: 0 <= i < |own| ==> (IsAcceptProxy(own[i]) <==> SaysAcceptProxy(own[i]));
    PrintedBackendCount(custom, fe, so);
  }

  lemma PrintedBackendCount(custom: FiledTexts, fe: FrontendService, policy: Option<StickinessPolicy>)
    ensures |PrintFrontend(custom, fe, policy).backends| == |fe.backends|
  {
    hide ConfToString, WithoutAcceptProxy, IsAcceptProxy, PrintBackend, Texts;
  }

  // ---------------------------------------------------------------------------------------
  // The rest of the output
  // ---------------------------------------------------------------------------------------

  /** The section is not of "global", "defaults" or "backend" in any letter case, no frontend or
      backend is named in it, and it does not look like one of server lines. */
  predicate IsUnused(fes: seq<FrontendService>, name: string) {
    && !EqualFold(name, "global") && !EqualFold(name, "backend") && !EqualFold(name, "defaults")
    && (forall f :: 0 <= f < |fes| ==> name != "frontend " + fes[f].name)
    && (forall f, b :: 0 <= f < |fes| && 0 <= b < |fes[f].backends| ==> name != "backend " + fes[f].backends[b].uuid)
    && !("backend" <= name && |name| >= 4 && name[|name| - 4..] == "_$IP")
  }

  predicate NamesBackend(bes: seq<BackendService>, section: string) {
    exists b :: 0 <= b < |bes| && section in BackendNames(bes[b])
  }

  lemma {:induction false} FrontendNamesIff(name: string, bes: seq<BackendService>, section: string)
    ensures section in FrontendNames(name, bes) <==> section == "frontend " + name || NamesBackend(bes, section)
  {
    hide BackendNames;
    if bes != [] {
      var n := |bes| - 1;
      FrontendNamesIff(name, bes[..n], section);
      forall b | 0 <= b < n ensures bes[..n][b] == bes[b] {}
      if NamesBackend(bes, section) && section !in BackendNames(bes[n]) {
        var b :| 0 <= b < |bes| && section in BackendNames(bes[b]);
        assert section in BackendNames(bes[..n][b]);
      }
      if NamesBackend(bes[..n], section) {
        var b :| 0 <= b < n && section in BackendNames(bes[..n][b]);
        assert section in BackendNames(bes[b]);
      }
    }
  }

  predicate NamesFrontend(fes: seq<FrontendService>, section: string) {
    exists f :: 0 <= f < |fes| && section in FrontendNames(fes[f].name, fes[f].backends)
  }

  lemma {:induction false} UsedNamesIff(fes: seq<FrontendService>, section: string)
    ensures section in UsedNames(fes) <==> NamesFrontend(fes, section)
  {
    hide FrontendNames;
    if fes != [] {
      var n := |fes| - 1;
      UsedNamesIff(fes[..n], section);
      if NamesFrontend(fes, section) && section !in FrontendNames(fes[n].name, fes[n].backends) {
        var f :| 0 <= f < |fes| && section in FrontendNames(fes[f].name, fes[f].backends);
        assert section in FrontendNames(fes[..n][f].name, fes[..n][f].backends);
      }
      if NamesFrontend(fes[..n], section) {
        var f :| 0 <= f < n && section in FrontendNames(fes[..n][f].name, fes[..n][f].backends);
        assert section in FrontendNames(fes[f].name, fes[f].backends);
      }
    }
  }

  lemma ServersOfBackend(uuid: string)
    ensures HasPrefix("backend " + uuid + "_$IP", "backend") && HasSuffix("backend " + uuid + "_$IP", "_$IP")
  {
    var name := "backend " + uuid + "_$IP";
    assert name[..7] == "backend";
  }

  lemma ExtraIff(fes: seq<FrontendService>, name: string)
    ensures IsExtra(name, UsedNames(fes)) <==> IsUnused(fes, name)
  {
    hide EqualFold, UsedNames, FrontendNames;
    UsedNamesIff(fes, name);
    forall f | 0 <= f < |fes|
      ensures name in FrontendNames(fes[f].name, fes[f].backends) <==>
              name == "frontend " + fes[f].name || NamesBackend(fes[f].backends, name)
    {
      FrontendNamesIff(fes[f].name, fes[f].backends, name);
    }
    if name in UsedNames(fes) && !(HasPrefix(name, "backend") && HasSuffix(name, "_$IP")) {
      UsedIsNamed(fes, name);
    }
    forall f, b | 0 <= f < |fes| && 0 <= b < |fes[f].backends| && name == "backend " + fes[f].backends[b].uuid
      ensures NamesFrontend(fes, name)
    {
      assert name in BackendNames(fes[f].backends[b]);
      assert NamesBackend(fes[f].backends, name);
    }
  }

  lemma UsedIsNamed(fes: seq<FrontendService>, name: string)
    requires NamesFrontend(fes, name) && !(HasPrefix(name, "backend") && HasSuffix(name, "_$IP"))
    ensures !IsUnused(fes, name)
  {
    hide EqualFold, FrontendNames;
    var f :| 0 <= f < |fes| && name in FrontendNames(fes[f].name, fes[f].backends);
    FrontendNamesIff(fes[f].name, fes[f].backends, name);
    if name != "frontend " + fes[f].name {
      var b :| 0 <= b < |fes[f].backends| && name in BackendNames(fes[f].backends[b]);
      ServersOfBackend(fes[f].backends[b].uuid);
    }
  }

  /** The sections with these names one after the other, each under its header. */
  ghost function Blocks(names: seq<string>, lines: seq<string>, defaults: Sections): string {
    if names == [] then ""
    else
      var front, last := names[..|names| - 1], names[|names| - 1];
      Blocks(front, lines, defaults) + (last + "\n" + Indented(AllTexts(lines, defaults, last)) + "\n")
  }

  predicate SortedOnce(names: seq<string>) {
    forall i, j :: 0 <= i < j < |names| ==> names[i] != names[j] && Sorting.AtMost(names[i], names[j])
  }

  lemma SomeAreSorted(names: seq<string>, some: seq<string>, last: string)
    requires SortedOnce(names + [last]) && SortedOnce(some)
    requires forall name :: name in some ==> name in names
    ensures SortedOnce(some + [last])
  {
    hide Sorting.AtMost;
    forall i | 0 <= i < |some| ensures some[i] != last && Sorting.AtMost(some[i], last) {
      assert some[i] in names;
      var j :| 0 <= j < |names| && names[j] == some[i];
      assert (names + [last])[j] == some[i] && (names + [last])[|names|] == last;
    }
  }

  lemma FrontIsSorted(front: seq<string>, last: string)
    requires SortedOnce(front + [last])
    ensures SortedOnce(front)
  {
    hide Sorting.AtMost;
    forall i, j | 0 <= i < j < |front| ensures front[i] != front[j] && Sorting.AtMost(front[i], front[j]) {
      assert (front + [last])[i] == front[i] && (front + [last])[j] == front[j];
    }
  }

  lemma {:induction false} ExtraBlocks(names: seq<string>, custom: FiledTexts, fes: seq<FrontendService>,
        lines: seq<string>, defaults: Sections)
    returns (extra: seq<string>)
    requires SortedOnce(names)
    requires forall name :: IsFiled(custom, lines, defaults, name)
    ensures SortedOnce(extra)
    ensures forall name :: name in extra <==> name in names && IsUnused(fes, name)
    ensures ExtraText(names, custom, UsedNames(fes)) == Blocks(extra, lines, defaults)
  {
    hide IsExtra, IsUnused, ConfToString, Indented, AllTexts, UsedNames, Texts, SortedOnce;
    if names == [] {
      extra := [];
    } else {
      var front, last := names[..|names| - 1], names[|names| - 1];
      assert names == front + [last];
      FrontIsSorted(front, last);
      var before := ExtraBlocks(front, custom, fes, lines, defaults);
      SomeAreSorted(front, before, last);
      ExtraIff(fes, last);
      assert IsFiled(custom, lines, defaults, last);
      IndentedIs(AllTexts(lines, defaults, last));
      if IsUnused(fes, last) {
        extra := before + [last];
        assert extra[..|extra| - 1] == before;
      } else {
        extra := before;
        assert ExtraText(front, custom, UsedNames(fes)) + "" == ExtraText(front, custom, UsedNames(fes));
      }
    }
  }

  /** Everything outside frontends and backends: the text lines of "global" and of "defaults", each
      with what is left of its defaults, and after them, sorted by name, exactly those sections that
      have texts and that nothing else uses. */
  lemma GlobalIs(config: LoadBalancerConfig, defaults: Sections, text: string, out: LoadBalancerConfig)
    returns (extra: seq<string>)
    requires IsBuilt(config, defaults, text, out)
    ensures SortedOnce(extra)
    ensures forall name :: name in extra <==>
              AllTexts(SplitLines(text), defaults, name) != [] && IsUnused(config.frontends, name)
    ensures out.config ==
            "global\n" + Indented(AllTexts(SplitLines(text), defaults, "global"))
            + "\n\ndefaults\n" + Indented(AllTexts(SplitLines(text), defaults, "defaults"))
            + if extra == [] then "" else "\n\n" + Blocks(extra, SplitLines(text), defaults)
  {
    hide IsBuilt, AllTexts, SplitLines, Indented, ConfToString, IsUnused, UsedNames, PrintFrontends, ExtraText, Texts;
    hide Blocks;
    var custom := PrintedFrom(config, defaults, text, out);
    var lines := SplitLines(text);
    var names := Sorting.SortedStrings(multiset(custom.Keys));
    NamesOnce(custom);
    extra := ExtraBlocks(names, custom, config.frontends, lines, defaults);
    forall name ensures name in custom <==> AllTexts(lines, defaults, name) != [] {
      assert IsFiled(custom, lines, defaults, name);
    }
    assert IsFiled(custom, lines, defaults, "global") && IsFiled(custom, lines, defaults, "defaults");
    IndentedIs(AllTexts(lines, defaults, "global"));
    IndentedIs(AllTexts(lines, defaults, "defaults"));
    BlocksAreSome(extra, lines, defaults);
  }

  lemma BlocksAreSome(names: seq<string>, lines: seq<string>, defaults: Sections)
    ensures Blocks(names, lines, defaults) == "" <==> names == []
  {
    hide Indented, AllTexts;
  }

  lemma NamesOnce(custom: FiledTexts)
    ensures var names := Sorting.SortedStrings(multiset(custom.Keys));
            SortedOnce(names) && forall name :: name in names <==> name in custom
  {
    var names := Sorting.SortedStrings(multiset(custom.Keys));
    forall name ensures name in names <==> name in custom {
      assert name in names <==> name in multiset(names);
    }
    forall i, j | 0 <= i < j < |names| ensures names[i] != names[j] && Sorting.AtMost(names[i], names[j]) {
      assert Sorting.InOrder(Sorting.Self(names[i]), Sorting.Self(names[j]), false);
      if names[i] == names[j] {
        TwiceInSeq(names, i, j);
      }
    }
  }

  lemma TwiceInSeq(names: seq<string>, i: nat, j: nat)
    requires i < j < |names| && names[i] == names[j]
    ensures multiset(names)[names[i]] >= 2
  {
    assert names == names[..i] + [names[i]] + names[i + 1..j] + [names[j]] + names[j + 1..];
  }

  /** The policy of the output is the given one; its cookie is the first name of any backend of a
      frontend that carries cookies, unless it was given. */
  lemma PolicyIs(config: LoadBalancerConfig, defaults: Sections, text: string, out: LoadBalancerConfig)
    requires IsBuilt(config, defaults, text, out)
    ensures out.policy.Some? <==> config.policy.Some?
    ensures config.policy.Some? ==>
              out.policy.value == config.policy.value.(cookie := out.policy.value.cookie)
              && out.policy.value.cookie ==
                   Cookie(config.policy.value, StickyBackends(config.policy, config.frontends))
  {
    hide PrintFrontends, GlobalText, UsedNames, WithDefaults, SplitLines, HasRead, Lines, StickyBackends, PolicyAfter;
    if config.policy.Some? {
      PolicyAfterIs(config.policy.value, config.frontends);
    } else {
      NoPolicyAfter(config.frontends);
    }
  }
}
