/**
 The names backends get when a rule names none (config/config.go:178-185), and which backends
 then share one name, and so one section and one set of runtime keys.
 */
module BackendNames {
  import opened Text
  import opened Config
  import opened RuleMerge

  // ---------------------------------------------------------------------------------------
  // What a name looks like
  // ---------------------------------------------------------------------------------------

  function Alphanumerics(s: string): string {
    if s == "" then "" else (if IsAlphanumeric(s[0]) then [s[0]] else "") + Alphanumerics(s[1..])
  }

  /** A formulated name keeps the letters and digits of its key in order. */
  lemma {:induction false} NameKeepsLetters(s: string)
    ensures Alphanumerics(Sanitized(s)) == Alphanumerics(s)
  {
    if s != "" {
      NameKeepsLetters(s[1..]);
      if IsAlphanumeric(s[0]) {
        assert Sanitized(s)[1..] == Sanitized(s[1..]);
      } else if |s| == 1 || IsAlphanumeric(s[1]) {
        assert Sanitized(s)[1..] == Sanitized(s[1..]);
      }
    }
  }

  predicate SingleUnderscores(name: string) {
    && (forall i :: 0 <= i < |name| ==> IsAlphanumeric(name[i]) || name[i] == '_')
    && (forall i :: 0 < i < |name| ==> name[i - 1] != '_' || name[i] != '_')
  }

  /** It separates them by single underscores, and starts or ends in one exactly if the key does
      not start or end in a letter or digit. */
  lemma {:induction false} NameShape(s: string)
    ensures SingleUnderscores(Sanitized(s)) && (Sanitized(s) == "" <==> s == "")
    ensures s != "" ==> (Sanitized(s)[0] == '_' <==> !IsAlphanumeric(s[0]))
    ensures s != "" ==> (Sanitized(s)[|Sanitized(s)| - 1] == '_' <==> !IsAlphanumeric(s[|s| - 1]))
  {
    if |s| > 1 {
      NameShape(s[1..]);
      var rest := Sanitized(s[1..]);
      if IsAlphanumeric(s[0]) {
        NextCharacter(s[0], rest);
      } else if IsAlphanumeric(s[1]) {
        NextCharacter('_', rest);
      }
    } else if |s| == 1 {
      assert Sanitized(s[1..]) == "";
    }
  }

  lemma NextCharacter(c: char, name: string)
    requires SingleUnderscores(name) && (IsAlphanumeric(c) || (c == '_' && name != "" && name[0] != '_'))
    ensures SingleUnderscores([c] + name)
  {
  }

  // ---------------------------------------------------------------------------------------
  // Which keys get the same name
  // ---------------------------------------------------------------------------------------

  /** The maximal runs of letters and digits, in order. */
  function Words(s: string): (words: seq<string>)
    ensures s != "" && IsAlphanumeric(s[0]) ==> words != []
  {
    if s == "" then []
    else if !IsAlphanumeric(s[0]) then Words(s[1..])
    else if |s| > 1 && IsAlphanumeric(s[1]) then [[s[0]] + Words(s[1..])[0]] + Words(s[1..])[1..]
    else [[s[0]]] + Words(s[1..])
  }

  /** Another character at the front, or at the end. */
  predicate Lead(s: string) {
    s != "" && !IsAlphanumeric(s[0])
  }

  predicate Trail(s: string) {
    s != "" && !IsAlphanumeric(s[|s| - 1])
  }

  function Mark(present: bool): string {
    if present then "_" else ""
  }

  function Rendered(words: seq<string>, lead: bool, trail: bool): string {
    if words == [] then Mark(lead) else Mark(lead) + Join(words, "_") + Mark(trail)
  }

  lemma JoinFirst(first: string, words: seq<string>)
    ensures Join([first] + words, "_") == first + if words == [] then "" else Mark(true) + Join(words, "_")
  {
    assert ([first] + words)[1..] == words;
  }

  lemma FirstWord(c: char, words: seq<string>, trail: bool)
    requires words != []
    ensures Rendered([[c]] + words, false, trail) == [c] + Rendered(words, true, trail)
  {
    var rest := Join(words, "_");
    JoinFirst([c], words);
    assert Mark(false) + ([c] + (Mark(true) + rest)) + Mark(trail) == [c] + (Mark(true) + rest + Mark(trail)) by {
      hide *;
      assert "" + ([c] + (Mark(true) + rest)) == [c] + (Mark(true) + rest);
    }
  }

  lemma OnlyWord(c: char, trail: bool)
    ensures Rendered([[c]], false, trail) == [c] + Mark(trail)
  {
    assert Mark(false) + [c] == [c];
  }

  lemma RenderedLonger(c: char, words: seq<string>, trail: bool)
    requires words != []
    ensures Rendered([[c] + words[0]] + words[1..], false, trail) == [c] + Rendered(words, false, trail)
  {
    var longer := [[c] + words[0]] + words[1..];
    assert longer[1..] == words[1..] && longer[0] == [c] + words[0];
    assert Join(longer, "_") == [c] + Join(words, "_");
  }

  lemma {:induction false} NoWordsNoLetters(s: string)
    requires Words(s) == [] && s != ""
    ensures Lead(s) && Trail(s)
  {
    if |s| > 1 {
      NoWordsNoLetters(s[1..]);
    }
  }

  lemma LeadMark(words: seq<string>, trail: bool)
    ensures Rendered([], true, trail) == "_" && Rendered([], false, trail) == ""
    ensures words != [] ==> Rendered(words, true, trail) == "_" + Rendered(words, false, trail)
  {
    hide Join;
    if words != [] {
      var rest := Join(words, "_") + Mark(trail);
      assert Mark(true) + Join(words, "_") + Mark(trail) == "_" + rest;
      assert Mark(false) + Join(words, "_") + Mark(trail) == rest;
    }
  }

  /** A formulated name is rendered from the words of its key and what is at its ends. */
  lemma {:induction false} NameIsRendered(s: string)
    ensures Sanitized(s) == Rendered(Words(s), Lead(s), Trail(s))
  {
    hide Rendered, IsAlphanumeric;
    if s == "" {
      LeadMark([], false);
    } else {
      var rest, trail := Words(s[1..]), Trail(s);
      NameIsRendered(s[1..]);
      LeadMark(rest, trail);
      if |s| > 1 && rest == [] {
        NoWordsNoLetters(s[1..]);
      }
      if !IsAlphanumeric(s[0]) {
        assert Words(s) == rest;
      } else if |s| > 1 && IsAlphanumeric(s[1]) {
        RenderedLonger(s[0], rest, trail);
      } else if rest != [] {
        FirstWord(s[0], rest, trail);
      } else {
        OnlyWord(s[0], trail);
        assert Words(s) == [[s[0]]];
      }
    }
  }

  /** And these can be read back from it. */
  lemma {:induction false} NameKeepsWords(s: string)
    ensures Words(Sanitized(s)) == Words(s)
  {
    if s != "" {
      NameKeepsWords(s[1..]);
      NameShape(s[1..]);
      if IsAlphanumeric(s[0]) || |s| == 1 || IsAlphanumeric(s[1]) {
        assert Sanitized(s)[1..] == Sanitized(s[1..]);
      }
    }
  }

  /** Two keys get the same name exactly if they have the same words in the same order and agree on
      whether they start and end in another character. */
  lemma SameNameIff(s: string, t: string)
    ensures Sanitized(s) == Sanitized(t) <==> Words(s) == Words(t) && Lead(s) == Lead(t) && Trail(s) == Trail(t)
  {
    hide Sanitized, Words;
    NameIsRendered(s);
    NameIsRendered(t);
    NameKeepsWords(s);
    NameKeepsWords(t);
    NameShape(s);
    NameShape(t);
  }

  /** Keys that differ only in such characters get the same name, so distinct backends can end up
      with one name and one runtime key. */
  lemma {:induction false} SeparatorsAreForgotten(s: string, c: char, d: char, t: string)
    requires !IsAlphanumeric(c) && !IsAlphanumeric(d)
    ensures Sanitized(s + [c] + t) == Sanitized(s + [d] + t)
  {
    if s == "" {
      assert ([c] + t)[1..] == t && ([d] + t)[1..] == t;
      assert "" + [c] + t == [c] + t && "" + [d] + t == [d] + t;
    } else {
      SeparatorsAreForgotten(s[1..], c, d, t);
      var a, b := s + [c] + t, s + [d] + t;
      assert a[1..] == s[1..] + [c] + t && b[1..] == s[1..] + [d] + t;
    }
  }

  // ---------------------------------------------------------------------------------------
  // Which rules share a name
  // ---------------------------------------------------------------------------------------

  lemma LongerFirst(x: string, a: seq<string>, b: seq<string>)
    requires a != []
    ensures [x + (a + b)[0]] + (a + b)[1..] == [x + a[0]] + a[1..] + b
  {
  }

  lemma {:induction false} WordsOfConcat(a: string, c: char, b: string)
    requires !IsAlphanumeric(c)
    ensures Words(a + [c] + b) == Words(a) + Words(b)
  {
    hide IsAlphanumeric;
    var s := a + [c] + b;
    if a == "" {
      assert s[1..] == b && s[0] == c;
    } else {
      var first, rest := a[0], a[1..];
      WordsOfConcat(rest, c, b);
      assert s[1..] == rest + [c] + b && s[0] == first;
      assert s[1] == if |a| > 1 then a[1] else c;
      if !IsAlphanumeric(first) {
        assert Words(s) == Words(s[1..]);
      } else if |a| > 1 && IsAlphanumeric(a[1]) {
        LongerFirst([first], Words(rest), Words(b));
      } else {
        assert [[first]] + (Words(rest) + Words(b)) == [[first]] + Words(rest) + Words(b);
      }
    }
  }

  lemma {:induction false} WordsOfWord(word: string)
    requires word != "" && forall i :: 0 <= i < |word| ==> IsAlphanumeric(word[i])
    ensures Words(word) == [word]
  {
    assert word == [word[0]] + word[1..];
    if |word| > 1 {
      WordsOfWord(word[1..]);
    } else {
      assert word == [word[0]] && Words(word[1..]) == [];
      assert Words(word) == [[word[0]]] + Words(word[1..]) == [word];
    }
  }

  /** Host and path as the key has them. */
  function RouteText(rule: PortRule): string {
    RouteOf(rule).host + "_" + RouteOf(rule).path
  }

  lemma PartsOfKey(rule: PortRule)
    requires rule.sourcePort >= 1
    ensures Words(RenderedKey(rule)) == [Digits(rule.sourcePort)] + Words(RouteText(rule))
    ensures !Lead(RenderedKey(rule)) && Trail(RenderedKey(rule)) == Trail(RouteText(rule))
  {
    hide Words;
    var port := Digits(rule.sourcePort);
    assert forall i :: 0 <= i < |port| ==> IsDigit(port[i]);
    assert RenderedKey(rule) == port + ['_'] + RouteText(rule);
    WordsOfWord(port);
    WordsOfConcat(port, '_', RouteText(rule));
  }

  /** Two eligible rules that name no backend get the same backend name exactly if they have the
      same port and their hosts and paths, joined by '_', have the same words and the same end:
      "a.b", "a-b" and "a..b" are one. */
  lemma SharedNameIff(r: PortRule, q: PortRule, resolve: Resolver)
    requires Eligible(resolve, r) && Eligible(resolve, q) && r.backendName == q.backendName == ""
    ensures NewBackend(r, resolve(r).endpoints, resolve(r).healthCheck).uuid ==
            NewBackend(q, resolve(q).endpoints, resolve(q).healthCheck).uuid
            <==> && r.sourcePort == q.sourcePort
                 && Words(RouteText(r)) == Words(RouteText(q)) && Trail(RouteText(r)) == Trail(RouteText(q))
  {
    hide Words, RenderedKey, RouteOf, Sanitized;
    PartsOfKey(r);
    PartsOfKey(q);
    SameNameIff(RenderedKey(r), RenderedKey(q));
    DigitsValueOfDigits(r.sourcePort);
    DigitsValueOfDigits(q.sourcePort);
    assert [Digits(r.sourcePort)] + Words(RouteText(r)) == [Digits(q.sourcePort)] + Words(RouteText(q)) <==>
           Digits(r.sourcePort) == Digits(q.sourcePort) && Words(RouteText(r)) == Words(RouteText(q)) by {
      SameHeadAndTail(Digits(r.sourcePort), Words(RouteText(r)), Digits(q.sourcePort), Words(RouteText(q)));
    }
  }

  lemma SameHeadAndTail(a: string, x: seq<string>, b: string, y: seq<string>)
    ensures [a] + x == [b] + y <==> a == b && x == y
  {
    if [a] + x == [b] + y {
      assert ([a] + x)[0] == a && ([b] + y)[0] == b;
      assert ([a] + x)[1..] == x && ([b] + y)[1..] == y;
    }
  }

  /** A failing input: two hosts of one port, two rendered keys, so two backends, and one name. */
  lemma DistinctKeysShareAName()
    ensures var r := PortRule(80, "http", "a.b", "", "s", "", 8080, "", 1, 0);
            var q := r.(hostname := "a-b");
            RenderedKey(r) != RenderedKey(q) && Sanitized(RenderedKey(r)) == Sanitized(RenderedKey(q))
  {
    hide Sanitized;
    var r := PortRule(80, "http", "a.b", "", "s", "", 8080, "", 1, 0);
    var q := r.(hostname := "a-b");
    assert EqualFold("http", HTTP_PROTO);
    assert RouteOf(r).host == "a.b" && RouteOf(q).host == "a-b" && RouteOf(r).path == RouteOf(q).path == "";
    var before := Itoa(80) + "_a";
    SeparatorsAreForgotten(before, '.', '-', "b_");
    assert RenderedKey(r) == before + ['.'] + "b_" && RenderedKey(q) == before + ['-'] + "b_";
    assert RenderedKey(r)[|before|] != RenderedKey(q)[|before|];
  }
}
