/**
 Which line of the custom text belongs where, said of the text itself, and that the line loop of
 BuildCustomConfig files lines and drops defaults just so
 (provider/haproxy/haproxy_config_util.go:83-135).
 */
module CustomLines {
  import opened Prelude
  import opened Text
  import opened CustomSections

  // ---------------------------------------------------------------------------------------
  // Lines
  // ---------------------------------------------------------------------------------------

  const SECTION_WORDS := {"backend", "frontend", "global", "defaults", "listen", "userlist", "peers", "mailers"}

  /** The line is parameters for the servers of the section it stands in. */
  predicate IsServerLine(line: string) {
    HasPrefix(TrimSpace(line), "server $IP")
  }

  /** What follows in it. */
  function Parameters(line: string): string
    requires IsServerLine(line)
  {
    TrimSpace(line)[10..]
  }

  /** The text is the word, in any letter case, alone or before a blank. */
  predicate StartsWith(text: string, word: string) {
    |word| <= |text| && EqualFold(text[..|word|], word) && (|text| == |word| || text[|word|] == ' ')
  }

  /** A section word, and after one blank whatever follows it. */
  predicate Names(text: string, word: string, name: string) {
    && StartsWith(text, word)
    && name == text[..|word|] + if |text| == |word| then "" else " " + TrimSpace(text[|word|..])
  }

  /** The line opens the section `name`. */
  predicate Opens(line: string, name: string) {
    !IsServerLine(line) && exists word :: word in SECTION_WORDS && Names(TrimSpace(line), word, name)
  }

  predicate IsHeader(line: string) {
    !IsServerLine(line) && exists word :: word in SECTION_WORDS && StartsWith(TrimSpace(line), word)
  }

  /** Any other line that is not blank is text of its section. */
  predicate IsText(line: string) {
    !Blank(line) && !IsServerLine(line) && !IsHeader(line)
  }

  /** Line `i` stands in the section `name`: the header before it that is closest opens it. Lines
      before any header stand in the section without a name. */
  predicate StandsIn(lines: seq<string>, i: nat, name: string)
    requires i <= |lines|
  {
    || (name == "" && forall h :: 0 <= h < i ==> !IsHeader(lines[h]))
    || exists h :: 0 <= h < i && Opens(lines[h], name) && forall g :: h < g < i ==> !IsHeader(lines[g])
  }

  // ---------------------------------------------------------------------------------------
  // The kind of a line
  // ---------------------------------------------------------------------------------------

  lemma WordHasNoBlank(word: string)
    requires word in SECTION_WORDS
    ensures ' ' !in word && word != "" && exists i :: 0 <= i < |KEYWORDS| && KEYWORDS[i] == word
  {
    assert KEYWORDS[0] == "backend" && KEYWORDS[1] == "frontend" && KEYWORDS[2] == "global";
    assert KEYWORDS[3] == "defaults";
    assert KEYWORDS[4] == "listen" && KEYWORDS[5] == "userlist" && KEYWORDS[6] == "peers" && KEYWORDS[7] == "mailers";
  }

  lemma KeywordIsWord(i: nat)
    requires i < |KEYWORDS|
    ensures KEYWORDS[i] in SECTION_WORDS
  {
  }

  lemma FoldedHasNoBlank(s: string, word: string)
    requires EqualFold(s, word) && ' ' !in word
    ensures ' ' !in s
  {
    forall i | 0 <= i < |s| ensures s[i] != ' ' {
      assert Fold(s[i]) == Fold(word[i]);
    }
  }

  lemma {:induction false} FirstPieceIs(s: string, n: nat)
    requires n <= |s| && ' ' !in s[..n] && (n == |s| || s[n] == ' ')
    ensures FirstPiece(s) == s[..n]
  {
    if n > 0 {
      assert s[0] == s[..n][0];
      assert s[1..][..n - 1] == s[..n][1..];
      FirstPieceIs(s[1..], n - 1);
      assert s[..n] == [s[0]] + s[1..][..n - 1];
    }
  }

  lemma StartIsFirstPiece(t: string, word: string)
    requires word in SECTION_WORDS && StartsWith(t, word)
    ensures FirstPiece(t) == t[..|word|] && IsDirective(FirstPiece(t))
  {
    hide EqualFold, FirstPiece;
    WordHasNoBlank(word);
    FoldedHasNoBlank(t[..|word|], word);
    FirstPieceIs(t, |word|);
  }

  lemma DirectiveStarts(t: string) returns (word: string)
    requires IsDirective(FirstPiece(t))
    ensures word in SECTION_WORDS && StartsWith(t, word)
  {
    var i :| 0 <= i < |KEYWORDS| && EqualFold(FirstPiece(t), KEYWORDS[i]);
    KeywordIsWord(i);
    word := KEYWORDS[i];
    assert t[..|word|] == FirstPiece(t);
  }

  lemma NameIs(t: string, word: string)
    requires word in SECTION_WORDS && StartsWith(t, word)
    requires t != "" && !IsSpace(t[0]) && !IsSpace(t[|t| - 1])
    ensures Names(t, word, SectionName(t))
  {
    hide EqualFold, IsSpace, FirstPiece, TrimSpace, IsDirective, Blank;
    StartIsFirstPiece(t, word);
    WordHasNoBlank(word);
    var first := t[..|word|];
    if |t| == |word| {
      assert first == t && first + "" == first;
    } else {
      FirstIsTrimmed(t, word);
      var rest := t[|word|..];
      RestTrims(t, |word|);
      var name := first + " " + TrimSpace(rest);
      assert name[0] == t[0] && name[|name| - 1] == TrimSpace(rest)[|TrimSpace(rest)| - 1];
      Trimmed(name);
    }
  }

  lemma FirstIsTrimmed(t: string, word: string)
    requires word in SECTION_WORDS && StartsWith(t, word)
    ensures TrimSpace(t[..|word|]) == t[..|word|]
  {
    var first := t[..|word|];
    WordHasNoBlank(word);
    assert Fold(first[0]) == Fold(word[0]) && Fold(first[|word| - 1]) == Fold(word[|word| - 1]);
    WordEndsInLetters(word);
    Trimmed(first);
  }

  lemma WordEndsInLetters(word: string)
    requires word in SECTION_WORDS
    ensures 'a' <= word[0] <= 'z' && 'a' <= word[|word| - 1] <= 'z'
  {
  }

  /** A leading blank makes no difference to what is left. */
  lemma RestTrims(t: string, n: nat)
    requires n < |t| && t[n] == ' ' && !IsSpace(t[|t| - 1])
    ensures TrimSpace(t[n + 1..]) == TrimSpace(t[n..]) != ""
  {
    var rest := t[n..];
    assert IsSpace(' ');
    assert rest[0] == ' ' && rest[1..] == t[n + 1..];
    assert rest[|rest| - 1] == t[|t| - 1];
    assert TrimLeft(rest) == TrimLeft(rest[1..]);
  }

  /** The line loop takes each line for what it is. */
  lemma KindIs(line: string)
    ensures KindOf(line).Empty? <==> Blank(line)
    ensures KindOf(line).Server? <==> IsServerLine(line)
    ensures KindOf(line).Header? <==> IsHeader(line)
    ensures KindOf(line).Body? <==> IsText(line)
    ensures KindOf(line).Server? ==> KindOf(line).value == Parameters(line)
    ensures KindOf(line).Body? ==> KindOf(line).text == line && KindOf(line).trimmed == TrimSpace(line)
  {
    hide Blank, TrimSpace, IsDirective, StartsWith, FirstPiece, SectionName;
    var t := TrimSpace(line);
    assert SERVER_PREFIX == "server $IP";
    if !IsServerLine(line) {
      if IsDirective(FirstPiece(t)) {
        var word := DirectiveStarts(t);
      }
      if word :| word in SECTION_WORDS && StartsWith(t, word) {
        StartIsFirstPiece(t, word);
        if t == "" {
          WordHasNoBlank(word);
          StartsNonempty(t, word);
        }
      }
    }
  }

  lemma StartsNonempty(t: string, word: string)
    requires StartsWith(t, word)
    ensures |word| <= |t|
  {
  }

  lemma HeaderOpens(line: string, name: string)
    ensures Opens(line, name) <==> KindOf(line) == Header(name)
  {
    hide TrimSpace, IsDirective, StartsWith, FirstPiece, SectionName, Names, IsServerLine, Blank;
    var t := TrimSpace(line);
    KindIs(line);
    if Opens(line, name) {
      var word :| word in SECTION_WORDS && Names(t, word, name);
      NamesStarts(t, word, name);
      assert IsHeader(line);
      HeaderIsNamed(line, word);
      OneName(t, word, name, SectionName(t));
    }
    if KindOf(line) == Header(name) {
      var word :| word in SECTION_WORDS && StartsWith(t, word);
      HeaderIsNamed(line, word);
    }
  }

  lemma NamesStarts(t: string, word: string, name: string)
    requires Names(t, word, name)
    ensures StartsWith(t, word)
  {
  }

  lemma OneName(t: string, word: string, name: string, other: string)
    requires Names(t, word, name) && Names(t, word, other)
    ensures name == other
  {
  }

  lemma HeaderIsNamed(line: string, word: string)
    requires KindOf(line).Header? && word in SECTION_WORDS && StartsWith(TrimSpace(line), word)
    ensures Names(TrimSpace(line), word, SectionName(TrimSpace(line)))
    ensures KindOf(line) == Header(SectionName(TrimSpace(line)))
  {
    hide StartsWith, FirstPiece, SectionName, Names, IsDirective;
    NameIs(TrimSpace(line), word);
  }

  // ---------------------------------------------------------------------------------------
  // What stands where
  // ---------------------------------------------------------------------------------------

  lemma StandsNext(lines: seq<string>, i: nat, name: string)
    requires i < |lines|
    ensures StandsIn(lines, i + 1, name) <==>
            if IsHeader(lines[i]) then Opens(lines[i], name) else StandsIn(lines, i, name)
  {
    hide Opens, IsHeader;
    OpensIsHeader(lines[i], name);
    if StandsIn(lines, i + 1, name) && IsHeader(lines[i]) {
      StandsAfterHeader(lines, i, name);
    }
  }

  lemma StandsAfterHeader(lines: seq<string>, i: nat, name: string)
    requires i < |lines| && StandsIn(lines, i + 1, name) && IsHeader(lines[i])
    ensures Opens(lines[i], name)
  {
    hide Opens, IsHeader;
    var h :| 0 <= h < i + 1 && Opens(lines[h], name) && forall g :: h < g < i + 1 ==> !IsHeader(lines[g]);
    assert h == i;
  }

  lemma HeaderIff(line: string, name: string)
    ensures KindOf(line).Header? <==> IsHeader(line)
    ensures Opens(line, name) <==> KindOf(line) == Header(name)
  {
    hide TrimSpace, IsServerLine, Opens, IsHeader, KindOf;
    KindIs(line);
    HeaderOpens(line, name);
  }

  lemma StandsFirst(lines: seq<string>, name: string)
    ensures StandsIn(lines, 0, name) <==> name == ""
  {
    hide Opens, IsHeader;
  }

  lemma SectionNext(lines: seq<string>, i: nat)
    requires i < |lines|
    ensures |Lines(lines)| == |lines|
    ensures SectionAt(Lines(lines), i + 1) ==
            if KindOf(lines[i]).Header? then KindOf(lines[i]).section else SectionAt(Lines(lines), i)
  {
    hide KindOf;
  }

  lemma {:induction false} StandsIff(lines: seq<string>, i: nat, name: string)
    requires i <= |lines| == |Lines(lines)|
    ensures StandsIn(lines, i, name) <==> SectionAt(Lines(lines), i) == name
  {
    hide KindOf, Opens, IsHeader, StandsIn, Lines;
    if i == 0 {
      StandsFirst(lines, name);
    } else {
      StandsIff(lines, i - 1, name);
      StandsNext(lines, i - 1, name);
      SectionNext(lines, i - 1);
      HeaderIff(lines[i - 1], name);
    }
  }

  lemma OpensIsHeader(line: string, name: string)
    ensures Opens(line, name) ==> IsHeader(line)
  {
  }

  /** The texts of the first `n` lines that are filed under a name: text lines of the section as they
      are, and what server lines say of the section whose servers have that name, in order. */
  function TextsOf(lines: seq<string>, name: string, n: nat): seq<string>
    requires n <= |lines|
  {
    if n == 0 then []
    else
      TextsOf(lines, name, n - 1)
      + if IsText(lines[n - 1]) && StandsIn(lines, n - 1, name) then [lines[n - 1]]
        else if IsServerLine(lines[n - 1]) && ServersStandIn(lines, n - 1, name) then [Parameters(lines[n - 1])]
        else []
  }

  /** The name stands for the servers of the section of line `i`. */
  predicate ServersStandIn(lines: seq<string>, i: nat, name: string)
    requires i <= |lines|
  {
    |name| >= 4 && name[|name| - 4..] == "_$IP" && StandsIn(lines, i, name[..|name| - 4])
  }

  lemma SplitAtEnd(a: string, end: string, name: string)
    ensures a + end == name <==>
            |name| >= |end| && name[|name| - |end|..] == end && name[..|name| - |end|] == a
  {
    assert (a + end)[..|a|] == a && (a + end)[|a|..] == end;
    if |name| >= |end| {
      assert name == name[..|name| - |end|] + name[|name| - |end|..];
    }
  }

  lemma ServersIff(lines: seq<string>, i: nat, name: string)
    requires i <= |lines|
    ensures ServersStandIn(lines, i, name) <==> SectionAt(Lines(lines), i) + "_$IP" == name
  {
    hide StandsIn, SectionAt, KindOf;
    SplitAtEnd(SectionAt(Lines(lines), i), "_$IP", name);
    if |name| >= 4 {
      StandsIff(lines, i, name[..|name| - 4]);
    }
  }

  /** The line loop files just that. */
  lemma {:induction false} FiledIs(lines: seq<string>, name: string, n: nat)
    requires n <= |lines|
    ensures FiledUnder(Lines(lines), n, name) == TextsOf(lines, name, n)
  {
    hide KindOf, StandsIn, ServersStandIn, IsServerLine, IsText, Parameters;
    if n > 0 {
      FiledIs(lines, name, n - 1);
      KindIs(lines[n - 1]);
      StandsIff(lines, n - 1, name);
      ServersIff(lines, n - 1, name);
      OneKind(lines[n - 1]);
    }
  }

  lemma OneKind(line: string)
    ensures IsText(line) ==> !IsServerLine(line)
  {
  }

  /** A default is overridden by a text line of its section that starts with its words. */
  predicate OverriddenBy(lines: seq<string>, section: string, k: string) {
    exists i :: 0 <= i < |lines| && IsText(lines[i]) && StandsIn(lines, i, section)
                && HasPrefix(TrimSpace(lines[i]), k + " ")
  }

  /** The defaults that are left are just those that nothing overrides. */
  lemma OverriddenIff(lines: seq<string>, section: string, k: string)
    ensures Overridden(Lines(lines), |lines|, section, k) <==> OverriddenBy(lines, section, k)
  {
    hide KindOf, StandsIn, IsText, TrimSpace, HasPrefix;
    forall i | 0 <= i < |lines|
      ensures Overrides(Lines(lines), i, section, k) <==>
              IsText(lines[i]) && StandsIn(lines, i, section) && HasPrefix(TrimSpace(lines[i]), k + " ")
    {
      KindIs(lines[i]);
      StandsIff(lines, i, section);
    }
  }

  // ---------------------------------------------------------------------------------------
  // Server lines and text lines apart
  // ---------------------------------------------------------------------------------------

  /** What the server lines of a section say, in order. */
  function ServerTexts(lines: seq<string>, section: string, n: nat): seq<string>
    requires n <= |lines|
  {
    if n == 0 then []
    else
      ServerTexts(lines, section, n - 1)
      + if IsServerLine(lines[n - 1]) && StandsIn(lines, n - 1, section) then [Parameters(lines[n - 1])] else []
  }

  /** The text lines of a section, in order. */
  function PlainTexts(lines: seq<string>, section: string, n: nat): seq<string>
    requires n <= |lines|
  {
    if n == 0 then []
    else
      PlainTexts(lines, section, n - 1)
      + if IsText(lines[n - 1]) && StandsIn(lines, n - 1, section) then [lines[n - 1]] else []
  }

  /** One of these lines is text under a header of that name. */
  predicate HasText(lines: seq<string>, name: string, n: nat)
    requires n <= |lines|
  {
    exists i :: 0 <= i < n && IsText(lines[i]) && StandsIn(lines, i, name)
  }

  lemma HasTextNext(lines: seq<string>, name: string, n: nat)
    requires n < |lines|
    ensures HasText(lines, name, n + 1) <==>
            HasText(lines, name, n) || (IsText(lines[n]) && StandsIn(lines, n, name))
  {
    hide StandsIn, IsText;
  }

  /** What is filed for the servers of a section is what its server lines say, in order, and nothing
      else, if and only if there is no text under a header of the very name it is filed under. */
  lemma {:induction false} OnlyServerLines(lines: seq<string>, section: string, n: nat)
    requires n <= |lines|
    ensures TextsOf(lines, section + "_$IP", n) == ServerTexts(lines, section, n) <==>
            !HasText(lines, section + "_$IP", n)
    ensures |TextsOf(lines, section + "_$IP", n)| >= |ServerTexts(lines, section, n)|
    ensures HasText(lines, section + "_$IP", n) ==>
              |TextsOf(lines, section + "_$IP", n)| > |ServerTexts(lines, section, n)|
  {
    hide StandsIn, IsServerLine, IsText, Parameters;
    var name := section + "_$IP";
    if n > 0 {
      hide HasText;
      OnlyServerLines(lines, section, n - 1);
      HasTextNext(lines, name, n - 1);
      OneKind(lines[n - 1]);
      assert name[|name| - 4..] == "_$IP" && name[..|name| - 4] == section;
    }
  }

  /** What is filed under any other name is its text lines. */
  lemma {:induction false} OnlyTextLines(lines: seq<string>, name: string, n: nat)
    requires n <= |lines| && !HasSuffix(name, "_$IP")
    ensures TextsOf(lines, name, n) == PlainTexts(lines, name, n)
  {
    hide StandsIn, IsServerLine, IsText, Parameters;
    if n > 0 {
      OnlyTextLines(lines, name, n - 1);
    }
  }
}
