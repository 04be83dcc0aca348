/** The Go string functions the configuration code relies on. */
module Text {
  import opened Prelude

  /** unicode.IsSpace. */
  predicate IsSpace(c: char) {
    c in {'\t', '\n', '\U{0B}', '\U{0C}', '\r', ' ', '\U{85}', '\U{A0}', '\U{1680}', '\U{2028}', '\U{2029}',
          '\U{202F}', '\U{205F}', '\U{3000}'}
    || '\U{2000}' <= c <= '\U{200A}'
  }

  /** A nonempty word without white space. */
  predicate IsToken(s: string) {
    s != "" && forall i :: 0 <= i < |s| ==> !IsSpace(s[i])
  }

  // ---------------------------------------------------------------------------------------
  // strings.Fields and strings.TrimSpace
  // ---------------------------------------------------------------------------------------

  function WordLength(s: string): (n: nat)
    ensures n <= |s|
    ensures forall i :: 0 <= i < n ==> !IsSpace(s[i])
    ensures n < |s| ==> IsSpace(s[n])
  {
    if s == "" || IsSpace(s[0]) then 0 else 1 + WordLength(s[1..])
  }

  function Fields(s: string): (words: seq<string>)
    ensures forall i :: 0 <= i < |words| ==> IsToken(words[i])
    decreases |s|
  {
    if s == "" then []
    else if IsSpace(s[0]) then Fields(s[1..])
    else [s[..WordLength(s)]] + Fields(s[WordLength(s)..])
  }

  lemma WordLengthOf(word: string, rest: string)
    requires forall i :: 0 <= i < |word| ==> !IsSpace(word[i])
    requires rest == "" || IsSpace(rest[0])
    ensures WordLength(word + rest) == |word|
  {
    assert forall i :: 0 <= i < |word| ==> (word + rest)[i] == word[i];
    assert rest != "" ==> (word + rest)[|word|] == rest[0];
  }

  lemma FirstField(word: string, rest: string)
    requires IsToken(word) && (rest == "" || IsSpace(rest[0]))
    ensures Fields(word + rest) == [word] + Fields(rest)
  {
    hide IsSpace;
    WordLengthOf(word, rest);
    var s := word + rest;
    assert s[0] == word[0] && s[..|word|] == word && s[|word|..] == rest;
  }

  /** White space between two texts separates their words. */
  lemma {:induction false} FieldsOfConcat(a: string, c: char, b: string)
    requires IsSpace(c)
    ensures Fields(a + [c] + b) == Fields(a) + Fields(b)
    decreases |a|
  {
    hide IsSpace;
    var s := a + [c] + b;
    if a == "" {
      assert s[1..] == b;
    } else if IsSpace(a[0]) {
      FieldsOfConcat(a[1..], c, b);
      assert s[1..] == a[1..] + [c] + b;
    } else {
      FieldsOfNextWord(a, c, b);
    }
  }

  lemma {:induction false} FieldsOfNextWord(a: string, c: char, b: string)
    requires IsSpace(c) && a != "" && !IsSpace(a[0])
    ensures Fields(a + [c] + b) == Fields(a) + Fields(b)
    decreases |a|, 0
  {
    hide IsSpace, Fields;
    var n := WordLength(a);
    var word, rest := a[..n], a[n..];
    FieldsOfConcat(rest, c, b);
    FirstField(word, rest);
    FirstField(word, rest + [c] + b);
    assert a == word + rest && a + [c] + b == word + (rest + [c] + b);
    assert [word] + (Fields(rest) + Fields(b)) == [word] + Fields(rest) + Fields(b);
  }

  lemma FieldsOfToken(word: string)
    requires IsToken(word)
    ensures Fields(word) == [word]
  {
    WordLengthOf(word, "");
    assert word + "" == word;
  }

  function Join(words: seq<string>, sep: string): string {
    if words == [] then ""
    else if |words| == 1 then words[0]
    else words[0] + sep + Join(words[1..], sep)
  }

  lemma {:induction false} FieldsOfJoin(words: seq<string>)
    requires forall i :: 0 <= i < |words| ==> IsToken(words[i])
    ensures Fields(Join(words, " ")) == words
  {
    if words != [] {
      FieldsOfToken(words[0]);
      if |words| > 1 {
        FieldsOfJoin(words[1..]);
        FieldsOfConcat(words[0], ' ', Join(words[1..], " "));
        assert words[0] + " " + Join(words[1..], " ") == words[0] + [' '] + Join(words[1..], " ");
      }
    }
  }

  predicate Blank(s: string) {
    forall i :: 0 <= i < |s| ==> IsSpace(s[i])
  }

  function TrimLeft(s: string): (t: string)
    ensures t == "" <==> Blank(s)
    ensures t != "" ==> !IsSpace(t[0])
    ensures |t| <= |s| && t == s[|s| - |t|..]
  {
    if s == "" then ""
    else if IsSpace(s[0]) then
      assert Blank(s) <==> Blank(s[1..]);
      TrimLeft(s[1..])
    else s
  }

  function TrimRight(s: string): (t: string)
    ensures t == "" <==> Blank(s)
    ensures t != "" ==> !IsSpace(t[|t| - 1])
    ensures |t| <= |s| && t == s[..|t|]
  {
    if s == "" then ""
    else if IsSpace(s[|s| - 1]) then
      assert s == s[..|s| - 1] + [s[|s| - 1]];
      TrimRight(s[..|s| - 1])
    else s
  }

  function TrimSpace(s: string): (t: string)
    ensures t == "" <==> Blank(s)
    ensures t != "" ==> !IsSpace(t[0]) && !IsSpace(t[|t| - 1])
  {
    var l := TrimLeft(s);
    assert l != "" ==> !Blank(l);
    var t := TrimRight(l);
    t
  }

  /** Only white space at the ends is cut off, and all of it. */
  lemma {:induction false} TrimLeftIs(s: string)
    ensures Blank(s[..|s| - |TrimLeft(s)|])
  {
    if s != "" && IsSpace(s[0]) {
      TrimLeftIs(s[1..]);
      var n, t := |s| - |TrimLeft(s)|, s[1..];
      forall i | 0 <= i < n ensures IsSpace(s[i]) {
        if i > 0 {
          assert s[i] == t[..|t| - |TrimLeft(t)|][i - 1];
        }
      }
    }
  }

  lemma {:induction false} TrimRightIs(s: string)
    ensures Blank(s[|TrimRight(s)|..])
  {
    if s != "" && IsSpace(s[|s| - 1]) {
      var t := s[..|s| - 1];
      TrimRightIs(t);
      forall i | |TrimRight(s)| <= i < |s| ensures IsSpace(s[i]) {
        if i < |s| - 1 {
          assert s[i] == t[|TrimRight(t)|..][i - |TrimRight(t)|];
        }
      }
    }
  }

  lemma TrimSpaceIs(s: string) returns (before: string, after: string)
    ensures s == before + TrimSpace(s) + after && Blank(before) && Blank(after)
  {
    hide Blank, IsSpace;
    var left := TrimLeft(s);
    var t := TrimRight(left);
    assert TrimSpace(s) == t;
    TrimLeftIs(s);
    TrimRightIs(left);
    before, after := s[..|s| - |left|], left[|t|..];
    CutIs(s, left, t);
  }

  lemma CutIs(s: string, left: string, t: string)
    requires |t| <= |left| <= |s| && left == s[|s| - |left|..] && t == left[..|t|]
    ensures s == s[..|s| - |left|] + t + left[|t|..]
  {
    assert left == t + left[|t|..];
    assert s == s[..|s| - |left|] + left;
  }

  /** Nothing is cut off a text that starts and ends in other characters. */
  lemma Trimmed(s: string)
    requires s != "" ==> !IsSpace(s[0]) && !IsSpace(s[|s| - 1])
    ensures TrimSpace(s) == s
  {
    if s != "" {
      assert TrimLeft(s) == s && TrimRight(s) == s;
    }
  }

  // ---------------------------------------------------------------------------------------
  // strconv.Itoa and strconv.Atoi
  // ---------------------------------------------------------------------------------------

  predicate IsDigit(c: char) {
    '0' <= c <= '9'
  }

  predicate AllDigits(s: string) {
    s != "" && forall i :: 0 <= i < |s| ==> IsDigit(s[i])
  }

  function DigitValue(c: char): nat
    requires IsDigit(c)
  {
    c as int - '0' as int
  }

  function Digits(n: nat): (s: string)
    ensures AllDigits(s) && |s| > 0
  {
    if n < 10 then [('0' as int + n) as char] else Digits(n / 10) + [('0' as int + n % 10) as char]
  }

  function Itoa(n: int): string {
    if n < 0 then "-" + Digits(-n) else Digits(n)
  }

  function DigitsValue(s: string): nat
    requires forall i :: 0 <= i < |s| ==> IsDigit(s[i])
  {
    if s == "" then 0 else 10 * DigitsValue(s[..|s| - 1]) + DigitValue(s[|s| - 1])
  }

  const MAX_INT := 0x7fff_ffff_ffff_ffff
  const MIN_INT := -0x8000_0000_0000_0000

  /** Optional sign, decimal digits, 64-bit range. */
  function Atoi(s: string): (r: Option<int>)
    ensures r.Some? ==> MIN_INT <= r.value <= MAX_INT
  {
    var signed := s != "" && s[0] in {'+', '-'};
    var body := if signed then s[1..] else s;
    if !AllDigits(body) then None
    else
      var v := if signed && s[0] == '-' then -(DigitsValue(body) as int) else DigitsValue(body) as int;
      if MIN_INT <= v <= MAX_INT then Some(v) else None
  }

  lemma {:induction false} DigitsValueOfDigits(n: nat)
    ensures DigitsValue(Digits(n)) == n
  {
    var s := Digits(n);
    if n < 10 {
      assert s[..|s| - 1] == "";
    } else {
      DigitsValueOfDigits(n / 10);
      assert s[..|s| - 1] == Digits(n / 10);
    }
  }

  lemma DigitsAreAToken(n: nat)
    ensures IsToken(Digits(n)) && Digits(n)[0] !in {'+', '-'}
  {
    assert IsDigit(Digits(n)[0]);
  }

  lemma AtoiOfDigits(n: nat)
    requires n <= MAX_INT
    ensures Atoi(Digits(n)) == Some(n)
  {
    DigitsAreAToken(n);
    DigitsValueOfDigits(n);
  }

  lemma AtoiOfNegative(n: int)
    requires MIN_INT <= n < 0
    ensures Atoi("-" + Digits(-n)) == Some(n) && IsToken("-" + Digits(-n))
  {
    var s := "-" + Digits(-n);
    assert s[1..] == Digits(-n);
    DigitsAreAToken(-n);
    DigitsValueOfDigits(-n);
  }

  lemma AtoiOfItoa(n: int)
    requires MIN_INT <= n <= MAX_INT
    ensures Atoi(Itoa(n)) == Some(n)
    ensures IsToken(Itoa(n))
  {
    hide Atoi, Digits, IsToken;
    if n < 0 {
      AtoiOfNegative(n);
    } else {
      AtoiOfDigits(n);
      DigitsAreAToken(n);
    }
  }

  /** Which texts are read as a number: its decimal digits after any zeros, with a sign in front
      that may be '+' or missing if the number is not negative. */
  ghost predicate Padded(s: string, n: nat) {
    exists z: nat :: s == Zeros(z) + Digits(n)
  }

  function Zeros(z: nat): string {
    seq(z, i => '0')
  }

  ghost predicate SignedAs(s: string, sign: char, n: nat) {
    s != "" && s[0] == sign && Padded(s[1..], n)
  }

  ghost predicate Denotes(s: string, n: int) {
    && MIN_INT <= n <= MAX_INT
    && if n < 0 then SignedAs(s, '-', -n)
       else Padded(s, n) || SignedAs(s, '+', n) || (n == 0 && SignedAs(s, '-', n))
  }

  lemma OneDigit(c: char)
    requires IsDigit(c)
    ensures Digits(DigitValue(c)) == [c] && DigitsValue([c]) == DigitValue(c)
  {
    assert [c][..0] == "";
  }

  lemma NextDigit(v: nat, c: char)
    requires IsDigit(c) && v > 0
    ensures Digits(10 * v + DigitValue(c)) == Digits(v) + [c]
  {
    var n := 10 * v + DigitValue(c);
    assert n >= 10 && n / 10 == v && n % 10 == DigitValue(c);
  }

  /** Each digit of a number is the remainder by ten of what is left of it. */
  lemma DigitsAre(n: nat)
    ensures n < 10 ==> Digits(n) == ["0123456789"[n]]
    ensures n >= 10 ==> Digits(n) == Digits(n / 10) + ["0123456789"[n % 10]]
  {
  }

  lemma MoreZeros(z: nat)
    ensures Zeros(z) + "0" == Zeros(z + 1)
  {
  }

  lemma {:induction false} PaddedValue(s: string) returns (z: nat)
    requires AllDigits(s)
    ensures s == Zeros(z) + Digits(DigitsValue(s))
  {
    hide Digits;
    var front, last := s[..|s| - 1], s[|s| - 1];
    assert s == front + [last];
    OneDigit(last);
    if front == "" {
      z := 0;
    } else {
      z := PaddedValue(front);
      var v := DigitsValue(front);
      if v == 0 {
        OneDigit('0');
        MoreZeros(z);
        z := z + 1;
      } else {
        NextDigit(v, last);
      }
    }
  }

  lemma {:induction false} ValueOfPadded(z: nat, n: nat)
    ensures AllDigits(Zeros(z) + Digits(n)) && DigitsValue(Zeros(z) + Digits(n)) == n
    decreases n
  {
    var s := Zeros(z) + Digits(n);
    forall i | 0 <= i < |s| ensures IsDigit(s[i]) {
      assert i >= z ==> s[i] == Digits(n)[i - z];
    }
    if n < 10 {
      assert s[..|s| - 1] == Zeros(z);
      ValueOfZeros(z);
    } else {
      ValueOfPadded(z, n / 10);
      assert s[..|s| - 1] == Zeros(z) + Digits(n / 10);
    }
  }

  lemma {:induction false} ValueOfZeros(z: nat)
    ensures DigitsValue(Zeros(z)) == 0
  {
    if z > 0 {
      ValueOfZeros(z - 1);
      assert Zeros(z)[..z - 1] == Zeros(z - 1);
    }
  }

  lemma PaddedIff(s: string, n: nat)
    ensures Padded(s, n) <==> AllDigits(s) && DigitsValue(s) == n
  {
    hide Digits;
    if AllDigits(s) {
      var z := PaddedValue(s);
    }
    if Padded(s, n) {
      var z: nat :| s == Zeros(z) + Digits(n);
      ValueOfPadded(z, n);
    }
  }

  /** A text is read as a number exactly if it denotes it. */
  lemma AtoiIff(s: string, n: int)
    ensures Atoi(s) == Some(n) <==> Denotes(s, n)
  {
    hide Padded, DigitsValue;
    var m: nat := if n < 0 then -n else n;
    PaddedIff(s, m);
    if s != "" {
      PaddedIff(s[1..], m);
      assert s[0] in {'+', '-'} ==> !AllDigits(s);
    }
  }

  // ---------------------------------------------------------------------------------------
  // Other string functions
  // ---------------------------------------------------------------------------------------

  predicate HasPrefix(s: string, prefix: string) {
    prefix <= s
  }

  predicate HasSuffix(s: string, suffix: string) {
    |suffix| <= |s| && s[|s| - |suffix|..] == suffix
  }

  /** strings.EqualFold when one side is ASCII: letters differ at most in case, and the Kelvin
      sign and the long s fold to k and s. */
  function Fold(c: char): char {
    if 'A' <= c <= 'Z' then (c as int + 32) as char
    else if c == '\U{212A}' then 'k'
    else if c == '\U{17F}' then 's'
    else c
  }

  predicate EqualFold(s: string, t: string) {
    |s| == |t| && forall i :: 0 <= i < |s| ==> Fold(s[i]) == Fold(t[i])
  }

  /** Letters are equal up to case, and other ASCII characters only to themselves. */
  lemma FoldIs(c: char, d: char)
    requires c < '\U{80}' && d < '\U{80}'
    ensures Fold(c) == Fold(d) <==>
            || c == d
            || ('A' <= c <= 'Z' && d as int == c as int + 32)
            || ('A' <= d <= 'Z' && c as int == d as int + 32)
  {
  }
}
