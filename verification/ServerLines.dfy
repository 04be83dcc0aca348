/**
 The texts BuildCustomConfig writes into frontends, backends and server lines
 (provider/haproxy/haproxy_config_util.go:147-270), and reading weights back from them.
 */
module ServerLines {
  import opened Prelude
  import opened Text
  import opened Config
  import opened CustomSections
  import opened Desired

  // ---------------------------------------------------------------------------------------
  // Server lines
  // ---------------------------------------------------------------------------------------

  predicate Checked(be: BackendService) {
    be.healthCheck.Some? && be.healthCheck.value.port > 0
  }

  function Param(word: string, value: string): string {
    " " + word + " " + value
  }

  function CheckText(be: BackendService): string {
    var hc := be.healthCheck;
    if Checked(be) then
      " check" + Param("port", Itoa(hc.value.port)) + Param("inter", Itoa(hc.value.interval))
      + Param("rise", Itoa(hc.value.healthyThreshold)) + Param("fall", Itoa(hc.value.unhealthyThreshold))
    else ""
  }

  function ResolverText(be: BackendService, ep: Endpoint): string {
    if !ep.isCname then ""
    else if Checked(be) then " " + Param("resolvers", "rancher")
    else "  check" + Param("resolvers", "rancher")
  }

  function CookieText(sticky: bool, ep: Endpoint): string {
    if sticky then Param("cookie", ep.name) else ""
  }

  /** The server line without its weight. */
  function LineText(custom: FiledTexts, be: BackendService, sticky: bool, ep: Endpoint): string {
    ConfToString(Texts(custom, "backend " + be.uuid + "_$IP"), false)
    + CheckText(be) + ResolverText(be, ep) + CookieText(sticky, ep)
  }

  function WeightText(weight: int): string {
    if weight != 1 && 0 <= weight < 257 then " weight " + Itoa(weight) else ""
  }

  function PrintEndpoint(custom: FiledTexts, be: BackendService, sticky: bool, ep: Endpoint): Endpoint {
    ep.(config := LineText(custom, be, sticky, ep) + WeightText(ep.weight))
  }

  function ReadWeight(line: string): int {
    WeightIn(Fields(line), |Fields(line)|)
  }

  lemma {:induction false} WeightInPrefix(fields: seq<string>, more: seq<string>, n: nat)
    requires n < |fields|
    ensures WeightIn(fields + more, n) == WeightIn(fields, n)
  {
    if n > 0 {
      WeightInPrefix(fields, more, n - 1);
    }
  }

  lemma WeightFieldsRead(fields: seq<string>, digits: string)
    requires Atoi(digits).Some? && digits != "weight"
    ensures WeightIn(fields + ["weight", digits], |fields| + 2) == Atoi(digits).value
  {
  }

  lemma FieldsOfAppended(text: string, word: string, digits: string)
    requires IsToken(word) && IsToken(digits)
    ensures Fields(text + " " + word + " " + digits) == Fields(text) + [word, digits]
  {
    var blank := ' ';
    assert text + " " + word + " " + digits == text + [blank] + (word + [blank] + digits);
    FieldsOfConcat(text, blank, word + [blank] + digits);
    FieldsOfConcat(word, blank, digits);
    FieldsOfToken(word);
    FieldsOfToken(digits);
  }

  lemma FieldsOfPrinted(text: string, digits: string)
    requires IsToken(digits)
    ensures Fields(text + " weight " + digits) == Fields(text) + ["weight", digits]
  {
    hide Fields;
    FieldsOfAppended(text, "weight", digits);
    assert text + " weight " + digits == text + " " + "weight" + " " + digits;
  }

  /** The weight read from a printed line is the endpoint's own exactly when it was printed, or
      the text before it happens to say the same. It is printed for 0..256 except 1. */
  lemma WeightRoundTrip(text: string, weight: int)
    ensures ReadWeight(text + WeightText(weight)) == weight <==>
            (0 <= weight <= 256 && weight != 1) || ReadWeight(text) == weight
    ensures 0 <= weight <= 256 && weight != 1 ==> ReadWeight(text + WeightText(weight)) == weight
  {
    if 0 <= weight <= 256 && weight != 1 {
      AtoiOfItoa(weight);
      FieldsOfPrinted(text, Itoa(weight));
      assert text + WeightText(weight) == text + " weight " + Itoa(weight);
      assert IsDigit(Digits(weight)[0]);
      WeightFieldsRead(Fields(text), Itoa(weight));
    } else {
      assert text + WeightText(weight) == text;
    }
  }

  /** A default weight is not printed, so a custom "weight" text wins over it. */
  lemma CustomTextOverridesDefaultWeight()
    ensures ReadWeight(" weight 9" + WeightText(1)) == 9
  {
    FieldsOfPrinted("", "9");
    assert "" + " weight " + "9" == " weight 9" + WeightText(1);
    assert DigitsValue("9") == 9 by {
      assert "9"[..0] == "";
    }
    assert Fields("") == [];
    WeightFieldsRead([], "9");
    assert [] + ["weight", "9"] == ["weight", "9"];
  }

  // ---------------------------------------------------------------------------------------
  // The words of a server line
  // ---------------------------------------------------------------------------------------

  function CheckWords(be: BackendService): seq<string> {
    var hc := be.healthCheck;
    if hc.Some? && hc.value.port > 0 then
      ["check", "port", Itoa(hc.value.port), "inter", Itoa(hc.value.interval),
       "rise", Itoa(hc.value.healthyThreshold), "fall", Itoa(hc.value.unhealthyThreshold)]
    else []
  }

  function ResolverWords(be: BackendService, ep: Endpoint): seq<string> {
    if !ep.isCname then []
    else if CheckWords(be) != [] then ["resolvers", "rancher"]
    else ["check", "resolvers", "rancher"]
  }

  function CookieWords(sticky: bool, ep: Endpoint): seq<string> {
    if sticky then ["cookie", ep.name] else []
  }

  function WeightWords(weight: int): seq<string> {
    if weight != 1 && 0 <= weight <= 256 then ["weight", Itoa(weight)] else []
  }

  lemma FieldsOfParam(text: string, word: string, value: string)
    requires IsToken(word) && IsToken(value)
    ensures Fields(text + Param(word, value)) == Fields(text) + [word, value]
  {
    hide Fields, IsToken;
    FieldsOfAppended(text, word, value);
    assert text + Param(word, value) == text + " " + word + " " + value;
  }

  lemma FieldsOfWord(text: string, word: string)
    requires IsToken(word)
    ensures Fields(text + (" " + word)) == Fields(text) + [word]
  {
    hide Fields;
    FieldsOfConcat(text, ' ', word);
    FieldsOfToken(word);
    assert text + (" " + word) == text + [' '] + word;
  }

  lemma FieldsOfBlank(text: string)
    ensures Fields(text + " ") == Fields(text)
  {
    FieldsOfConcat(text, ' ', "");
    assert text + " " == text + [' '] + "";
  }

  lemma NumberIsAToken(n: int)
    ensures IsToken(Itoa(n))
  {
    if n < 0 {
      DigitsAreAToken(-n);
    } else {
      DigitsAreAToken(n);
    }
  }

  lemma CheckTextRead(text: string, be: BackendService)
    ensures Fields(text + CheckText(be)) == Fields(text) + CheckWords(be)
  {
    hide Fields, IsToken, Param, Itoa;
    if Checked(be) {
      var hc := be.healthCheck.value;
      var a := text + " check";
      var b := a + Param("port", Itoa(hc.port));
      var c := b + Param("inter", Itoa(hc.interval));
      var d := c + Param("rise", Itoa(hc.healthyThreshold));
      KeywordsAreTokens();
      NumberIsAToken(hc.port);
      NumberIsAToken(hc.interval);
      NumberIsAToken(hc.healthyThreshold);
      NumberIsAToken(hc.unhealthyThreshold);
      assert " " + "check" == " check";
      FieldsOfWord(text, "check");
      FieldsOfParam(a, "port", Itoa(hc.port));
      FieldsOfParam(b, "inter", Itoa(hc.interval));
      FieldsOfParam(c, "rise", Itoa(hc.healthyThreshold));
      FieldsOfParam(d, "fall", Itoa(hc.unhealthyThreshold));
      assert text + CheckText(be) == d + Param("fall", Itoa(hc.unhealthyThreshold));
    } else {
      assert text + "" == text;
    }
  }

  lemma KeywordsAreTokens()
    ensures IsToken("check") && IsToken("port") && IsToken("inter") && IsToken("rise") && IsToken("fall")
    ensures IsToken("resolvers") && IsToken("rancher") && IsToken("cookie")
  {
  }

  lemma ResolverTextRead(text: string, be: BackendService, ep: Endpoint)
    ensures Fields(text + ResolverText(be, ep)) == Fields(text) + ResolverWords(be, ep)
  {
    hide Fields, IsToken, Param, Itoa;
    KeywordsAreTokens();
    if !ep.isCname {
      assert text + "" == text;
    } else {
      var blank := text + " ";
      FieldsOfBlank(text);
      if Checked(be) {
        FieldsOfParam(blank, "resolvers", "rancher");
        assert text + ResolverText(be, ep) == blank + Param("resolvers", "rancher");
      } else {
        FieldsOfWord(blank, "check");
        FieldsOfParam(blank + (" " + "check"), "resolvers", "rancher");
        assert text + ResolverText(be, ep) == blank + (" " + "check") + Param("resolvers", "rancher");
      }
    }
  }

  lemma CookieTextRead(text: string, sticky: bool, ep: Endpoint)
    requires IsToken(ep.name)
    ensures Fields(text + CookieText(sticky, ep)) == Fields(text) + CookieWords(sticky, ep)
  {
    hide Fields, IsToken, Param;
    if sticky {
      KeywordsAreTokens();
      FieldsOfParam(text, "cookie", ep.name);
    } else {
      assert text + "" == text;
    }
  }

  lemma WeightTextRead(text: string, weight: int)
    ensures Fields(text + WeightText(weight)) == Fields(text) + WeightWords(weight)
  {
    hide Fields, IsToken, Itoa;
    if weight != 1 && 0 <= weight <= 256 {
      NumberIsAToken(weight);
      FieldsOfPrinted(text, Itoa(weight));
      assert text + WeightText(weight) == text + " weight " + Itoa(weight);
    } else {
      assert text + WeightText(weight) == text;
    }
  }

  /** HAProxy reads a printed server line as the custom words, then the health check with its own
      port, interval and thresholds, the resolvers of a host name (which is always checked), the
      server's cookie and its weight. */
  lemma ServerLineWords(custom: FiledTexts, be: BackendService, sticky: bool, ep: Endpoint)
    requires IsToken(ep.name)
    ensures Fields(PrintEndpoint(custom, be, sticky, ep).config) ==
            Fields(ConfToString(Texts(custom, "backend " + be.uuid + "_$IP"), false))
            + CheckWords(be) + ResolverWords(be, ep) + CookieWords(sticky, ep) + WeightWords(ep.weight)
  {
    hide Fields, IsToken, CheckText, ResolverText, CookieText, WeightText;
    hide CheckWords, ResolverWords, CookieWords, WeightWords, ConfToString;
    var a := ConfToString(Texts(custom, "backend " + be.uuid + "_$IP"), false);
    CheckTextRead(a, be);
    ResolverTextRead(a + CheckText(be), be, ep);
    CookieTextRead(a + CheckText(be) + ResolverText(be, ep), sticky, ep);
    WeightTextRead(LineText(custom, be, sticky, ep), ep.weight);
  }

  // ---------------------------------------------------------------------------------------
  // Backends and frontends
  // ---------------------------------------------------------------------------------------

  /** The stickiness policy applies to HTTP and HTTPS frontends. */
  predicate Sticky(policy: Option<StickinessPolicy>, fe: FrontendService) {
    && policy.Some? && policy.value.mode != ""
    && (EqualFold(fe.protocol, HTTPS_PROTO) || EqualFold(fe.protocol, HTTP_PROTO))
  }

  /** The policy after a backend used it: the first one names the cookie if nobody has. */
  function NamedBy(policy: Option<StickinessPolicy>, be: BackendService): Option<StickinessPolicy> {
    if policy.Some? && policy.value.cookie == "" then Some(policy.value.(cookie := be.uuid)) else policy
  }

  function CookieLine(p: StickinessPolicy): string {
    "cookie " + p.cookie + " " + p.mode
    + (if p.indirect then " indirect" else "") + (if p.nocache then " nocache" else "")
    + (if p.postonly then " postonly" else "") + (if p.domain != "" then Param("domain", p.domain) else "")
  }

  function TimeoutLine(hc: HealthCheck): string {
    "timeout check " + Itoa(hc.responseTimeout)
  }

  function RequestLine(hc: HealthCheck): string {
    "option httpchk " + hc.requestLine
  }

  /** One more line of a backend. */
  function NextLine(line: string): string {
    "\n    " + line
  }

  function BackendText(custom: FiledTexts, be: BackendService, policy: Option<StickinessPolicy>): string {
    ConfToString(Texts(custom, "backend " + be.uuid) + Texts(custom, "backend"), true)
    + (if Checked(be) then
         NextLine(TimeoutLine(be.healthCheck.value))
         + (if be.healthCheck.value.requestLine != "" then NextLine(RequestLine(be.healthCheck.value)) else "")
       else "")
    + (if policy.Some? then NextLine(CookieLine(policy.value)) else "")
  }

  function PrintEndpoints(custom: FiledTexts, be: BackendService, sticky: bool): seq<Endpoint> {
    seq(|be.endpoints|, i requires 0 <= i < |be.endpoints| => PrintEndpoint(custom, be, sticky, be.endpoints[i]))
  }

  /** `policy` is present if the frontend is sticky; its cookie is named by then. */
  function PrintBackend(custom: FiledTexts, be: BackendService, policy: Option<StickinessPolicy>): BackendService {
    be.(config := BackendText(custom, be, policy), endpoints := PrintEndpoints(custom, be, policy.Some?))
  }

  predicate IsAcceptProxy(value: string) {
    EqualFold(TrimSpace(value), "accept-proxy")
  }

  function WithoutAcceptProxy(values: seq<string>): seq<string> {
    if values == [] then []
    else
      WithoutAcceptProxy(values[..|values| - 1]) +
      if IsAcceptProxy(values[|values| - 1]) then [] else [values[|values| - 1]]
  }

  /** The policy after the first `n` backends of a sticky frontend. */
  function NamedByAll(policy: Option<StickinessPolicy>, bes: seq<BackendService>): Option<StickinessPolicy> {
    if bes == [] then policy else NamedBy(NamedByAll(policy, bes[..|bes| - 1]), bes[|bes| - 1])
  }

  function PrintBackends(custom: FiledTexts, bes: seq<BackendService>,
        policy: Option<StickinessPolicy>): seq<BackendService>
  {
    seq(|bes|, i requires 0 <= i < |bes| => PrintBackend(custom, bes[i], NamedByAll(policy, bes[..i + 1])))
  }

  function PolicyOf(policy: Option<StickinessPolicy>, fe: FrontendService): Option<StickinessPolicy> {
    if Sticky(policy, fe) then policy else None
  }

  function PrintFrontend(custom: FiledTexts, fe: FrontendService, policy: Option<StickinessPolicy>): FrontendService {
    var values := Texts(custom, "frontend " + fe.name);
    fe.(acceptProxy := fe.acceptProxy || exists i :: 0 <= i < |values| && IsAcceptProxy(values[i]),
        config := ConfToString(WithoutAcceptProxy(values), true),
        backends := PrintBackends(custom, fe.backends, PolicyOf(policy, fe)))
  }

  /** The policy after the first frontends: it is shared by all. */
  function PolicyAfter(policy: Option<StickinessPolicy>, fes: seq<FrontendService>): Option<StickinessPolicy> {
    if fes == [] then policy
    else
      var so, fe := PolicyAfter(policy, fes[..|fes| - 1]), fes[|fes| - 1];
      if Sticky(so, fe) then NamedByAll(so, fe.backends) else so
  }

  function PrintFrontends(custom: FiledTexts, fes: seq<FrontendService>,
        policy: Option<StickinessPolicy>): seq<FrontendService>
  {
    seq(|fes|, i requires 0 <= i < |fes| => PrintFrontend(custom, fes[i], PolicyAfter(policy, fes[..i])))
  }

  /** The names of the sections a backend, a frontend or all frontends have used. */
  function BackendNames(be: BackendService): set<string> {
    {"backend " + be.uuid} + if be.endpoints != [] then {"backend " + be.uuid + "_$IP"} else {}
  }

  function FrontendNames(name: string, bes: seq<BackendService>): set<string> {
    if bes == [] then {"frontend " + name} else FrontendNames(name, bes[..|bes| - 1]) + BackendNames(bes[|bes| - 1])
  }

  function UsedNames(fes: seq<FrontendService>): set<string> {
    if fes == [] then {}
    else UsedNames(fes[..|fes| - 1]) + FrontendNames(fes[|fes| - 1].name, fes[|fes| - 1].backends)
  }

  // ---------------------------------------------------------------------------------------
  // The lines of a backend
  // ---------------------------------------------------------------------------------------

  /** The lines after the custom ones. */
  function BackendLines(be: BackendService, policy: Option<StickinessPolicy>): seq<string> {
    (if Checked(be) then
       [TimeoutLine(be.healthCheck.value)]
       + if be.healthCheck.value.requestLine != "" then [RequestLine(be.healthCheck.value)] else []
     else [])
    + if policy.Some? then [CookieLine(policy.value)] else []
  }

  lemma {:induction false} JoinNext(lines: seq<string>, sep: string, last: string)
    requires lines != []
    ensures Join(lines + [last], sep) == Join(lines, sep) + sep + last
  {
    if |lines| == 1 {
      assert (lines + [last])[1..] == [last];
    } else {
      JoinNext(lines[1..], sep, last);
      assert (lines + [last])[1..] == lines[1..] + [last];
      assert Join(lines, sep) == lines[0] + sep + Join(lines[1..], sep);
    }
  }

  lemma OneMoreLine(lines: seq<string>, last: string)
    requires lines != []
    ensures ConfToString(lines + [last], true) == ConfToString(lines, true) + NextLine(last)
  {
    JoinNext(lines, "\n    ", last);
  }

  /** A backend with custom lines (the default ones count, and "backend" always has some) prints
      them, then its check timeout and request, then its cookie: one line each. */
  lemma BackendTextIs(custom: FiledTexts, be: BackendService, policy: Option<StickinessPolicy>)
    requires Texts(custom, "backend") != []
    ensures BackendText(custom, be, policy) ==
            var lines := Texts(custom, "backend " + be.uuid) + Texts(custom, "backend") + BackendLines(be, policy);
            ConfToString(lines, true)
  {
    hide ConfToString, CookieLine, Texts, TimeoutLine, RequestLine, NextLine;
    var own := Texts(custom, "backend " + be.uuid) + Texts(custom, "backend");
    var lines, text := own, ConfToString(own, true);
    if Checked(be) {
      var hc := be.healthCheck.value;
      OneMoreLine(lines, TimeoutLine(hc));
      lines, text := lines + [TimeoutLine(hc)], text + NextLine(TimeoutLine(hc));
      if hc.requestLine != "" {
        OneMoreLine(lines, RequestLine(hc));
        lines, text := lines + [RequestLine(hc)], text + NextLine(RequestLine(hc));
      }
    }
    if policy.Some? {
      OneMoreLine(lines, CookieLine(policy.value));
      lines, text := lines + [CookieLine(policy.value)], text + NextLine(CookieLine(policy.value));
    }
    assert lines == own + BackendLines(be, policy);
    assert text == BackendText(custom, be, policy);
  }

  function CookieLineWords(p: StickinessPolicy): seq<string> {
    ["cookie"] + Fields(p.cookie) + Fields(p.mode)
    + (if p.indirect then ["indirect"] else []) + (if p.nocache then ["nocache"] else [])
    + (if p.postonly then ["postonly"] else []) + (if p.domain != "" then ["domain"] + Fields(p.domain) else [])
  }

  lemma FieldsOfTail(text: string, more: string)
    ensures Fields(text + (" " + more)) == Fields(text) + Fields(more)
  {
    FieldsOfConcat(text, ' ', more);
    assert text + (" " + more) == text + [' '] + more;
  }

  lemma FlagRead(text: string, on: bool, word: string)
    requires IsToken(word)
    ensures Fields(text + if on then " " + word else "") == Fields(text) + if on then [word] else []
  {
    hide Fields;
    FieldsOfTail(text, word);
    FieldsOfToken(word);
    assert text + "" == text;
  }

  lemma DomainRead(text: string, domain: string)
    ensures Fields(text + if domain != "" then Param("domain", domain) else "") ==
            Fields(text) + if domain != "" then ["domain"] + Fields(domain) else []
  {
    hide Fields, Param;
    if domain != "" {
      ParamRead(text, "domain", domain);
    } else {
      assert text + "" == text;
    }
  }

  lemma ParamRead(text: string, word: string, value: string)
    requires IsToken(word)
    ensures Fields(text + Param(word, value)) == Fields(text) + ([word] + Fields(value))
  {
    hide Fields, IsToken;
    FieldsOfTail(text, word);
    FieldsOfToken(word);
    FieldsOfTail(text + (" " + word), value);
    assert text + Param(word, value) == text + (" " + word) + (" " + value);
  }

  /** HAProxy reads the cookie line as the cookie, the mode, the options that are set and the
      domain. */
  lemma CookieLineRead(p: StickinessPolicy)
    ensures Fields(CookieLine(p)) == CookieLineWords(p)
  {
    hide Fields, IsToken, Param, CookieLine;
    var a := "cookie" + (" " + p.cookie) + (" " + p.mode);
    CookieWordsAreTokens();
    FieldsOfToken("cookie");
    FieldsOfTail("cookie", p.cookie);
    FieldsOfTail("cookie" + (" " + p.cookie), p.mode);
    var b := a + if p.indirect then " " + "indirect" else "";
    FlagRead(a, p.indirect, "indirect");
    var c := b + if p.nocache then " " + "nocache" else "";
    FlagRead(b, p.nocache, "nocache");
    var d := c + if p.postonly then " " + "postonly" else "";
    FlagRead(c, p.postonly, "postonly");
    DomainRead(d, p.domain);
    CookieLineIs(p);
  }

  lemma CookieWordsAreTokens()
    ensures IsToken("cookie") && IsToken("indirect") && IsToken("nocache") && IsToken("postonly")
  {
  }

  lemma CookieLineIs(p: StickinessPolicy)
    ensures CookieLine(p) ==
            "cookie" + (" " + p.cookie) + (" " + p.mode)
            + (if p.indirect then " " + "indirect" else "") + (if p.nocache then " " + "nocache" else "")
            + (if p.postonly then " " + "postonly" else "") + (if p.domain != "" then Param("domain", p.domain) else "")
  {
    assert "cookie " + p.cookie + " " + p.mode == "cookie" + (" " + p.cookie) + (" " + p.mode);
    assert " " + "indirect" == " indirect" && " " + "nocache" == " nocache" && " " + "postonly" == " postonly";
  }

  /** The words of the check timeout, of the request and of the cookie line. */
  function BackendWords(be: BackendService, policy: Option<StickinessPolicy>): seq<seq<string>> {
    var hc := be.healthCheck;
    (if hc.Some? && hc.value.port > 0 then
       [["timeout", "check", Itoa(hc.value.responseTimeout)]]
       + if hc.value.requestLine != "" then [["option", "httpchk"] + Fields(hc.value.requestLine)] else []
     else [])
    + if policy.Some? then [CookieLineWords(policy.value)] else []
  }

  function WordsOfEach(lines: seq<string>): seq<seq<string>> {
    seq(|lines|, i requires 0 <= i < |lines| => Fields(lines[i]))
  }

  lemma TimeoutLineRead(hc: HealthCheck)
    ensures Fields(TimeoutLine(hc)) == ["timeout", "check", Itoa(hc.responseTimeout)]
  {
    hide Fields, IsToken, Itoa;
    CheckTokens();
    NumberIsAToken(hc.responseTimeout);
    FieldsOfAppended("timeout", "check", Itoa(hc.responseTimeout));
    FieldsOfToken("timeout");
    assert TimeoutLine(hc) == "timeout" + " " + "check" + " " + Itoa(hc.responseTimeout);
  }

  lemma RequestLineRead(hc: HealthCheck)
    ensures Fields(RequestLine(hc)) == ["option", "httpchk"] + Fields(hc.requestLine)
  {
    hide Fields, IsToken;
    CheckTokens();
    FieldsOfToken("option");
    FieldsOfWord("option", "httpchk");
    FieldsOfTail("option" + (" " + "httpchk"), hc.requestLine);
    assert RequestLine(hc) == "option" + (" " + "httpchk") + (" " + hc.requestLine);
  }

  lemma CheckTokens()
    ensures IsToken("timeout") && IsToken("check") && IsToken("option") && IsToken("httpchk")
  {
  }

  /** And these lines are read as the timeout and the request of its own health check, if it has one
      with a port, and the cookie. */
  lemma BackendLinesRead(be: BackendService, policy: Option<StickinessPolicy>)
    ensures WordsOfEach(BackendLines(be, policy)) == BackendWords(be, policy)
  {
    hide Fields, CookieLine, CookieLineWords, TimeoutLine, RequestLine, Itoa;
    if Checked(be) {
      TimeoutLineRead(be.healthCheck.value);
      RequestLineRead(be.healthCheck.value);
    }
    if policy.Some? {
      CookieLineRead(policy.value);
    }
  }

  // ---------------------------------------------------------------------------------------
  // Sections that frontends and backends do not use
  // ---------------------------------------------------------------------------------------

  lemma {:induction false} UsedByFrontend(fes: seq<FrontendService>, f: nat)
    requires f < |fes|
    ensures FrontendNames(fes[f].name, fes[f].backends) <= UsedNames(fes)
  {
    hide FrontendNames;
    if f < |fes| - 1 {
      UsedByFrontend(fes[..|fes| - 1], f);
    }
  }

  lemma {:induction false} UsedByBackend(name: string, bes: seq<BackendService>, b: nat)
    requires b < |bes|
    ensures BackendNames(bes[b]) <= FrontendNames(name, bes) && "frontend " + name in FrontendNames(name, bes)
  {
    hide BackendNames;
    FrontendNameIsUsed(name, bes);
    if b < |bes| - 1 {
      UsedByBackend(name, bes[..|bes| - 1], b);
    }
  }

  lemma {:induction false} FrontendNameIsUsed(name: string, bes: seq<BackendService>)
    ensures "frontend " + name in FrontendNames(name, bes)
  {
    if bes != [] {
      FrontendNameIsUsed(name, bes[..|bes| - 1]);
    }
  }

  lemma UnusedByBackend(custom: FiledTexts, be: BackendService, policy: Option<StickinessPolicy>, section: string)
    requires section != "backend" && section !in BackendNames(be)
    ensures PrintBackend(custom - {section}, be, policy) == PrintBackend(custom, be, policy)
  {
    hide ConfToString, CookieLine, CheckText, ResolverText, CookieText, WeightText;
    var less := custom - {section};
    assert Texts(less, "backend " + be.uuid) == Texts(custom, "backend " + be.uuid);
    assert Texts(less, "backend") == Texts(custom, "backend");
    assert be.endpoints != [] ==>
        Texts(less, "backend " + be.uuid + "_$IP") == Texts(custom, "backend " + be.uuid + "_$IP");
    assert PrintEndpoints(less, be, policy.Some?) == PrintEndpoints(custom, be, policy.Some?);
  }

  lemma UnusedByFrontend(custom: FiledTexts, fe: FrontendService, policy: Option<StickinessPolicy>, section: string)
    requires section != "backend" && section !in FrontendNames(fe.name, fe.backends)
    ensures PrintFrontend(custom - {section}, fe, policy) == PrintFrontend(custom, fe, policy)
  {
    hide PrintBackend, BackendNames, FrontendNames, NamedByAll, ConfToString, IsAcceptProxy, Sticky;
    var less := custom - {section};
    FrontendNameIsUsed(fe.name, fe.backends);
    assert Texts(less, "frontend " + fe.name) == Texts(custom, "frontend " + fe.name);
    forall b | 0 <= b < |fe.backends|
      ensures PrintBackends(less, fe.backends, PolicyOf(policy, fe))[b] ==
              PrintBackends(custom, fe.backends, PolicyOf(policy, fe))[b]
    {
      UsedByBackend(fe.name, fe.backends, b);
      UnusedByBackend(custom, fe.backends[b], NamedByAll(PolicyOf(policy, fe), fe.backends[..b + 1]), section);
    }
    assert PrintBackends(less, fe.backends, PolicyOf(policy, fe)) ==
        PrintBackends(custom, fe.backends, PolicyOf(policy, fe));
  }

  /** A section whose name no frontend, backend or server line asks for has no part in their texts
      either. With `SectionIsPrintedIff`, its lines are printed if and only if it is an extra one. */
  lemma UnusedSectionIsNotPrinted(custom: FiledTexts, fes: seq<FrontendService>, policy: Option<StickinessPolicy>,
        section: string)
    requires section != "backend" && section !in UsedNames(fes)
    ensures PrintFrontends(custom - {section}, fes, policy) == PrintFrontends(custom, fes, policy)
  {
    hide PrintFrontend, FrontendNames, PolicyAfter;
    forall f | 0 <= f < |fes|
      ensures PrintFrontends(custom - {section}, fes, policy)[f] == PrintFrontends(custom, fes, policy)[f]
    {
      UsedByFrontend(fes, f);
      UnusedByFrontend(custom, fes[f], PolicyAfter(policy, fes[..f]), section);
    }
  }

  lemma {:induction false} UsedNamesHaveBlanks(name: string, bes: seq<BackendService>, section: string)
    requires section in FrontendNames(name, bes)
    ensures ' ' in section
  {
    if bes == [] {
      assert section[8] == ' ';
    } else if section in FrontendNames(name, bes[..|bes| - 1]) {
      UsedNamesHaveBlanks(name, bes[..|bes| - 1], section);
    } else {
      assert section[7] == ' ';
    }
  }

  lemma {:induction false} UsedSectionHasBlank(fes: seq<FrontendService>, section: string)
    requires section in UsedNames(fes)
    ensures ' ' in section
  {
    hide FrontendNames;
    var front, fe := fes[..|fes| - 1], fes[|fes| - 1];
    if section in UsedNames(front) {
      UsedSectionHasBlank(front, section);
    } else {
      UsedNamesHaveBlanks(fe.name, fe.backends, section);
    }
  }

  /** A header such as "GLOBAL" or "Defaults" opens a section that has no part in any text. */
  lemma MiscasedSectionIsLost(custom: FiledTexts, fes: seq<FrontendService>, policy: Option<StickinessPolicy>,
        name: string, word: string)
    requires IsSectionWord(word) && EqualFold(name, word) && !IsSectionWord(name) && name in custom
    ensures KindOf(name) == Header(name)
    ensures GlobalText(custom - {name}, UsedNames(fes)) == GlobalText(custom, UsedNames(fes))
    ensures PrintFrontends(custom - {name}, fes, policy) == PrintFrontends(custom, fes, policy)
  {
    hide GlobalText, PrintFrontends, UsedNames;
    FoldedWordIsToken(name, word);
    MiscasedSectionIsDropped(custom, UsedNames(fes), name, word);
    if name in UsedNames(fes) {
      UsedSectionHasBlank(fes, name);
    }
    UnusedSectionIsNotPrinted(custom, fes, policy, name);
  }

  // ---------------------------------------------------------------------------------------
  // One cookie for everybody
  // ---------------------------------------------------------------------------------------

  /** The first name among these backends, or "". */
  function FirstName(bes: seq<BackendService>): string {
    if bes == [] then ""
    else if FirstName(bes[..|bes| - 1]) != "" then FirstName(bes[..|bes| - 1])
    else bes[|bes| - 1].uuid
  }

  /** The backends of the sticky frontends, in order. */
  function StickyBackends(policy: Option<StickinessPolicy>, fes: seq<FrontendService>): seq<BackendService> {
    if fes == [] then []
    else
      StickyBackends(policy, fes[..|fes| - 1]) +
      if Sticky(policy, fes[|fes| - 1]) then fes[|fes| - 1].backends else []
  }

  /** The cookie the policy comes with, or the first name. */
  function Cookie(policy: StickinessPolicy, bes: seq<BackendService>): string {
    if policy.cookie != "" then policy.cookie else FirstName(bes)
  }

  lemma {:induction false} NamedByAllIs(policy: StickinessPolicy, bes: seq<BackendService>)
    ensures NamedByAll(Some(policy), bes) == Some(policy.(cookie := Cookie(policy, bes)))
  {
    if bes != [] {
      NamedByAllIs(policy, bes[..|bes| - 1]);
    }
  }

  lemma {:induction false} FirstNameOfConcat(a: seq<BackendService>, b: seq<BackendService>)
    ensures FirstName(a + b) == if FirstName(a) != "" then FirstName(a) else FirstName(b)
  {
    if b == [] {
      assert a + b == a;
    } else {
      FirstNameOfConcat(a, b[..|b| - 1]);
      assert (a + b)[..|a + b| - 1] == a + b[..|b| - 1];
    }
  }

  /** The policy is one shared object: after any frontends its cookie is the given one, or the first
      name of any backend of a sticky frontend so far. */
  lemma {:induction false} PolicyAfterIs(policy: StickinessPolicy, fes: seq<FrontendService>)
    ensures PolicyAfter(Some(policy), fes) == Some(policy.(cookie := Cookie(policy, StickyBackends(Some(policy), fes))))
  {
    if fes != [] {
      var front, fe := fes[..|fes| - 1], fes[|fes| - 1];
      PolicyAfterIs(policy, front);
      var so := policy.(cookie := Cookie(policy, StickyBackends(Some(policy), front)));
      assert Sticky(Some(so), fe) == Sticky(Some(policy), fe);
      NamedByAllIs(so, fe.backends);
      FirstNameOfConcat(StickyBackends(Some(policy), front), fe.backends);
      assert StickyBackends(Some(policy), front) + [] == StickyBackends(Some(policy), front);
    }
  }

  /** So backend `b` of sticky frontend `f` prints the given cookie, or the first name of all the
      backends of sticky frontends up to itself: whichever comes first names the cookie of all. */
  lemma BackendsShareTheFirstCookie(custom: FiledTexts, policy: StickinessPolicy, fes: seq<FrontendService>, f: nat,
        b: nat)
    requires f < |fes| && b < |fes[f].backends| && Sticky(Some(policy), fes[f])
    ensures var before := StickyBackends(Some(policy), fes[..f]) + fes[f].backends[..b + 1];
            var fe := PrintFrontends(custom, fes, Some(policy))[f];
            && b < |fe.backends|
            && fe.backends[b] ==
                 PrintBackend(custom, fes[f].backends[b], Some(policy.(cookie := Cookie(policy, before))))
  {
    hide LineText, BackendText, ConfToString, Texts, IsAcceptProxy, PrintBackend, FirstName, NamedByAll, PolicyAfter;
    PolicyAfterIs(policy, fes[..f]);
    var so := policy.(cookie := Cookie(policy, StickyBackends(Some(policy), fes[..f])));
    assert Sticky(Some(so), fes[f]);
    NamedByAllIs(so, fes[f].backends[..b + 1]);
    FirstNameOfConcat(StickyBackends(Some(policy), fes[..f]), fes[f].backends[..b + 1]);
    assert PrintFrontends(custom, fes, Some(policy))[f] == PrintFrontend(custom, fes[f], Some(so));
  }

  /** If the first of them has a name and no cookie is given, all carry that name. */
  lemma {:induction false} FirstNameIsTheFirst(bes: seq<BackendService>)
    requires bes != [] && bes[0].uuid != ""
    ensures FirstName(bes) == bes[0].uuid
  {
    if |bes| > 1 {
      FirstNameIsTheFirst(bes[..|bes| - 1]);
    } else {
      assert bes[..0] == [];
    }
  }
}
