/** BuildCustomConfig as a whole (provider/haproxy/haproxy_config_util.go:94-270). */
module CustomConfig {
  import opened Prelude
  import opened Text
  import opened Config
  import opened CustomSections
  import opened ServerLines

  /** GetDefaultConfig. */
  const CIPHERS :=
    "ECDHE-ECDSA-AES128-GCM-SHA256:ECDHE-RSA-AES128-GCM-SHA256:ECDHE-ECDSA-AES128-SHA256:ECDHE-RSA-AES128-SHA256:"
    + "ECDHE-ECDSA-AES128-SHA:ECDHE-RSA-AES128-SHA:ECDHE-ECDSA-AES256-GCM-SHA384:ECDHE-RSA-AES256-GCM-SHA384:"
    + "ECDHE-ECDSA-AES256-SHA384:ECDHE-RSA-AES256-SHA384:ECDHE-RSA-AES256-SHA:ECDHE-ECDSA-AES256-SHA:"
    + "AES128-GCM-SHA256:AES128-SHA256:AES128-SHA:AES256-GCM-SHA384:AES256-SHA256:AES256-SHA"

  const GLOBAL_DEFAULTS: map<string, string> := map[
    "maxconn" := "4096", "maxpipes" := "1024", "ssl-default-bind-ciphers" := CIPHERS,
    "ssl-default-server-ciphers" := CIPHERS,
    "ssl-default-bind-options" := "no-sslv3 no-tlsv10 no-tls-tickets", "chroot" := "/var/lib/haproxy", "daemon" := "",
    "stats socket" := "/run/haproxy/haproxy.sock mode 600 level admin", "stats timeout" := "2m"]

  const DEFAULTS_DEFAULTS: map<string, string> := map[
    "mode" := "tcp", "option redispatch" := "", "option http-server-close" := "", "option forwardfor" := "",
    "maxconn" := "4096", "retries" := "3", "timeout connect" := "5000",
    "timeout client" := "50000", "timeout server" := "50000",
    "errorfile 400" := "/etc/haproxy/errors/400.http", "errorfile 403" := "/etc/haproxy/errors/403.http",
    "errorfile 408" := "/etc/haproxy/errors/408.http", "errorfile 500" := "/etc/haproxy/errors/500.http",
    "errorfile 502" := "/etc/haproxy/errors/502.http", "errorfile 503" := "/etc/haproxy/errors/503.http",
    "errorfile 504" := "/etc/haproxy/errors/504.http"]

  const BACKEND_DEFAULTS: map<string, string> := map[
    "http-request add-header X-Forwarded-Proto" := "https if { ssl_fc } forwarded_proto",
    "http-request add-header X-Forwarded-Port" := "%[dst_port] if forwarded_port"]

  function DefaultConfig(): (defaults: Sections)
    ensures KeywordSections(defaults)
  {
    assert KEYWORDS[3] == "defaults" && KEYWORDS[2] == "global" && KEYWORDS[0] == "backend";
    map["defaults" := DEFAULTS_DEFAULTS, "global" := GLOBAL_DEFAULTS, "backend" := BACKEND_DEFAULTS]
  }

  /** strings.Split at line ends. */
  function SplitLines(text: string): seq<string> {
    if text == "" then [""]
    else
      var rest := SplitLines(text[1..]);
      if text[0] == '\n' then [""] + rest
      else if rest == [] then [text] else [[text[0]] + rest[0]] + rest[1..]
  }

  // ---------------------------------------------------------------------------------------
  // The loops over frontends, backends and endpoints
  // ---------------------------------------------------------------------------------------

  method BuildBackend(custom: FiledTexts, be: BackendService, policy: Option<StickinessPolicy>)
    returns (built: BackendService, policy': Option<StickinessPolicy>, used: set<string>)
    ensures policy' == NamedBy(policy, be)
    ensures built == PrintBackend(custom, be, policy') && used == BackendNames(be)
  {
    hide LineText, BackendText;
    policy' := policy;
    if policy'.Some? && policy'.value.cookie == "" {
      policy' := Some(policy'.value.(cookie := be.uuid));
    }
    used := {"backend " + be.uuid};
    var endpoints: seq<Endpoint> := [];
    for i := 0 to |be.endpoints|
      invariant |endpoints| == i
      invariant forall j :: 0 <= j < i ==> endpoints[j] == PrintEndpoint(custom, be, policy'.Some?, be.endpoints[j])
      invariant used == {"backend " + be.uuid} + if i > 0 then {"backend " + be.uuid + "_$IP"} else {}
    {
      var ep := be.endpoints[i];
      ep := ep.(config := LineText(custom, be, policy'.Some?, ep));
      used := used + {"backend " + be.uuid + "_$IP"};
      if ep.weight != 1 && ep.weight >= 0 && ep.weight < 257 {
        ep := ep.(config := ep.config + (" weight " + Itoa(ep.weight)));
      } else {
        assert ep.config + "" == ep.config;
      }
      endpoints := endpoints + [ep];
    }
    assert endpoints == PrintEndpoints(custom, be, policy'.Some?);
    built := be.(config := BackendText(custom, be, policy'), endpoints := endpoints);
  }

  method BuildBackends(custom: FiledTexts, name: string, bes: seq<BackendService>, policy: Option<StickinessPolicy>)
    returns (built: seq<BackendService>, policy': Option<StickinessPolicy>, used: set<string>)
    ensures built == PrintBackends(custom, bes, policy) && policy' == NamedByAll(policy, bes)
            && used == FrontendNames(name, bes)
  {
    hide PrintBackend, BackendNames, NamedBy;
    built, policy', used := [], policy, {"frontend " + name};
    for i := 0 to |bes|
      invariant |built| == i && policy' == NamedByAll(policy, bes[..i]) && used == FrontendNames(name, bes[..i])
      invariant forall j :: 0 <= j < i ==> built[j] == PrintBackend(custom, bes[j], NamedByAll(policy, bes[..j + 1]))
    {
      var be, more;
      assert bes[..i + 1][..i] == bes[..i];
      be, policy', more := BuildBackend(custom, bes[i], policy');
      built, used := built + [be], used + more;
    }
    assert bes[..|bes|] == bes;
    assert built == PrintBackends(custom, bes, policy);
  }

  /** The custom values of a frontend. */
  method ReadFrontendValues(values: seq<string>, before: bool) returns (custom: seq<string>, acceptProxy: bool)
    ensures custom == WithoutAcceptProxy(values)
    ensures acceptProxy <==> before || exists i :: 0 <= i < |values| && IsAcceptProxy(values[i])
  {
    hide IsAcceptProxy;
    custom, acceptProxy := [], before;
    for i := 0 to |values|
      invariant custom == WithoutAcceptProxy(values[..i])
      invariant acceptProxy <==> before || exists j :: 0 <= j < i && IsAcceptProxy(values[j])
    {
      assert values[..i + 1][..i] == values[..i];
      if IsAcceptProxy(values[i]) {
        acceptProxy := true;
        continue;
      }
      custom := custom + [values[i]];
    }
    assert values[..|values|] == values;
  }

  method BuildFrontend(custom: FiledTexts, fe: FrontendService, policy: Option<StickinessPolicy>)
    returns (built: FrontendService, policy': Option<StickinessPolicy>, used: set<string>)
    ensures built == PrintFrontend(custom, fe, policy)
    ensures policy' == if Sticky(policy, fe) then NamedByAll(policy, fe.backends) else policy
    ensures used == FrontendNames(fe.name, fe.backends)
  {
    hide PrintBackends, ConfToString, Texts, IsAcceptProxy;
    var values, acceptProxy := ReadFrontendValues(Texts(custom, "frontend " + fe.name), fe.acceptProxy);
    var backends, named;
    backends, named, used := BuildBackends(custom, fe.name, fe.backends, PolicyOf(policy, fe));
    policy' := if Sticky(policy, fe) then named else policy;
    built := fe.(acceptProxy := acceptProxy, config := ConfToString(values, true), backends := backends);
  }

  method BuildFrontends(custom: FiledTexts, fes: seq<FrontendService>, policy: Option<StickinessPolicy>)
    returns (built: seq<FrontendService>, policy': Option<StickinessPolicy>, used: set<string>)
    ensures built == PrintFrontends(custom, fes, policy) && policy' == PolicyAfter(policy, fes)
            && used == UsedNames(fes)
  {
    hide PrintFrontend, FrontendNames, NamedByAll, Sticky;
    built, policy', used := [], policy, {};
    for i := 0 to |fes|
      invariant policy' == PolicyAfter(policy, fes[..i]) && used == UsedNames(fes[..i])
      invariant built == PrintFrontends(custom, fes, policy)[..i]
    {
      var fe, more;
      assert fes[..i + 1][..i] == fes[..i];
      fe, policy', more := BuildFrontend(custom, fes[i], policy');
      built, used := built + [fe], used + more;
    }
    assert fes[..|fes|] == fes;
  }

  // ---------------------------------------------------------------------------------------
  // The whole configuration
  // ---------------------------------------------------------------------------------------

  /** `out` is `config` with all texts filled in from what the line loop left in `p`. */
  ghost predicate IsBuiltFrom(config: LoadBalancerConfig, p: Parser, out: LoadBalancerConfig) {
    var all := WithDefaults(p.custom, p.left);
    && out.frontends == PrintFrontends(all, config.frontends, config.policy)
    && out.policy == PolicyAfter(config.policy, config.frontends)
    && out.config == GlobalText(all, UsedNames(config.frontends))
  }

  /** `out` is `config` completed by the custom text and whatever it leaves of `defaults`. */
  ghost predicate IsBuilt(config: LoadBalancerConfig, defaults: Sections, text: string, out: LoadBalancerConfig) {
    var lines := SplitLines(text);
    exists p :: HasRead(p, defaults, Lines(lines), |lines|) && IsBuiltFrom(config, p, out)
  }

  method BuildCustomConfig(config: LoadBalancerConfig, text: string) returns (out: LoadBalancerConfig)
    ensures IsBuilt(config, DefaultConfig(), text, out)
  {
    hide DefaultConfig, SplitLines, Lines, HasRead, WithDefaults, GlobalText, UsedNames, PolicyAfter, PrintFrontends;
    var lines := SplitLines(text);
    var p := ReadLines(lines, DefaultConfig());
    var all := AppendDefaults(p.custom, p.left);
    var frontends, policy, used := BuildFrontends(all, config.frontends, config.policy);
    var globals := PrintGlobal(all, used);
    out := LoadBalancerConfig(frontends, globals, policy);
    assert IsBuiltFrom(config, p, out);
  }

  lemma SameParser(p: Parser, q: Parser, defaults: Sections, lines: seq<Line>)
    requires HasRead(p, defaults, lines, |lines|) && HasRead(q, defaults, lines, |lines|)
    ensures p == q
  {
    forall name ensures Texts(p.custom, name) == Texts(q.custom, name) {
      assert Texts(p.custom, name) == FiledUnder(lines, |lines|, name) == Texts(q.custom, name);
    }
    forall name ensures name in p.custom <==> name in q.custom {
      assert Texts(p.custom, name) == Texts(q.custom, name);
    }
    forall name | name in p.custom ensures p.custom[name] == q.custom[name] {
      assert Texts(p.custom, name) == Texts(q.custom, name);
    }
    assert p.custom == q.custom;
    assert p.left == q.left;
  }

  /** The configuration depends on nothing but the input and the custom text: whatever order the
      maps are ranged in, all produced texts are the same. */
  lemma BuildIsDeterministic(config: LoadBalancerConfig, defaults: Sections, text: string,
        out: LoadBalancerConfig, out': LoadBalancerConfig)
    requires IsBuilt(config, defaults, text, out) && IsBuilt(config, defaults, text, out')
    ensures out == out'
  {
    var lines := SplitLines(text);
    var p :| HasRead(p, defaults, Lines(lines), |lines|) && IsBuiltFrom(config, p, out);
    var p' :| HasRead(p', defaults, Lines(lines), |lines|) && IsBuiltFrom(config, p', out');
    SameParser(p, p', defaults, Lines(lines));
  }

  lemma PrintedEndpoint(custom: FiledTexts, fes: seq<FrontendService>, policy: Option<StickinessPolicy>, p: Place)
    returns (line: string)
    requires Within(PrintFrontends(custom, fes, policy), p)
    ensures Within(fes, p) && KeyOf(PrintFrontends(custom, fes, policy), p) == KeyOf(fes, p)
    ensures EndpointAt(PrintFrontends(custom, fes, policy), p) ==
            EndpointAt(fes, p).(config := line + WeightText(EndpointAt(fes, p).weight))
  {
    hide LineText, BackendText, PolicyAfter, NamedByAll, ConfToString, Texts, Sticky, WeightText;
    var fe, so := fes[p.fe], PolicyAfter(policy, fes[..p.fe]);
    assert PrintFrontends(custom, fes, policy)[p.fe] == PrintFrontend(custom, fe, so);
    var named := NamedByAll(PolicyOf(so, fe), fe.backends[..p.be + 1]);
    assert PrintFrontend(custom, fe, so).backends[p.be] == PrintBackend(custom, fe.backends[p.be], named);
    line := LineText(custom, fe.backends[p.be], named.Some?, fe.backends[p.be].endpoints[p.ep]);
  }

  /** Names, weights and stopping marks pass through, and every server line ends in its weight. */
  lemma BuiltEndpoint(config: LoadBalancerConfig, defaults: Sections, text: string, out: LoadBalancerConfig, p: Place)
    returns (line: string)
    requires IsBuilt(config, defaults, text, out) && Within(out.frontends, p)
    ensures Within(config.frontends, p) && KeyOf(out.frontends, p) == KeyOf(config.frontends, p)
    ensures var ep := EndpointAt(config.frontends, p);
            EndpointAt(out.frontends, p) == ep.(config := line + WeightText(ep.weight))
  {
    hide PrintFrontends, Within, KeyOf, EndpointAt, HasRead, SplitLines, Lines, WithDefaults, GlobalText;
    hide PolicyAfter, WeightText;
    var lines := SplitLines(text);
    var q :| HasRead(q, defaults, Lines(lines), |lines|) && IsBuiltFrom(config, q, out);
    line := PrintedEndpoint(WithDefaults(q.custom, q.left), config.frontends, config.policy, p);
  }

  lemma PrintedPlace(custom: FiledTexts, fes: seq<FrontendService>, policy: Option<StickinessPolicy>, p: Place)
    ensures var printed := PrintFrontends(custom, fes, policy);
            && |printed| == |fes|
            && (p.fe < |fes| ==> printed[p.fe].name == fes[p.fe].name)
            && (Within(fes, p) <==> Within(printed, p))
  {
    hide LineText, BackendText, PolicyAfter, NamedByAll, ConfToString, Texts, Sticky, WeightText, IsAcceptProxy;
    if p.fe < |fes| {
      var fe, so := fes[p.fe], PolicyAfter(policy, fes[..p.fe]);
      assert PrintFrontends(custom, fes, policy)[p.fe] == PrintFrontend(custom, fe, so);
      if p.be < |fe.backends| {
        var named := NamedByAll(PolicyOf(so, fe), fe.backends[..p.be + 1]);
        assert PrintFrontend(custom, fe, so).backends[p.be] == PrintBackend(custom, fe.backends[p.be], named);
      }
    }
  }

  /** Nothing is lost: every endpoint of the input has its place in the output. */
  lemma BuiltPlace(config: LoadBalancerConfig, defaults: Sections, text: string, out: LoadBalancerConfig, p: Place)
    requires IsBuilt(config, defaults, text, out)
    ensures Within(config.frontends, p) <==> Within(out.frontends, p)
    ensures |out.frontends| == |config.frontends|
    ensures p.fe < |config.frontends| ==> out.frontends[p.fe].name == config.frontends[p.fe].name
  {
    hide PrintFrontends, Within, HasRead, SplitLines, Lines, WithDefaults, GlobalText, PolicyAfter, UsedNames;
    var lines := SplitLines(text);
    var q :| HasRead(q, defaults, Lines(lines), |lines|) && IsBuiltFrom(config, q, out);
    PrintedPlace(WithDefaults(q.custom, q.left), config.frontends, config.policy, p);
  }
}
