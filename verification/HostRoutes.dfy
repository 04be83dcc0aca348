/**
 What the host of a backend means to HAProxy, and which host patterns of port rules it serves
 (controller/rancher/rancher.go:360-376, provider/haproxy/config/haproxy_template.cfg:28-44).
 */
module HostRoutes {
  import opened Text
  import opened Config
  import opened RuleMerge

  // ---------------------------------------------------------------------------------------
  // What the printed acl lines accept
  // ---------------------------------------------------------------------------------------

  /** One acl line. Host names are taken as already folded, since HAProxy compares with -i. */
  predicate AclAccepts(listener: string, comparator: string, text: string, host: string) {
    if listener == SNI_PROTO || comparator == EQ_COMPARATOR then host == text
    else if comparator == BEG_COMPARATOR then HasPrefix(host, text)
    else HasSuffix(host, text)
  }

  /** The two acl lines of a backend: its host as such, and followed by the port. A backend
      without a host has none. */
  predicate Accepts(listener: string, port: int, route: Route, host: string) {
    || route.host == ""
    || AclAccepts(listener, route.comparator, route.host, host)
    || AclAccepts(listener, route.comparator, route.host + ":" + Itoa(port), host)
  }

  // ---------------------------------------------------------------------------------------
  // What a pattern means
  // ---------------------------------------------------------------------------------------

  /** '*' stands for any text. */
  predicate Glob(pattern: string, host: string)
    decreases |pattern| + |host|
  {
    if pattern == "" then host == ""
    else if pattern[0] == '*' then Glob(pattern[1..], host) || (host != "" && Glob(pattern, host[1..]))
    else host != "" && host[0] == pattern[0] && Glob(pattern[1..], host[1..])
  }

  /** What the hostname of a rule asks for. */
  predicate StandsFor(pattern: string, host: string) {
    pattern == "" || Glob(pattern, host)
  }

  lemma {:induction false} GlobOfPlain(pattern: string, host: string)
    requires '*' !in pattern
    ensures Glob(pattern, host) <==> host == pattern
  {
    if pattern != "" && host != "" && host[0] == pattern[0] {
      GlobOfPlain(pattern[1..], host[1..]);
      assert host == [host[0]] + host[1..] && pattern == [pattern[0]] + pattern[1..];
    }
  }

  lemma {:induction false} GlobOfSuffix(text: string, host: string)
    requires '*' !in text
    ensures Glob("*" + text, host) <==> HasSuffix(host, text)
    decreases |host|
  {
    assert ("*" + text)[1..] == text;
    GlobOfPlain(text, host);
    if host != "" {
      GlobOfSuffix(text, host[1..]);
      if |text| < |host| {
        assert host[1..][|host| - 1 - |text|..] == host[|host| - |text|..];
      } else if HasSuffix(host, text) {
        assert host == text;
      }
    }
  }

  lemma {:induction false} GlobOfStar(host: string)
    ensures Glob("*", host)
  {
    assert "*"[1..] == "";
    if host != "" {
      GlobOfStar(host[1..]);
    }
  }

  lemma {:induction false} GlobOfPrefix(text: string, host: string)
    requires '*' !in text
    ensures Glob(text + "*", host) <==> HasPrefix(host, text)
  {
    if text == "" {
      assert text + "*" == "*";
      GlobOfStar(host);
    } else {
      assert (text + "*")[1..] == text[1..] + "*";
      if host != "" && host[0] == text[0] {
        GlobOfPrefix(text[1..], host[1..]);
        assert host == [host[0]] + host[1..] && text == [text[0]] + text[1..];
      }
    }
  }

  /** The pattern with every star replaced by nothing. */
  function WithoutStars(pattern: string): (host: string)
    ensures '*' !in host
    ensures forall c :: c in host ==> c in pattern
  {
    if pattern == "" then ""
    else if pattern[0] == '*' then WithoutStars(pattern[1..])
    else [pattern[0]] + WithoutStars(pattern[1..])
  }

  lemma {:induction false} GlobWithoutStars(pattern: string)
    ensures Glob(pattern, WithoutStars(pattern))
  {
    if pattern != "" {
      GlobWithoutStars(pattern[1..]);
      if pattern[0] != '*' {
        assert WithoutStars(pattern)[1..] == WithoutStars(pattern[1..]);
      }
    }
  }

  lemma {:induction false} GlobKeepsText(pattern: string, host: string, c: char)
    requires Glob(pattern, host) && c in pattern && c != '*'
    ensures c in host
    decreases |pattern| + |host|
  {
    if pattern[0] == '*' {
      if Glob(pattern[1..], host) {
        GlobKeepsText(pattern[1..], host, c);
      } else {
        GlobKeepsText(pattern, host[1..], c);
      }
    } else if pattern[0] != c {
      GlobKeepsText(pattern[1..], host[1..], c);
    }
  }

  // ---------------------------------------------------------------------------------------
  // Which patterns work
  // ---------------------------------------------------------------------------------------

  /** No star; or just one, at an end of at least three characters, and not with SNI. */
  predicate Supported(listener: string, pattern: string) {
    || '*' !in pattern
    || (|pattern| > 2 && listener != SNI_PROTO
        && ((pattern[0] == '*' && '*' !in pattern[1..])
            || (pattern[|pattern| - 1] == '*' && '*' !in pattern[..|pattern| - 1])))
  }

  lemma TextIsInHost(listener: string, comparator: string, text: string, host: string, i: nat)
    requires AclAccepts(listener, comparator, text, host) && i < |text|
    ensures text[i] in host
  {
    if listener == SNI_PROTO || comparator == EQ_COMPARATOR {
    } else if comparator == BEG_COMPARATOR {
      assert host[i] == text[i];
    } else {
      assert host[|host| - |text| + i] == text[i];
    }
  }

  /** The text after a colon plays no role for a host without a port. */
  lemma PortLineIsSilent(listener: string, comparator: string, text: string, port: int, host: string)
    requires ':' !in host
    ensures !AclAccepts(listener, comparator, text + ":" + Itoa(port), host)
  {
    var line := text + ":" + Itoa(port);
    assert line[|text|] == ':';
    if AclAccepts(listener, comparator, line, host) {
      TextIsInHost(listener, comparator, line, host, |text|);
    }
  }

  lemma SupportedIsServed(rule: PortRule, listener: string, host: string)
    requires RoutesByHost(rule.protocol) && Supported(listener, rule.hostname)
    ensures AclAccepts(listener, RouteOf(rule).comparator, RouteOf(rule).host, host) <==> Glob(rule.hostname, host)
  {
    var pattern := rule.hostname;
    if '*' !in pattern {
      GlobOfPlain(pattern, host);
    } else if pattern[0] == '*' {
      assert pattern == "*" + pattern[1..];
      assert pattern[..|pattern| - 1][0] == pattern[0];
      GlobOfSuffix(pattern[1..], host);
    } else {
      assert pattern == pattern[..|pattern| - 1] + "*";
      GlobOfPrefix(pattern[..|pattern| - 1], host);
    }
  }

  /** A star that is left in the text of the route is taken literally. */
  lemma LiteralStarAccepts(listener: string, comparator: string, text: string, host: string)
    requires '*' in text && '*' !in host
    ensures !AclAccepts(listener, comparator, text, host)
  {
    var i :| 0 <= i < |text| && text[i] == '*';
    if AclAccepts(listener, comparator, text, host) {
      TextIsInHost(listener, comparator, text, host, i);
    }
  }

  lemma LiteralStarIsNotServed(rule: PortRule, listener: string) returns (host: string)
    requires RoutesByHost(rule.protocol) && '*' in RouteOf(rule).host && ':' !in rule.hostname
    ensures ':' !in host && Glob(rule.hostname, host)
    ensures !AclAccepts(listener, RouteOf(rule).comparator, RouteOf(rule).host, host)
  {
    host := WithoutStars(rule.hostname);
    GlobWithoutStars(rule.hostname);
    LiteralStarAccepts(listener, RouteOf(rule).comparator, RouteOf(rule).host, host);
  }

  /** With SNI a wildcard is compared as exact text. */
  lemma SniWildcardIsNotServed(rule: PortRule, listener: string) returns (host: string)
    requires RoutesByHost(rule.protocol) && listener == SNI_PROTO
    requires '*' in rule.hostname && '*' !in RouteOf(rule).host && ':' !in rule.hostname
    ensures ':' !in host && Glob(rule.hostname, host)
    ensures !AclAccepts(listener, RouteOf(rule).comparator, RouteOf(rule).host, host)
  {
    var text := RouteOf(rule).host;
    if rule.hostname[0] == '*' {
      host := "a" + text;
      assert rule.hostname == "*" + text;
      assert host[1..] == text;
      GlobOfSuffix(text, host);
    } else {
      host := text + "a";
      assert rule.hostname == text + "*";
      GlobOfPrefix(text, host);
    }
  }

  lemma UnsupportedIsNotServed(rule: PortRule, listener: string) returns (host: string)
    requires RoutesByHost(rule.protocol) && !Supported(listener, rule.hostname) && ':' !in rule.hostname
    ensures ':' !in host && Glob(rule.hostname, host)
    ensures !AclAccepts(listener, RouteOf(rule).comparator, RouteOf(rule).host, host)
  {
    if '*' in RouteOf(rule).host {
      host := LiteralStarIsNotServed(rule, listener);
    } else {
      host := SniWildcardIsNotServed(rule, listener);
    }
  }

  ghost predicate Serves(rule: PortRule, listener: string) {
    forall host :: ':' !in host ==>
      (Accepts(listener, rule.sourcePort, RouteOf(rule), host) <==> StandsFor(rule.hostname, host))
  }

  /** A pattern with a colon stands for no host without a port, and accepts none. */
  lemma ColonIsNotServed(rule: PortRule, listener: string, host: string)
    requires RoutesByHost(rule.protocol) && ':' in rule.hostname && ':' !in host
    ensures !Glob(rule.hostname, host)
    ensures !AclAccepts(listener, RouteOf(rule).comparator, RouteOf(rule).host, host)
  {
    if Glob(rule.hostname, host) {
      GlobKeepsText(rule.hostname, host, ':');
    }
    var i :| 0 <= i < |RouteOf(rule).host| && RouteOf(rule).host[i] == ':';
    if AclAccepts(listener, RouteOf(rule).comparator, RouteOf(rule).host, host) {
      TextIsInHost(listener, RouteOf(rule).comparator, RouteOf(rule).host, host, i);
    }
  }

  lemma HostIsKept(rule: PortRule)
    requires RoutesByHost(rule.protocol)
    ensures RouteOf(rule).host == "" <==> rule.hostname == ""
  {
  }

  lemma PatternWithHostServedIff(rule: PortRule, listener: string)
    requires RoutesByHost(rule.protocol) && rule.hostname != ""
    ensures Serves(rule, listener) <==> Supported(listener, rule.hostname) || ':' in rule.hostname
  {
    hide Glob, RouteOf, AclAccepts, Supported, RoutesByHost;
    HostIsKept(rule);
    forall host | ':' !in host
      ensures Accepts(listener, rule.sourcePort, RouteOf(rule), host) <==>
              AclAccepts(listener, RouteOf(rule).comparator, RouteOf(rule).host, host)
    {
      PortLineIsSilent(listener, RouteOf(rule).comparator, RouteOf(rule).host, rule.sourcePort, host);
    }
    if ':' in rule.hostname {
      forall host | ':' !in host
        ensures AclAccepts(listener, RouteOf(rule).comparator, RouteOf(rule).host, host) <==> Glob(rule.hostname, host)
      {
        ColonIsNotServed(rule, listener, host);
      }
    } else if Supported(listener, rule.hostname) {
      forall host | ':' !in host
        ensures AclAccepts(listener, RouteOf(rule).comparator, RouteOf(rule).host, host) <==> Glob(rule.hostname, host)
      {
        SupportedIsServed(rule, listener, host);
      }
    } else {
      var host := UnsupportedIsNotServed(rule, listener);
      assert !(Accepts(listener, rule.sourcePort, RouteOf(rule), host) <==> StandsFor(rule.hostname, host));
    }
  }

  /** The acl lines of a rule accept exactly the hosts its pattern stands for if and only if the
      pattern is supported: other stars are compared literally, and with SNI a star at an end is
      dropped. (A pattern with a colon stands for no host without a port.) */
  lemma PatternServedIff(rule: PortRule, listener: string)
    requires RoutesByHost(rule.protocol)
    ensures Serves(rule, listener) <==> Supported(listener, rule.hostname) || ':' in rule.hostname
  {
    HostIsKept(rule);
    if rule.hostname != "" {
      PatternWithHostServedIff(rule, listener);
    }
  }
}
