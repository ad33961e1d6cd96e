/** The virtual-host router: configuration checks, the layered lookup of a host, and the choice of a peer.
    The order in which a hash map is walked is left open, so overlapping patterns have no fixed winner. */
module VHostRouter {
  import opened Wrappers
  import opened DomainLabels
  import opened VHostMatcher
  import opened VHostMatcherLaws

  datatype Result<+T> = Ok(value: T) | Err(reason: string)

  datatype Peer = Peer(address: string, tls: bool, sni: string)
  datatype Upstream = Upstream(backends: seq<Peer>, hasLoadBalancer: bool)
  /** A load balancer holds one backend per distinct address. */
  type LoadBalancer = map<string, Peer>

  // ---------- Configured names ----------

  /** Unicode's tables: which characters are alphanumeric, and a name in lower case. Nothing is assumed of them. */
  const UNICODE_ALPHANUMERIC: char -> bool
  const UNICODE_LOWERCASE: string -> string

  /** The length in bytes. */
  function Utf8Length(s: string): nat {
    if s == "" then 0 else Utf8Length(s[..|s| - 1]) + Utf8Width(s[|s| - 1])
  }

  function Utf8Width(c: char): nat {
    if c as int < 0x80 then 1 else if c as int < 0x800 then 2 else if c as int < 0x1_0000 then 3 else 4
  }

  predicate ValidLabel(part: string) {
    && part != "" && Utf8Length(part) <= 63
    && UNICODE_ALPHANUMERIC(part[0]) && UNICODE_ALPHANUMERIC(part[|part| - 1])
    && forall i :: 0 <= i < |part| ==> UNICODE_ALPHANUMERIC(part[i]) || part[i] == '-'
  }

  predicate IsAscii(s: string) {
    forall i :: 0 <= i < |s| ==> s[i] < 0x80 as char
  }

  /** No character takes less than one byte, and those of ASCII take one. */
  lemma {:induction false} BytesOfAscii(s: string)
    ensures |s| <= Utf8Length(s) && (Utf8Length(s) == |s| <==> IsAscii(s))
    decreases |s|
  {
    if s != "" {
      BytesOfAscii(s[..|s| - 1]);
    }
  }

  /** A label of ASCII characters is valid if and only if there are 1 to 63 of them, all alphanumeric but for hyphens
      inside. */
  lemma AsciiLabelIff(part: string)
    requires IsAscii(part) && !UNICODE_ALPHANUMERIC('-')
    ensures ValidLabel(part) <==> 1 <= |part| <= 63 && forall i :: 0 <= i < |part| ==>
      UNICODE_ALPHANUMERIC(part[i]) || (part[i] == '-' && 0 < i < |part| - 1)
  {
    BytesOfAscii(part);
  }

  predicate ValidPart(part: string) {
    part == WILDCARD || ('*' !in part && ValidLabel(part))
  }

  predicate ValidWildcardPattern(pattern: string) {
    var parts := SplitDots(pattern);
    && |parts| >= 2 && parts[|parts| - 1] != WILDCARD
    && forall k :: 0 <= k < |parts| ==> ValidPart(parts[k])
  }

  predicate ValidDomainName(domain: string) {
    && domain != "" && Utf8Length(domain) <= 253
    && forall k :: 0 <= k < |SplitDots(domain)| ==> ValidLabel(SplitDots(domain)[k])
  }

  /** A name of ASCII characters is valid if and only if there are 1 to 253 of them and its labels are valid. */
  lemma AsciiNameIff(domain: string)
    requires IsAscii(domain)
    ensures ValidDomainName(domain) <==>
      1 <= |domain| <= 253 && forall k :: 0 <= k < |SplitDots(domain)| ==> ValidLabel(SplitDots(domain)[k])
  {
    BytesOfAscii(domain);
  }

  predicate ValidKey(name: string) {
    if '*' in name then ValidWildcardPattern(name) else ValidDomainName(name)
  }

  /** `is_valid_wildcard_pattern`, test by test. */
  method IsValidWildcardPattern(pattern: string) returns (ok: bool)
    ensures ok == ValidWildcardPattern(pattern)
  {
    if pattern == "" {
      return false;
    }
    var parts := SplitDots(pattern);
    if |parts| < 2 {
      return false;
    }
    if parts[|parts| - 1] == WILDCARD {
      return false;
    }
    if forall k :: 0 <= k < |parts| ==> parts[k] == WILDCARD {
      return false;
    }
    for k := 0 to |parts|
      invariant forall m :: 0 <= m < k ==> ValidPart(parts[m])
    {
      if parts[k] == "" {
        return false;
      }
      if '*' in parts[k] && parts[k] != WILDCARD {
        return false;
      }
      if parts[k] != WILDCARD && !ValidLabel(parts[k]) {
        return false;
      }
    }
    return true;
  }

  /** `is_valid_domain_name`: a leading or trailing dot is an empty first or last label. */
  method IsValidDomainName(domain: string) returns (ok: bool)
    ensures ok == ValidDomainName(domain)
  {
    if domain == "" || Utf8Length(domain) > 253 {
      return false;
    }
    var labels := SplitDots(domain);
    if domain[0] == '.' {
      assert labels[0] == "";
      return false;
    }
    if domain[|domain| - 1] == '.' {
      TrailingDot(domain);
      return false;
    }
    for k := 0 to |labels|
      invariant forall m :: 0 <= m < k ==> ValidLabel(labels[m])
    {
      if !ValidLabel(labels[k]) {
        return false;
      }
    }
    return true;
  }

  lemma {:induction false} TrailingDot(s: string)
    requires s != "" && s[|s| - 1] == '.'
    ensures var labels := SplitDots(s); labels[|labels| - 1] == "" && |labels| >= 2
  {
    if |s| > 1 {
      TrailingDot(s[1..]);
      var rest := SplitDots(s[1..]);
      assert SplitDots(s) == if s[0] == '.' then [""] + rest else [[s[0]] + rest[0]] + rest[1..];
    } else {
      assert SplitDots(s) == [""] + SplitDots(s[1..]);
    }
  }

  /** `validate_domain_config` accepts exactly the configurations whose names are all valid. */
  method ValidateDomainConfig(names: set<string>) returns (ok: bool)
    ensures ok <==> forall name :: name in names ==> ValidKey(name)
  {
    var left := names;
    while left != {}
      invariant left <= names
      invariant forall name :: name in names - left ==> ValidKey(name)
      decreases left
    {
      var name :| name in left;
      var valid: bool;
      if '*' in name {
        valid := IsValidWildcardPattern(name);
      } else {
        valid := IsValidDomainName(name);
      }
      if !valid {
        return false;
      }
      left := left - {name};
    }
    return true;
  }

  // ---------- Wildcard match on names ----------

  predicate WildcardMatches(domain: string, pattern: string) {
    '*' in pattern && ValidWildcardPattern(pattern) && Greedy(SplitDots(domain), SplitDots(pattern))
  }

  method IsWildcardMatch(domain: string, pattern: string) returns (ok: bool)
    ensures ok == WildcardMatches(domain, pattern)
  {
    if '*' !in pattern {
      return false;
    }
    var valid := IsValidWildcardPattern(pattern);
    if !valid {
      return false;
    }
    ok := MatchDomainParts(SplitDots(domain), SplitDots(pattern));
  }

  /** `*.` in front of the domain without its first label. */
  function OwnWildcard(domain: string): string
    requires |SplitDots(domain)| > 1
  {
    "*." + JoinDots(SplitDots(domain)[1..])
  }

  function Parent(domain: string): string
    requires |SplitDots(domain)| > 1
  {
    JoinDots(SplitDots(domain)[1..])
  }

  /** A configured `*.rest` already matches in the pattern loop, for every host with that rest. */
  lemma OwnWildcardMatches(domain: string)
    requires |SplitDots(domain)| > 1 && ValidKey(OwnWildcard(domain))
    ensures WildcardMatches(domain, OwnWildcard(domain))
  {
    var parts := SplitDots(domain);
    SplitOfJoined(parts[1..], domain);
    SplitOfPrefixed(WILDCARD, JoinDots(parts[1..]));
    assert OwnWildcard(domain) == WILDCARD + "." + JoinDots(parts[1..]);
    MatchesItsOwnWildcard(parts[0], parts[1..]);
    assert parts == [parts[0]] + parts[1..];
    assert OwnWildcard(domain)[0] == '*';
  }

  lemma {:induction false} SplitOfJoined(labels: seq<string>, domain: string)
    requires 0 < |labels| < |SplitDots(domain)| && labels == SplitDots(domain)[|SplitDots(domain)| - |labels|..]
    ensures SplitDots(JoinDots(labels)) == labels
  {
    SplitLabelsAreDotFree(domain);
    assert forall k :: 0 <= k < |labels| ==> DotFree(labels[k]) by {
      forall k | 0 <= k < |labels| ensures DotFree(labels[k]) {
        assert labels[k] == SplitDots(domain)[|SplitDots(domain)| - |labels| + k];
      }
    }
    SplitUndoesJoin(labels);
  }

  lemma {:induction false} SplitUndoesJoin(labels: seq<string>)
    requires |labels| > 0 && forall k :: 0 <= k < |labels| ==> DotFree(labels[k])
    ensures SplitDots(JoinDots(labels)) == labels
  {
    if |labels| == 1 {
      SplitOfDotFree(labels[0]);
    } else {
      SplitUndoesJoin(labels[1..]);
      SplitOfPrefixed(labels[0], JoinDots(labels[1..]));
    }
  }

  lemma {:induction false} SplitOfDotFree(part: string)
    requires DotFree(part)
    ensures SplitDots(part) == [part]
  {
    if part != "" {
      SplitOfDotFree(part[1..]);
      assert part == [part[0]] + part[1..];
    }
  }

  // ---------- The router ----------

  datatype DomainConfig = DomainConfig(upstreams: seq<Peer>)

  /** What `create_vhost_upstream` builds: a load balancer only for several backends, and only from them. */
  ghost predicate Balances(lb: LoadBalancer, backends: seq<Peer>) {
    lb != map[] && |backends| > 1 && forall a :: a in lb ==> lb[a] in backends
  }

  /** `p` is the first of the backends with this address. */
  ghost predicate IsFirstWith(backends: seq<Peer>, address: string, p: Peer) {
    exists k :: 0 <= k < |backends| && backends[k] == p && p.address == address
      && forall j :: 0 <= j < k ==> backends[j].address != address
  }

  /** It has the addresses of the backends that parse, each with the first backend that has it. */
  ghost predicate BalancesAll(lb: LoadBalancer, backends: seq<Peer>, parses: string -> bool) {
    && (forall k :: 0 <= k < |backends| ==> (backends[k].address in lb <==> parses(backends[k].address)))
    && (forall a :: a in lb ==> IsFirstWith(backends, a, lb[a]))
  }

  lemma FirstStaysFirst(backends: seq<Peer>, more: Peer, address: string, p: Peer)
    ensures IsFirstWith(backends, address, p) ==> IsFirstWith(backends + [more], address, p)
    ensures more.address == address && p == more && (forall q :: q in backends ==> q.address != address) ==>
      IsFirstWith(backends + [more], address, p)
  {
    if IsFirstWith(backends, address, p) {
      var k :| 0 <= k < |backends| && backends[k] == p && p.address == address
        && forall j :: 0 <= j < k ==> backends[j].address != address;
      assert (backends + [more])[k] == p;
    }
    assert (backends + [more])[|backends|] == more;
  }

  ghost predicate NeedsBalancer(backends: seq<Peer>, parses: string -> bool) {
    |backends| > 1 && exists p :: p in backends && parses(p.address)
  }

  /** An answer of the lookup layers, in the order the source tries them; `ownLayer` says whether the layer
      that looks up `*.rest` as a name is there. */
  ghost predicate Answers(
    mappings: map<string, Upstream>, fallback: Upstream, host: string, answer: Upstream, ownLayer: bool)
  {
    var domain := UNICODE_LOWERCASE(host);
    if domain == "" then answer == fallback
    else if domain in mappings then answer == mappings[domain]
    else if exists pattern :: pattern in mappings && WildcardMatches(domain, pattern) then
      exists pattern :: pattern in mappings && WildcardMatches(domain, pattern) && answer == mappings[pattern]
    else if ownLayer && |SplitDots(domain)| > 2 && OwnWildcard(domain) in mappings then
      answer == mappings[OwnWildcard(domain)]
    else if |SplitDots(domain)| > 2 && Parent(domain) in mappings then answer == mappings[Parent(domain)]
    else answer == fallback
  }

  /** An answer of `route_request`. */
  ghost predicate Routes(mappings: map<string, Upstream>, fallback: Upstream, host: string, answer: Upstream) {
    Answers(mappings, fallback, host, answer, true)
  }

  /** With validated names the layer that looks up `*.rest` never decides anything. */
  lemma OwnWildcardLookupIsRedundant(
    mappings: map<string, Upstream>, fallback: Upstream, host: string, answer: Upstream)
    requires forall name :: name in mappings ==> ValidKey(name)
    ensures Routes(mappings, fallback, host, answer) <==> Answers(mappings, fallback, host, answer, false)
  {
    var domain := UNICODE_LOWERCASE(host);
    if |SplitDots(domain)| > 2 && OwnWildcard(domain) in mappings {
      OwnWildcardMatches(domain);
    }
  }

  // ---------- Which layer decides ----------

  /** `parent` is `domain` without its first label, and has more than one label itself. */
  ghost predicate IsParent(domain: string, parent: string) {
    '.' in parent && exists first :: DotFree(first) && domain == first + "." + parent
  }

  ghost predicate SomePatternMatches(mappings: map<string, Upstream>, domain: string) {
    exists pattern :: pattern in mappings && WildcardMatches(domain, pattern)
  }

  ghost predicate ParentConfigured(mappings: map<string, Upstream>, domain: string) {
    exists parent :: IsParent(domain, parent) && parent in mappings
  }

  lemma {:induction false} DotsSeparate(s: string)
    ensures '.' in s <==> |SplitDots(s)| > 1
  {
    if s != "" {
      DotsSeparate(s[1..]);
      assert s == [s[0]] + s[1..];
    }
  }

  lemma ParentIff(domain: string, parent: string)
    ensures IsParent(domain, parent) <==> |SplitDots(domain)| > 2 && parent == Parent(domain)
  {
    DotsSeparate(parent);
    if IsParent(domain, parent) {
      var first :| DotFree(first) && domain == first + "." + parent;
      SplitOfPrefixed(first, parent);
      assert SplitDots(domain)[1..] == SplitDots(parent);
      JoinUndoesSplit(parent);
    }
    if |SplitDots(domain)| > 2 && parent == Parent(domain) {
      var labels := SplitDots(domain);
      JoinUndoesSplit(domain);
      SplitLabelsAreDotFree(domain);
      SplitOfJoined(labels[1..], domain);
      assert domain == labels[0] + "." + parent;
    }
  }

  /** An exact name decides first, then any pattern that matches, then the parent; the default decides exactly if the
      host is empty or none of these is there. */
  ghost predicate DecidedByLayer(
    mappings: map<string, Upstream>, fallback: Upstream, domain: string, answer: Upstream)
  {
    var named, matched := domain in mappings, SomePatternMatches(mappings, domain);
    && (named ==> answer == mappings[domain])
    && (!named && domain != "" && matched ==>
          exists pattern :: pattern in mappings && WildcardMatches(domain, pattern) && answer == mappings[pattern])
    && (!named && !matched ==>
          forall parent :: IsParent(domain, parent) && parent in mappings ==> answer == mappings[parent])
    && (domain == "" || !(named || matched || ParentConfigured(mappings, domain)) ==> answer == fallback)
  }

  lemma RouteIsLayered(mappings: map<string, Upstream>, fallback: Upstream, host: string, answer: Upstream)
    requires Routes(mappings, fallback, host, answer) && forall name :: name in mappings ==> ValidKey(name)
    ensures DecidedByLayer(mappings, fallback, UNICODE_LOWERCASE(host), answer)
  {
    hide ValidDomainName, ValidWildcardPattern;
    var domain := UNICODE_LOWERCASE(host);
    assert !ValidKey("") by { EmptyIsNoKey(); }
    OwnWildcardLookupIsRedundant(mappings, fallback, host, answer);
    forall parent ensures IsParent(domain, parent) <==> |SplitDots(domain)| > 2 && parent == Parent(domain) {
      ParentIff(domain, parent);
    }
  }

  lemma EmptyIsNoKey()
    ensures !ValidKey("")
  {
  }

  class Router {
    const mappings: map<string, Upstream>
    const fallback: Upstream
    const loadBalancers: map<string, LoadBalancer>
    const fallbackBalancer: Option<LoadBalancer>

    ghost predicate Valid() {
      && (forall name :: name in mappings ==> ValidKey(name))
      && (forall name :: name in mappings ==> (mappings[name].hasLoadBalancer <==> |mappings[name].backends| > 1))
      && (fallback.hasLoadBalancer <==> |fallback.backends| > 1)
      && (forall name :: name in loadBalancers ==>
            name in mappings && Balances(loadBalancers[name], mappings[name].backends))
      && (fallbackBalancer.Some? ==> Balances(fallbackBalancer.value, fallback.backends))
    }

    /** `VHostRouter::new`; it panics on a configuration that does not validate. `parses` says which peer
        addresses can become a load-balancer backend. */
    constructor (domains: map<string, DomainConfig>, default: DomainConfig, parses: string -> bool)
      requires forall name :: name in domains ==> ValidKey(name)
      ensures Valid()
      ensures mappings.Keys == domains.Keys
      ensures forall name :: name in domains ==> mappings[name].backends == domains[name].upstreams
      ensures fallback.backends == default.upstreams
      ensures forall name ::
        name in loadBalancers <==> name in domains && NeedsBalancer(domains[name].upstreams, parses)
      ensures forall name :: name in loadBalancers ==>
        BalancesAll(loadBalancers[name], domains[name].upstreams, parses)
      ensures fallbackBalancer.Some? <==> NeedsBalancer(default.upstreams, parses)
      ensures fallbackBalancer.Some? ==> BalancesAll(fallbackBalancer.value, default.upstreams, parses)
    {
      hide BalancesAll, NeedsBalancer, ValidKey, Balances;
      var built: map<string, Upstream> := map[];
      var balancers: map<string, LoadBalancer> := map[];
      var left := domains.Keys;
      while left != {}
        invariant left <= domains.Keys && built.Keys == domains.Keys - left
        invariant forall name :: name in built ==>
          && built[name].backends == domains[name].upstreams
          && (built[name].hasLoadBalancer <==> |built[name].backends| > 1)
        invariant forall name :: name in balancers ==>
          name in built && Balances(balancers[name], built[name].backends)
        invariant forall name ::
          name in balancers <==> name in built && NeedsBalancer(domains[name].upstreams, parses)
        invariant forall name :: name in balancers ==> BalancesAll(balancers[name], domains[name].upstreams, parses)
        decreases left
      {
        var name :| name in left;
        var upstream, balancer := CreateUpstream(domains[name], parses);
        built := built[name := upstream];
        if balancer.Some? {
          balancers := balancers[name := balancer.value];
        }
        left := left - {name};
      }
      var defaultUpstream, defaultBalancer := CreateUpstream(default, parses);
      mappings, loadBalancers := built, balancers;
      fallback, fallbackBalancer := defaultUpstream, defaultBalancer;
    }

    /** `route_request` */
    method RouteRequest(host: string) returns (answer: Upstream)
      requires Valid()
      ensures Routes(mappings, fallback, host, answer)
      ensures DecidedByLayer(mappings, fallback, UNICODE_LOWERCASE(host), answer)
    {
      answer := FirstLayer(host);
      RouteIsLayered(mappings, fallback, host, answer);
    }

    /** The layers one after the other. */
    method FirstLayer(host: string) returns (answer: Upstream)
      ensures Routes(mappings, fallback, host, answer)
    {
      var domain := UNICODE_LOWERCASE(host);
      if domain == "" {
        return fallback;
      }
      if domain in mappings {
        return mappings[domain];
      }
      var left := mappings.Keys;
      while left != {}
        invariant left <= mappings.Keys
        invariant forall pattern :: pattern in mappings && pattern !in left ==> !WildcardMatches(domain, pattern)
        decreases left
      {
        var pattern :| pattern in left;
        var matches := IsWildcardMatch(domain, pattern);
        if matches {
          return mappings[pattern];
        }
        left := left - {pattern};
      }
      var parts := SplitDots(domain);
      if |parts| > 2 {
        var own := "*." + JoinDots(parts[1..]);
        if own in mappings {
          return mappings[own];
        }
        var parent := JoinDots(parts[1..]);
        if parent in mappings {
          return mappings[parent];
        }
      }
      return fallback;
    }

    /** `select_upstream_peer`; `next` is the address that a load balancer returns, if any. It succeeds exactly when the
        routed upstream has a backend. The peer is the balancer's choice if that upstream has several backends and a
        balancer is stored under the host as the request spells it, and otherwise the first backend. It is one of the
        upstream's backends unless that spelling is not the routed, lowercase one. */
    method SelectUpstreamPeer(host: Option<string>, next: LoadBalancer -> Option<string>)
      returns (peer: Result<Peer>)
      requires Valid()
      ensures host.None? ==>
        if |fallback.backends| > 1 && Chooses(next, fallbackBalancer) then
          peer == Ok(fallbackBalancer.value[next(fallbackBalancer.value).value])
        else if fallback.backends != [] then peer == Ok(fallback.backends[0])
        else peer.Err?
      ensures host.Some? ==> exists up ::
        && Routes(mappings, fallback, host.value, up)
        && DecidedByLayer(mappings, fallback, UNICODE_LOWERCASE(host.value), up)
        && Picks(up, BalancerOf(host.value), peer)
        && (if |up.backends| > 1 && Chooses(next, BalancerOf(host.value)) then
              peer == Ok(loadBalancers[host.value][next(loadBalancers[host.value]).value])
            else if up.backends != [] then peer == Ok(up.backends[0])
            else peer.Err?)
        && (peer.Ok? && (host.value == UNICODE_LOWERCASE(host.value) || host.value !in loadBalancers) ==>
              peer.value in up.backends)
    {
      hide DecidedByLayer, ValidKey, Routes;
      if host.None? {
        if fallback.hasLoadBalancer && fallbackBalancer.Some? {
          var chosen := next(fallbackBalancer.value);
          if chosen.Some? && chosen.value in fallbackBalancer.value {
            return Ok(fallbackBalancer.value[chosen.value]);
          }
        }
        return FirstBackend(fallback);
      }
      var domain := host.value;
      var upstream := RouteRequest(domain);
      AnswersAreConsistent(domain, upstream);
      if upstream.hasLoadBalancer && domain in loadBalancers {
        var chosen := next(loadBalancers[domain]);
        if chosen.Some? && chosen.value in loadBalancers[domain] {
          return Ok(loadBalancers[domain][chosen.value]);
        }
      }
      return FirstBackend(upstream);
    }

    /** The load balancer that is looked up for a host, under the spelling of the request. */
    function BalancerOf(host: string): Option<LoadBalancer> {
      if host in loadBalancers then Some(loadBalancers[host]) else None
    }

    lemma AnswersAreConsistent(host: string, answer: Upstream)
      requires Valid() && Routes(mappings, fallback, host, answer)
      ensures answer.hasLoadBalancer <==> |answer.backends| > 1
      ensures host in loadBalancers && host == UNICODE_LOWERCASE(host) ==> answer == mappings[host]
    {
    }

    /** A peer that is no backend of the routed upstream can be picked exactly if that upstream has several backends
        and the balancer stored under the request's spelling has a backend that is none of them. Then that spelling
        is a configured name, but not a lowercase one. */
    lemma ForeignPeerIff(host: string, answer: Upstream)
      requires Valid() && Routes(mappings, fallback, host, answer)
      ensures (exists peer :: Picks(answer, BalancerOf(host), Ok(peer)) && peer !in answer.backends) <==>
        && |answer.backends| > 1 && host in loadBalancers
        && exists a :: a in loadBalancers[host] && loadBalancers[host][a] !in answer.backends
      ensures (exists peer :: Picks(answer, BalancerOf(host), Ok(peer)) && peer !in answer.backends) ==>
        host in mappings && host != UNICODE_LOWERCASE(host) && mappings[host] != answer
    {
      AnswersAreConsistent(host, answer);
      if |answer.backends| > 1 && host in loadBalancers
        && exists a :: a in loadBalancers[host] && loadBalancers[host][a] !in answer.backends
      {
        var a :| a in loadBalancers[host] && loadBalancers[host][a] !in answer.backends;
        assert Picks(answer, BalancerOf(host), Ok(loadBalancers[host][a]));
      }
    }
  }

  /** The balancer makes a choice among its backends. */
  predicate Chooses(next: LoadBalancer -> Option<string>, balancer: Option<LoadBalancer>) {
    balancer.Some? && next(balancer.value).Some? && next(balancer.value).value in balancer.value
  }

  /** The peers that can be picked for an upstream: its first backend, or any that its balancer holds. */
  ghost predicate Picks(upstream: Upstream, balancer: Option<LoadBalancer>, peer: Result<Peer>) {
    || peer == FirstBackend(upstream)
    || (upstream.hasLoadBalancer && balancer.Some? && peer.Ok?
        && exists a :: a in balancer.value && peer.value == balancer.value[a])
  }

  /** `create_vhost_upstream` */
  method CreateUpstream(config: DomainConfig, parses: string -> bool)
    returns (upstream: Upstream, balancer: Option<LoadBalancer>)
    ensures upstream == Upstream(config.upstreams, |config.upstreams| > 1)
    ensures balancer.Some? <==> NeedsBalancer(config.upstreams, parses)
    ensures balancer.Some? ==>
      Balances(balancer.value, config.upstreams) && BalancesAll(balancer.value, config.upstreams, parses)
  {
    var backends := config.upstreams;
    upstream := Upstream(backends, |backends| > 1);
    balancer := None;
    if |backends| > 1 {
      var lb := CollectBackends(backends, parses);
      assert lb == map[] || exists a :: a in lb;
      if lb != map[] {
        balancer := Some(lb);
      }
    }
  }

  /** The set of backends of a load balancer. */
  method CollectBackends(backends: seq<Peer>, parses: string -> bool) returns (lb: LoadBalancer)
    ensures BalancesAll(lb, backends, parses) && forall a :: a in lb ==> lb[a] in backends
    ensures lb != map[] <==> exists p :: p in backends && parses(p.address)
  {
    hide IsFirstWith;
    lb := map[];
    for k := 0 to |backends|
      invariant BalancesAll(lb, backends[..k], parses)
      invariant forall a :: a in lb ==> lb[a] in backends && lb[a].address == a && parses(a)
    {
      ghost var before, old_lb := backends[..k], lb;
      var p := backends[k];
      assert backends[..k + 1] == before + [p];
      if parses(p.address) && p.address !in lb {
        lb := lb[p.address := p];
      }
      forall a | a in lb ensures IsFirstWith(before + [p], a, lb[a]) {
        FirstStaysFirst(before, p, a, lb[a]);
      }
    }
    assert backends[..|backends|] == backends;
    if p :| p in backends && parses(p.address) {
      assert p.address in lb;
    }
    if lb != map[] {
      var a :| a in lb;
      assert lb[a] in backends && parses(lb[a].address);
    }
  }

  function FirstBackend(upstream: Upstream): (peer: Result<Peer>)
    ensures peer.Ok? <==> upstream.backends != []
    ensures peer.Ok? ==> peer.value == upstream.backends[0]
  {
    if upstream.backends != [] then Ok(upstream.backends[0]) else Err("No upstream backends available")
  }
}
