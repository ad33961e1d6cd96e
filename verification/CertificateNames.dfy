/** Which hosts a managed certificate covers, and how that fits the router's patterns. */
module CertificateNames {
  import opened DomainLabels
  import opened VHostMatcher
  import opened VHostMatcherLaws
  import VHostRouter

  predicate StartsWith(s: string, prefix: string) {
    |prefix| <= |s| && s[..|prefix|] == prefix
  }

  predicate EndsWith(s: string, suffix: string) {
    |suffix| <= |s| && s[|s| - |suffix|..] == suffix
  }

  /** The test of one certificate name in `covers_domain`. */
  predicate NameCovers(name: string, domain: string) {
    || name == domain
    || (StartsWith(name, "*.") &&
        var base := name[2..];
        EndsWith(domain, base) &&
        var prefix := domain[..|domain| - |base|];
        EndsWith(prefix, ".") &&
        var part := prefix[..|prefix| - 1];
        part != "" && '.' !in part)
  }

  /** `covers_domain` */
  predicate CoversDomain(names: seq<string>, domain: string) {
    exists k :: 0 <= k < |names| && NameCovers(names[k], domain)
  }

  /** One day, in nanoseconds. */
  const DAY: int := 86_400_000_000_000

  /** `needs_renewal` */
  predicate NeedsRenewal(expiresAt: int, isValid: bool, now: int, renewalDays: nat) {
    expiresAt <= now + renewalDays * DAY || !isValid
  }

  /** Section 6.4.3 of RFC 6125: the wildcard stands for exactly the left-most label. */
  ghost predicate IsWildcardOf(name: string, domain: string) {
    exists first, rest :: domain == first + "." + rest && first != "" && DotFree(first) && name == "*." + rest
  }

  lemma NameCoversIff(name: string, domain: string)
    ensures NameCovers(name, domain) <==> name == domain || IsWildcardOf(name, domain)
  {
    if NameCovers(name, domain) && name != domain {
      var base := name[2..];
      var prefix := domain[..|domain| - |base|];
      var first := prefix[..|prefix| - 1];
      assert prefix == first + ".";
      assert domain == prefix + base;
      assert name == "*." + base;
    }
    if IsWildcardOf(name, domain) {
      var first, rest :| domain == first + "." + rest && first != "" && DotFree(first) && name == "*." + rest;
      assert name[2..] == rest;
      assert domain[|domain| - |rest|..] == rest;
      var prefix := domain[..|domain| - |rest|];
      assert prefix == first + ".";
      assert prefix[..|prefix| - 1] == first;
      assert prefix[|prefix| - 1..] == ".";
    }
  }

  /** A certificate covers a domain exactly when it names it, or names `*.` and the domain without its first,
      non-empty label. */
  lemma CoversDomainIff(names: seq<string>, domain: string)
    ensures CoversDomain(names, domain) <==>
      exists k :: 0 <= k < |names| && (names[k] == domain || IsWildcardOf(names[k], domain))
  {
    forall k | 0 <= k < |names|
      ensures NameCovers(names[k], domain) <==> names[k] == domain || IsWildcardOf(names[k], domain)
    {
      NameCoversIff(names[k], domain);
    }
  }

  /** In labels: a first label that is not empty, and the same labels after it. */
  lemma WildcardInLabels(name: string, domain: string)
    ensures IsWildcardOf(name, domain) <==>
      var d, n := SplitDots(domain), SplitDots(name);
      |d| == |n| > 1 && n[0] == WILDCARD && d[0] != "" && d[1..] == n[1..]
  {
    var d, n := SplitDots(domain), SplitDots(name);
    if IsWildcardOf(name, domain) {
      var first, rest :| domain == first + "." + rest && first != "" && DotFree(first) && name == "*." + rest;
      SplitOfPrefixed(first, rest);
      SplitOfPrefixed(WILDCARD, rest);
    }
    if |d| == |n| > 1 && n[0] == WILDCARD && d[0] != "" && d[1..] == n[1..] {
      JoinUndoesSplit(domain);
      JoinUndoesSplit(name);
      SplitLabelsAreDotFree(domain);
      var rest := JoinDots(d[1..]);
      assert domain == d[0] + "." + rest && name == "*." + rest;
    }
  }

  /** The router serves every host that a wildcard certificate name covers, if the name is a valid pattern. */
  lemma CoveredHostsAreRouted(name: string, domain: string)
    requires IsWildcardOf(name, domain) && VHostRouter.ValidWildcardPattern(name)
    ensures VHostRouter.WildcardMatches(domain, name)
  {
    WildcardInLabels(name, domain);
    var d, n := SplitDots(domain), SplitDots(name);
    assert d == [d[0]] + d[1..] && n == [WILDCARD] + d[1..];
    MatchesItsOwnWildcard(d[0], d[1..]);
    var first, rest :| domain == first + "." + rest && first != "" && DotFree(first) && name == "*." + rest;
    assert name[0] == '*';
  }

  /** The only wildcard of the name is its first label. */
  predicate OneWildcard(name: string) {
    var n := SplitDots(name);
    n[0] == WILDCARD && forall k :: 0 < k < |n| ==> n[k] != WILDCARD
  }

  lemma CoverageInLabels(name: string, domain: string)
    requires OneWildcard(name)
    ensures var d, n := SplitDots(domain), SplitDots(name);
      && (NameCovers(name, domain) <==> name == domain || IsWildcardOf(name, domain))
      && (IsWildcardOf(name, domain) <==> |d| == |n| > 1 && d[0] != "" && d[1..] == n[1..])
  {
    hide SplitDots, NameCovers, IsWildcardOf;
    NameCoversIff(name, domain);
    WildcardInLabels(name, domain);
  }

  lemma RoutedInLabels(name: string, domain: string)
    requires VHostRouter.ValidWildcardPattern(name) && OneWildcard(name)
    ensures var d, n := SplitDots(domain), SplitDots(name);
      VHostRouter.WildcardMatches(domain, name) ==>
        |d| >= |n| && forall k :: 0 < k < |n| ==> EqIgnoreAsciiCase(d[|d| - |n| + k], n[k])
  {
    hide Greedy, SplitDots, EqIgnoreAsciiCase, VHostRouter.ValidPart;
    AcceptsBySuffix(SplitDots(domain), SplitDots(name), 1);
  }

  lemma CoveredIsWildcardOf(name: string, domain: string)
    requires VHostRouter.ValidWildcardPattern(name) && OneWildcard(name) && NameCovers(name, domain)
    ensures IsWildcardOf(name, domain)
  {
    hide SplitDots, NameCovers, IsWildcardOf, VHostRouter.ValidPart;
    CoverageInLabels(name, domain);
    CoverageInLabels(name, name);
  }

  /** For a name whose only wildcard is its first label, what is covered is routed; and what is routed is covered if
      and only if it has as many labels, the first one is not empty, and the others agree in case too. */
  lemma CoveredIffRoutedAtTheSameDepth(name: string, domain: string)
    requires VHostRouter.ValidWildcardPattern(name) && OneWildcard(name)
    ensures NameCovers(name, domain) ==> VHostRouter.WildcardMatches(domain, name)
    ensures var d, n := SplitDots(domain), SplitDots(name);
      VHostRouter.WildcardMatches(domain, name) ==>
        && |d| >= |n| && (forall k :: 0 < k < |n| ==> EqIgnoreAsciiCase(d[|d| - |n| + k], n[k]))
        && (NameCovers(name, domain) <==> |d| == |n| && d[0] != "" && d[1..] == n[1..])
  {
    hide SplitDots, NameCovers, IsWildcardOf, EqIgnoreAsciiCase, VHostRouter.WildcardMatches, VHostRouter.ValidPart;
    RoutedInLabels(name, domain);
    CoverageInLabels(name, domain);
    if NameCovers(name, domain) {
      CoveredIsWildcardOf(name, domain);
      CoveredHostsAreRouted(name, domain);
    }
  }

  /** The converse fails one label deeper: the router's `*` may stand for several labels, the certificate's
      never does. */
  lemma DeeperHostsAreRoutedButNotCovered(name: string, domain: string, first: string)
    requires IsWildcardOf(name, domain) && VHostRouter.ValidWildcardPattern(name) && DotFree(first)
    requires OneWildcard(name)
    ensures VHostRouter.WildcardMatches(first + "." + domain, name) && !NameCovers(name, first + "." + domain)
  {
    WildcardInLabels(name, domain);
    CoveredHostsAreRouted(name, domain);
    DeeperLabelsMatch(SplitDots(domain), SplitDots(name), first);
    SplitOfPrefixed(first, domain);
    var deep := first + "." + domain;
    WildcardInLabels(name, deep);
    NameCoversIff(name, deep);
  }

  lemma DeeperLabelsMatch(d: seq<string>, n: seq<string>, first: string)
    requires |d| == |n| > 1 && n[0] == WILDCARD && d[1..] == n[1..]
    requires forall k :: 0 < k < |n| ==> n[k] != WILDCARD
    ensures Greedy([first] + d, n)
  {
    forall k | 1 <= k < |n| ensures EqIgnoreAsciiCase(([first] + d)[k + 1], n[k]) {
      assert d[1..][k - 1] == n[1..][k - 1];
    }
    AcceptsBySuffix([first] + d, n, 1);
  }
}
