/** The right-to-left wildcard matcher of the virtual-host router.

    `MatchDomainParts` walks both label lists from the top-level label down and never backtracks: a
    wildcard run takes labels up to the nearest label that equals the next literal. `Greedy` is that
    choice as a recursion. `VHostMatcherLaws.HasSplit` is what a wildcard pattern means, with no order of
    search in it. */
module VHostMatcher {
  import opened DomainLabels

  /** Number of labels left of the wildcard run that ends `pattern[..j]`. */
  function RunStart(pattern: seq<string>, j: nat): (n: nat)
    requires j <= |pattern|
    ensures n <= j
  {
    if j > 0 && pattern[j - 1] == WILDCARD then RunStart(pattern, j - 1) else j
  }

  lemma {:induction false} RunStartLaw(pattern: seq<string>, j: nat)
    requires j <= |pattern|
    ensures var n := RunStart(pattern, j);
      && (n == 0 || pattern[n - 1] != WILDCARD)
      && (forall k :: n <= k < j ==> pattern[k] == WILDCARD)
  {
    if j > 0 && pattern[j - 1] == WILDCARD {
      RunStartLaw(pattern, j - 1);
    }
  }

  /** One past the position of the rightmost label of `domain[..i]` that equals `part`; 0 if there is none. */
  function LastMatch(domain: seq<string>, i: nat, part: string): (q: nat)
    requires i <= |domain|
    ensures q <= i
  {
    if i > 0 && !EqIgnoreAsciiCase(domain[i - 1], part) then LastMatch(domain, i - 1, part) else i
  }

  lemma {:induction false} LastMatchLaw(domain: seq<string>, i: nat, part: string)
    requires i <= |domain|
    ensures var q := LastMatch(domain, i, part);
      && (q == 0 || EqIgnoreAsciiCase(domain[q - 1], part))
      && (forall k :: q <= k < i ==> !EqIgnoreAsciiCase(domain[k], part))
  {
    if i > 0 && !EqIgnoreAsciiCase(domain[i - 1], part) {
      LastMatchLaw(domain, i - 1, part);
    }
  }

  /** The greedy choice for `domain[..i]` against `pattern[..j]`. */
  predicate GreedyFrom(domain: seq<string>, i: nat, pattern: seq<string>, j: nat)
    requires i <= |domain| && j <= |pattern|
    decreases j
  {
    if i == 0 || j == 0 then i == 0 && j == 0
    else if pattern[j - 1] == WILDCARD then
      var n := RunStart(pattern, j);
      n == 0 ||
      var q := LastMatch(domain, i - 1, pattern[n - 1]);
      q > 0 && GreedyFrom(domain, q - 1, pattern, n - 1)
    else EqIgnoreAsciiCase(domain[i - 1], pattern[j - 1]) && GreedyFrom(domain, i - 1, pattern, j - 1)
  }

  predicate Greedy(domain: seq<string>, pattern: seq<string>) {
    |domain| >= |pattern| && GreedyFrom(domain, |domain|, pattern, |pattern|)
  }

  function CountWildcards(pattern: seq<string>): (n: nat)
    ensures n <= |pattern|
  {
    if pattern == [] then 0 else (if pattern[0] == WILDCARD then 1 else 0) + CountWildcards(pattern[1..])
  }

  /** The first inner loop of the matcher: from `from` leftwards to the next label that is not a wildcard. */
  method NextLiteral(pattern: seq<string>, from: int) returns (next: int)
    requires -1 <= from < |pattern|
    ensures -1 <= next <= from && next + 1 == RunStart(pattern, from + 1)
  {
    next := from;
    while next >= 0 && pattern[next] == WILDCARD
      invariant -1 <= next <= from
      invariant RunStart(pattern, from + 1) == RunStart(pattern, next + 1)
    {
      next := next - 1;
    }
  }

  /** The second inner loop: from `from` leftwards to the nearest domain label equal to `part`; -1 if none. */
  method NearestLabel(domain: seq<string>, from: int, part: string) returns (found: int)
    requires -1 <= from < |domain|
    ensures -1 <= found <= from && found + 1 == LastMatch(domain, from + 1, part)
  {
    found := from;
    while found >= 0
      invariant -1 <= found <= from
      invariant LastMatch(domain, from + 1, part) == LastMatch(domain, found + 1, part)
    {
      if EqIgnoreAsciiCase(domain[found], part) {
        return;
      }
      found := found - 1;
    }
  }

  /** `match_domain_parts`. The source's tests that cannot succeed (a negative index inside the loop that
      just tested it, wildcards left over after the domain ran out) are not repeated. */
  method MatchDomainParts(domain: seq<string>, pattern: seq<string>) returns (ok: bool)
    ensures ok == Greedy(domain, pattern)
  {
    var wildcards := CountWildcards(pattern);
    if |domain| < (|pattern| - wildcards) + wildcards {
      return false;
    }
    var di, pi := |domain| - 1, |pattern| - 1;
    while di >= 0 && pi >= 0
      invariant -1 <= di < |domain| && -1 <= pi < |pattern|
      invariant GreedyFrom(domain, |domain|, pattern, |pattern|) == GreedyFrom(domain, di + 1, pattern, pi + 1)
      decreases pi
    {
      if pattern[pi] == WILDCARD {
        var next := NextLiteral(pattern, pi - 1);
        if next < 0 {
          return true;
        }
        di := NearestLabel(domain, di - 1, pattern[next]);
        if di < 0 {
          return false;
        }
        di, pi := di - 1, next - 1;
      } else {
        if !EqIgnoreAsciiCase(domain[di], pattern[pi]) {
          return false;
        }
        di, pi := di - 1, pi - 1;
      }
    }
    return pi < 0 && di < 0;
  }
}
