/** What the greedy matcher accepts, compared with what a wildcard pattern means. */
module VHostMatcherLaws {
  import opened DomainLabels
  import opened VHostMatcher

  // ---------- The meaning of a pattern ----------

  /** Piece `k` of a cut of a domain: a literal takes one equal label; the first wildcard of a maximal run
      takes the labels of the whole run, at least one, and the other wildcards of the run none. */
  predicate Piece(domain: seq<string>, pattern: seq<string>, cut: seq<nat>, k: nat)
    requires k < |pattern| && k + 1 < |cut|
  {
    && cut[k] <= cut[k + 1] <= |domain|
    && if pattern[k] != WILDCARD then cut[k + 1] == cut[k] + 1 && EqIgnoreAsciiCase(domain[cut[k]], pattern[k])
       else if k == 0 || pattern[k - 1] != WILDCARD then cut[k] < cut[k + 1]
       else cut[k] == cut[k + 1]
  }

  predicate IsSplitOf(domain: seq<string>, i: nat, pattern: seq<string>, j: nat, cut: seq<nat>)
    requires i <= |domain| && j <= |pattern|
  {
    && |cut| == j + 1 && cut[0] == 0 && cut[j] == i
    && forall k :: 0 <= k < j ==> Piece(domain, pattern, cut, k)
  }

  /** The whole domain is cut into one piece per pattern label. */
  ghost predicate HasSplit(domain: seq<string>, pattern: seq<string>) {
    exists cut :: IsSplitOf(domain, |domain|, pattern, |pattern|, cut)
  }

  /** The same, read off from the right one maximal run or literal at a time. */
  ghost predicate Splits(domain: seq<string>, i: nat, pattern: seq<string>, j: nat)
    requires i <= |domain| && j <= |pattern|
    decreases j
  {
    if j == 0 then i == 0
    else if pattern[j - 1] == WILDCARD then
      exists k: nat :: k < i && Splits(domain, k, pattern, RunStart(pattern, j))
    else i > 0 && EqIgnoreAsciiCase(domain[i - 1], pattern[j - 1]) && Splits(domain, i - 1, pattern, j - 1)
  }

  lemma {:induction false} CutFromSplits(domain: seq<string>, i: nat, pattern: seq<string>, j: nat)
    returns (cut: seq<nat>)
    requires i <= |domain| && j <= |pattern| && Splits(domain, i, pattern, j)
    ensures IsSplitOf(domain, i, pattern, j, cut)
    decreases j
  {
    if j == 0 {
      cut := [0];
    } else if pattern[j - 1] == WILDCARD {
      var n := RunStart(pattern, j);
      RunStartLaw(pattern, j);
      var m: nat :| m < i && Splits(domain, m, pattern, n);
      var left := CutFromSplits(domain, m, pattern, n);
      cut := left + seq(j - n, _ => i);
      forall k | 0 <= k < j ensures Piece(domain, pattern, cut, k) {
        if k < n {
          assert Piece(domain, pattern, left, k);
        }
      }
    } else {
      var left := CutFromSplits(domain, i - 1, pattern, j - 1);
      cut := left + [i];
      forall k | 0 <= k < j ensures Piece(domain, pattern, cut, k) {
        if k < j - 1 {
          assert Piece(domain, pattern, left, k);
        }
      }
    }
  }

  /** Inside a run every cut after the first wildcard is the end of the run. */
  lemma {:induction false} RunPieces(domain: seq<string>, i: nat, pattern: seq<string>, j: nat, cut: seq<nat>, k: nat)
    requires i <= |domain| && j <= |pattern| && IsSplitOf(domain, i, pattern, j, cut)
    requires RunStart(pattern, j) < k <= j
    ensures cut[k] == i
    decreases j - k
  {
    RunStartLaw(pattern, j);
    if k < j {
      RunPieces(domain, i, pattern, j, cut, k + 1);
      assert Piece(domain, pattern, cut, k);
    }
  }

  lemma {:induction false} SplitsFromCut(domain: seq<string>, i: nat, pattern: seq<string>, j: nat, cut: seq<nat>)
    requires i <= |domain| && j <= |pattern| && IsSplitOf(domain, i, pattern, j, cut)
    ensures Splits(domain, i, pattern, j)
    decreases j
  {
    if j > 0 {
      RunStartLaw(pattern, j);
      var n := if pattern[j - 1] == WILDCARD then RunStart(pattern, j) else j - 1;
      assert Piece(domain, pattern, cut, n);
      var left := cut[..n + 1];
      forall k | 0 <= k < n ensures Piece(domain, pattern, left, k) {
        assert Piece(domain, pattern, cut, k);
      }
      SplitsFromCut(domain, cut[n], pattern, n, left);
      if pattern[j - 1] == WILDCARD {
        RunPieces(domain, i, pattern, j, cut, n + 1);
      }
    }
  }

  lemma SplitsIffHasSplit(domain: seq<string>, pattern: seq<string>)
    ensures Splits(domain, |domain|, pattern, |pattern|) <==> HasSplit(domain, pattern)
  {
    if Splits(domain, |domain|, pattern, |pattern|) {
      var _ := CutFromSplits(domain, |domain|, pattern, |pattern|);
    }
    if HasSplit(domain, pattern) {
      var cut :| IsSplitOf(domain, |domain|, pattern, |pattern|, cut);
      SplitsFromCut(domain, |domain|, pattern, |pattern|, cut);
    }
  }

  // ---------- Soundness, for every pattern ----------

  lemma {:induction false} GreedyFromSplits(domain: seq<string>, i: nat, pattern: seq<string>, j: nat)
    requires i <= |domain| && j <= |pattern| && GreedyFrom(domain, i, pattern, j)
    ensures Splits(domain, i, pattern, j)
    decreases j
  {
    if i > 0 && j > 0 {
      if pattern[j - 1] == WILDCARD {
        var n := RunStart(pattern, j);
        if n == 0 {
          assert Splits(domain, 0, pattern, 0);
        } else {
          var q := LastMatch(domain, i - 1, pattern[n - 1]);
          RunStartLaw(pattern, j);
          LastMatchLaw(domain, i - 1, pattern[n - 1]);
          GreedyFromSplits(domain, q - 1, pattern, n - 1);
          assert Splits(domain, q, pattern, n);
        }
      } else {
        GreedyFromSplits(domain, i - 1, pattern, j - 1);
      }
    }
  }

  /** Whatever the matcher accepts is cut completely by the pattern. */
  lemma AcceptedDomainsSplit(domain: seq<string>, pattern: seq<string>)
    requires Greedy(domain, pattern)
    ensures HasSplit(domain, pattern)
  {
    GreedyFromSplits(domain, |domain|, pattern, |pattern|);
    SplitsIffHasSplit(domain, pattern);
  }

  // ---------- Completeness, and exactly where it ends ----------

  /** Every literal that stands directly left of a wildcard has a wildcard directly left of itself. For a
      pattern with a wildcard this says: it begins with one, and no two literals are adjacent left of its
      last wildcard. */
  ghost predicate NearestIsSafe(pattern: seq<string>) {
    forall n :: 0 < n < |pattern| && pattern[n] == WILDCARD && pattern[n - 1] != WILDCARD ==>
      n >= 2 && pattern[n - 2] == WILDCARD
  }

  lemma {:induction false} NearestIsSafeReadable(pattern: seq<string>, last: nat)
    requires last < |pattern| && pattern[last] == WILDCARD
    requires forall k :: last < k < |pattern| ==> pattern[k] != WILDCARD
    ensures NearestIsSafe(pattern) <==>
      && pattern[0] == WILDCARD
      && forall k :: 0 <= k && k + 1 < last ==> pattern[k] == WILDCARD || pattern[k + 1] == WILDCARD
  {
    if NearestIsSafe(pattern) {
      forall k | 0 <= k < last ensures pattern[k] == WILDCARD || (k > 0 && pattern[k - 1] == WILDCARD) {
        LiteralsAreLone(pattern, k, last);
      }
    }
  }

  lemma {:induction false} LiteralsAreLone(pattern: seq<string>, k: nat, last: nat)
    requires NearestIsSafe(pattern) && k < last < |pattern| && pattern[last] == WILDCARD
    ensures pattern[k] == WILDCARD || (k > 0 && pattern[k - 1] == WILDCARD)
    decreases last - k
  {
    if pattern[k + 1] != WILDCARD {
      LiteralsAreLone(pattern, k + 1, last);
    }
  }

  /** A run absorbs further labels on its right. */
  lemma RunAbsorbs(domain: seq<string>, i: nat, i': nat, pattern: seq<string>, j: nat)
    requires i <= i' <= |domain| && 0 < j <= |pattern| && pattern[j - 1] == WILDCARD
    requires Splits(domain, i, pattern, j)
    ensures Splits(domain, i', pattern, j)
  {
  }

  lemma {:induction false} SplitsGreedyFrom(domain: seq<string>, i: nat, pattern: seq<string>, j: nat)
    requires i <= |domain| && j <= |pattern| && NearestIsSafe(pattern)
    requires Splits(domain, i, pattern, j)
    ensures GreedyFrom(domain, i, pattern, j)
    decreases j
  {
    if i > 0 && j > 0 {
      if pattern[j - 1] == WILDCARD {
        var n := RunStart(pattern, j);
        var k: nat :| k < i && Splits(domain, k, pattern, n);
        RunStartLaw(pattern, j);
        if n > 0 {
          assert pattern[n] == WILDCARD && pattern[n - 2] == WILDCARD;
          var q := LastMatch(domain, i - 1, pattern[n - 1]);
          LastMatchLaw(domain, i - 1, pattern[n - 1]);
          RunAbsorbs(domain, k - 1, q - 1, pattern, n - 1);
          SplitsGreedyFrom(domain, q - 1, pattern, n - 1);
        }
      } else {
        SplitsGreedyFrom(domain, i - 1, pattern, j - 1);
      }
    }
  }

  // A domain that fills every wildcard with a label no literal equals, cut off at an unsafe literal `n - 1`
  // and continued with that literal once more.

  function Strange(pattern: seq<string>): (part: string)
    ensures forall k :: 0 <= k < |pattern| ==> |part| > |pattern[k]|
    ensures part != WILDCARD
  {
    if pattern == [] then "xx" else
    var rest := Strange(pattern[1..]);
    if |rest| > |pattern[0]| then
      assert forall k :: 0 < k < |pattern| ==> pattern[k] == pattern[1..][k - 1];
      rest
    else
      assert forall k :: 0 < k < |pattern| ==> pattern[k] == pattern[1..][k - 1];
      "xx" + pattern[0]
  }

  function RunEnd(pattern: seq<string>, n: nat): (e: nat)
    requires n < |pattern| && pattern[n] == WILDCARD
    ensures n < e <= |pattern|
    ensures forall k :: n <= k < e ==> pattern[k] == WILDCARD
    ensures e == |pattern| || pattern[e] != WILDCARD
    decreases |pattern| - n
  {
    if n + 1 < |pattern| && pattern[n + 1] == WILDCARD then RunEnd(pattern, n + 1) else n + 1
  }

  /** `domain[x..]` repeats `pattern[e..j]`, with `strange` for every wildcard. */
  ghost predicate Repeats(domain: seq<string>, x: nat, pattern: seq<string>, e: nat, j: nat, strange: string) {
    && e <= j <= |pattern| && x + (j - e) <= |domain|
    && (forall k :: e <= k < j ==> domain[x + (k - e)] == if pattern[k] == WILDCARD then strange else pattern[k])
    && (e == 0 || e == |pattern| || pattern[e] != WILDCARD)
  }

  lemma {:induction false} RepeatedSplits(
    domain: seq<string>, x: nat, pattern: seq<string>, e: nat, j: nat, strange: string)
    requires Repeats(domain, x, pattern, e, j, strange) && Splits(domain, x, pattern, e)
    ensures Splits(domain, x + (j - e), pattern, j)
    decreases j
  {
    if j > e {
      if pattern[j - 1] == WILDCARD {
        var n := RunStart(pattern, j);
        RunStartLaw(pattern, j);
        assert n >= e;
        RepeatedSplits(domain, x, pattern, e, n, strange);
      } else {
        RepeatedSplits(domain, x, pattern, e, j - 1, strange);
      }
    }
  }

  lemma LastMatchIs(domain: seq<string>, i: nat, part: string, q: nat)
    requires 0 < q <= i <= |domain| && EqIgnoreAsciiCase(domain[q - 1], part)
    requires forall k :: q <= k < i ==> !EqIgnoreAsciiCase(domain[k], part)
    ensures LastMatch(domain, i, part) == q
  {
  }

  lemma GreedySkipsARun(domain: seq<string>, i: nat, pattern: seq<string>, j: nat, n: nat, q: nat)
    requires 0 < q < i <= |domain| && 0 < n < j <= |pattern|
    requires pattern[j - 1] == WILDCARD && RunStart(pattern, j) == n && LastMatch(domain, i - 1, pattern[n - 1]) == q
    ensures GreedyFrom(domain, i, pattern, j) == GreedyFrom(domain, q - 1, pattern, n - 1)
  {
  }

  lemma RepeatedSearch(domain: seq<string>, x: nat, pattern: seq<string>, e: nat, j: nat, strange: string)
    requires Repeats(domain, x, pattern, e, j, strange) && e < RunStart(pattern, j) < j
    requires forall k :: 0 <= k < |pattern| ==> |strange| > |pattern[k]|
    ensures var n := RunStart(pattern, j); LastMatch(domain, x + (j - e) - 1, pattern[n - 1]) == x + (n - e)
  {
    var n := RunStart(pattern, j);
    RunStartLaw(pattern, j);
    assert domain[x + (n - 1 - e)] == pattern[n - 1];
    forall k | x + (n - e) <= k < x + (j - e) - 1 ensures !EqIgnoreAsciiCase(domain[k], pattern[n - 1]) {
      var m := k - x + e;
      assert pattern[m] == WILDCARD && domain[x + (m - e)] == strange;
    }
    LastMatchIs(domain, x + (j - e) - 1, pattern[n - 1], x + (n - e));
  }

  lemma RepeatedRunIsSkipped(domain: seq<string>, x: nat, pattern: seq<string>, e: nat, j: nat, strange: string)
    requires Repeats(domain, x, pattern, e, j, strange) && x > 0 && 0 < e < j && pattern[j - 1] == WILDCARD
    requires forall k :: 0 <= k < |pattern| ==> |strange| > |pattern[k]|
    ensures var n := RunStart(pattern, j);
      && e < n < j && Repeats(domain, x, pattern, e, n - 1, strange)
      && GreedyFrom(domain, x + (j - e), pattern, j) == GreedyFrom(domain, x + (n - 1 - e), pattern, n - 1)
  {
    hide GreedyFrom;
    var n := RunStart(pattern, j);
    RunStartLaw(pattern, j);
    assert pattern[e] != WILDCARD;
    RepeatedSearch(domain, x, pattern, e, j, strange);
    GreedySkipsARun(domain, x + (j - e), pattern, j, n, x + (n - e));
  }

  lemma RepeatedLiteralIsMatched(domain: seq<string>, x: nat, pattern: seq<string>, e: nat, j: nat, strange: string)
    requires Repeats(domain, x, pattern, e, j, strange) && e < j && pattern[j - 1] != WILDCARD
    ensures Repeats(domain, x, pattern, e, j - 1, strange)
    ensures GreedyFrom(domain, x + (j - e), pattern, j) == GreedyFrom(domain, x + (j - 1 - e), pattern, j - 1)
  {
  }

  lemma {:induction false} RepeatedIsWalkedExactly(
    domain: seq<string>, x: nat, pattern: seq<string>, e: nat, j: nat, strange: string)
    requires Repeats(domain, x, pattern, e, j, strange) && e > 0 && x > 0
    requires forall k :: 0 <= k < |pattern| ==> |strange| > |pattern[k]|
    ensures GreedyFrom(domain, x + (j - e), pattern, j) == GreedyFrom(domain, x, pattern, e)
    decreases j
  {
    hide GreedyFrom;
    if j > e {
      if pattern[j - 1] == WILDCARD {
        RepeatedRunIsSkipped(domain, x, pattern, e, j, strange);
        RepeatedIsWalkedExactly(domain, x, pattern, e, RunStart(pattern, j) - 1, strange);
      } else {
        RepeatedLiteralIsMatched(domain, x, pattern, e, j, strange);
        RepeatedIsWalkedExactly(domain, x, pattern, e, j - 1, strange);
      }
    }
  }

  /** `pattern` with its wildcards filled, and the literal `n - 1` once more inside the run that follows it. */
  function Misleading(pattern: seq<string>, n: nat): (domain: seq<string>)
    requires 0 < n < |pattern|
    ensures |domain| == |pattern| + 2
  {
    seq(|pattern| + 2, k requires 0 <= k < |pattern| + 2 =>
      if k < n then Filled(pattern, k)
      else if k == n then Strange(pattern)
      else if k == n + 1 then pattern[n - 1]
      else Filled(pattern, k - 2))
  }

  function Filled(pattern: seq<string>, k: nat): string
    requires k < |pattern|
  {
    if pattern[k] == WILDCARD then Strange(pattern) else pattern[k]
  }

  /** What the misleading domain looks like, position by position. */
  lemma MisleadingLayout(pattern: seq<string>, n: nat)
    requires 0 < n < |pattern| && pattern[n] == WILDCARD && pattern[n - 1] != WILDCARD
    ensures var domain, strange, e := Misleading(pattern, n), Strange(pattern), RunEnd(pattern, n);
      && Repeats(domain, 0, pattern, 0, n, strange) && Repeats(domain, e + 2, pattern, e, |pattern|, strange)
      && domain[n] == strange && domain[n + 1] == pattern[n - 1]
      && (forall k :: n + 2 <= k < e + 2 ==> domain[k] == strange)
  {
    hide Strange;
    var domain, e := Misleading(pattern, n), RunEnd(pattern, n);
    forall k | 0 <= k < n ensures domain[k] == Filled(pattern, k) {
    }
    forall k | n <= k < |pattern| ensures domain[k + 2] == Filled(pattern, k) {
    }
    forall k | n + 2 <= k < e + 2 ensures domain[k] == Filled(pattern, k - 2) {
      assert domain[k - 2 + 2] == Filled(pattern, k - 2);
    }
    forall k | e <= k < |pattern| ensures domain[e + 2 + (k - e)] == Filled(pattern, k) {
      assert domain[k + 2] == Filled(pattern, k);
    }
  }

  lemma MisleadingDomainIsRejected(pattern: seq<string>, n: nat)
    requires 0 < n < |pattern| && pattern[n] == WILDCARD && pattern[n - 1] != WILDCARD
    requires n == 1 || pattern[n - 2] != WILDCARD
    ensures |Misleading(pattern, n)| > |pattern|
    ensures HasSplit(Misleading(pattern, n), pattern) && !Greedy(Misleading(pattern, n), pattern)
  {
    MisleadingLayout(pattern, n);
    var domain, strange, e := Misleading(pattern, n), Strange(pattern), RunEnd(pattern, n);
    RunStartOfRun(pattern, n, e);
    MisleadingSplits(domain, pattern, n, e, strange);
    MisleadingIsNotGreedy(domain, pattern, n, e, strange);
  }

  lemma MisleadingIsNotGreedy(domain: seq<string>, pattern: seq<string>, n: nat, e: nat, strange: string)
    requires 0 < n < e <= |pattern| && |domain| == |pattern| + 2
    requires pattern[e - 1] == WILDCARD && RunStart(pattern, e) == n
    requires pattern[n - 1] != WILDCARD && (n == 1 || pattern[n - 2] != WILDCARD)
    requires forall k :: 0 <= k < |pattern| ==> |strange| > |pattern[k]|
    requires Repeats(domain, e + 2, pattern, e, |pattern|, strange)
    requires domain[n] == strange && domain[n + 1] == pattern[n - 1]
    requires forall k :: n + 2 <= k < e + 2 ==> domain[k] == strange
    ensures !Greedy(domain, pattern)
  {
    RepeatedIsWalkedExactly(domain, e + 2, pattern, e, |pattern|, strange);
    LastMatchIs(domain, e + 1, pattern[n - 1], n + 2);
    GreedySkipsARun(domain, e + 2, pattern, e, n, n + 2);
    assert !GreedyFrom(domain, n + 1, pattern, n - 1);
  }

  lemma MisleadingSplits(domain: seq<string>, pattern: seq<string>, n: nat, e: nat, strange: string)
    requires n < e <= |pattern| && |domain| == |pattern| + 2 && RunStart(pattern, e) == n
    requires Repeats(domain, 0, pattern, 0, n, strange) && Repeats(domain, e + 2, pattern, e, |pattern|, strange)
    ensures HasSplit(domain, pattern)
  {
    RepeatedSplits(domain, 0, pattern, 0, n, strange);
    assert Splits(domain, e + 2, pattern, e);
    RepeatedSplits(domain, e + 2, pattern, e, |pattern|, strange);
    SplitsIffHasSplit(domain, pattern);
  }

  lemma {:induction false} RunStartOfRun(pattern: seq<string>, n: nat, e: nat)
    requires n <= e <= |pattern| && (n == 0 || pattern[n - 1] != WILDCARD)
    requires forall k :: n <= k < e ==> pattern[k] == WILDCARD
    ensures RunStart(pattern, e) == n
    decreases e
  {
    if n < e {
      RunStartOfRun(pattern, n, e - 1);
    }
  }

  /** The main result. A pattern loses no domain to the nearest choice if and only if it is safe: then the
      matcher accepts exactly the domains with as many labels as the pattern that the pattern can cut. */
  lemma GreedyIsCompleteIffSafe(pattern: seq<string>)
    ensures NearestIsSafe(pattern) <==>
      forall domain :: Greedy(domain, pattern) <==> |domain| >= |pattern| && HasSplit(domain, pattern)
  {
    hide Greedy, HasSplit;
    if NearestIsSafe(pattern) {
      forall domain ensures Greedy(domain, pattern) <==> |domain| >= |pattern| && HasSplit(domain, pattern) {
        SafePatternAcceptsItsSplits(domain, pattern);
      }
    } else {
      var n :| 0 < n < |pattern| && pattern[n] == WILDCARD && pattern[n - 1] != WILDCARD
        && !(n >= 2 && pattern[n - 2] == WILDCARD);
      MisleadingDomainIsRejected(pattern, n);
    }
  }

  lemma SafePatternAcceptsItsSplits(domain: seq<string>, pattern: seq<string>)
    requires NearestIsSafe(pattern)
    ensures Greedy(domain, pattern) <==> |domain| >= |pattern| && HasSplit(domain, pattern)
  {
    SplitsIffHasSplit(domain, pattern);
    if Greedy(domain, pattern) {
      AcceptedDomainsSplit(domain, pattern);
    } else if |domain| >= |pattern| && HasSplit(domain, pattern) {
      SplitsGreedyFrom(domain, |domain|, pattern, |pattern|);
    }
  }

  /** The smallest rejected domain that its pattern can cut. */
  lemma NearestChoiceLosesADomain()
    ensures HasSplit(["a", "a", "y", "c"], ["a", "*", "c"]) && !Greedy(["a", "a", "y", "c"], ["a", "*", "c"])
  {
    var domain, pattern := ["a", "a", "y", "c"], ["a", "*", "c"];
    assert IsSplitOf(domain, 4, pattern, 3, [0, 1, 3, 4]) by {
      assert forall k :: 0 <= k < 3 ==> Piece(domain, pattern, [0, 1, 3, 4], k);
    }
    assert RunStart(pattern, 2) == 1;
    assert LastMatch(domain, 2, "a") == 2;
    assert !GreedyFrom(domain, 3, pattern, 2);
  }

  // ---------- Equal label counts ----------

  ghost predicate MatchesByPosition(domain: seq<string>, pattern: seq<string>, j: nat)
    requires j <= |domain| && j <= |pattern|
  {
    forall k :: 0 <= k < j ==> pattern[k] == WILDCARD || EqIgnoreAsciiCase(domain[k], pattern[k])
  }

  ghost predicate NoAdjacentWildcards(pattern: seq<string>) {
    forall k :: 0 < k < |pattern| ==> pattern[k] != WILDCARD || pattern[k - 1] != WILDCARD
  }

  lemma {:induction false} SplitsByPosition(domain: seq<string>, i: nat, pattern: seq<string>, j: nat)
    requires i <= |domain| && j <= |pattern| && NoAdjacentWildcards(pattern) && Splits(domain, i, pattern, j)
    ensures i >= j && (i == j ==> MatchesByPosition(domain, pattern, j))
    decreases j
  {
    if j > 0 {
      if pattern[j - 1] == WILDCARD {
        assert RunStart(pattern, j) == j - 1;
        var k: nat :| k < i && Splits(domain, k, pattern, j - 1);
        SplitsByPosition(domain, k, pattern, j - 1);
      } else {
        SplitsByPosition(domain, i - 1, pattern, j - 1);
      }
    }
  }

  lemma {:induction false} PositionsAreGreedy(domain: seq<string>, pattern: seq<string>, j: nat)
    requires j <= |domain| && j <= |pattern| && NoAdjacentWildcards(pattern)
    requires MatchesByPosition(domain, pattern, j)
    ensures GreedyFrom(domain, j, pattern, j)
    decreases j
  {
    if j > 0 {
      if pattern[j - 1] == WILDCARD {
        assert RunStart(pattern, j) == j - 1;
        if j > 1 {
          assert EqIgnoreAsciiCase(domain[j - 2], pattern[j - 2]);
          assert LastMatch(domain, j - 1, pattern[j - 2]) == j - 1;
          PositionsAreGreedy(domain, pattern, j - 2);
        }
      } else {
        PositionsAreGreedy(domain, pattern, j - 1);
      }
    }
  }

  lemma EqualCountsMatchByPosition(domain: seq<string>, pattern: seq<string>)
    requires |domain| == |pattern| && NoAdjacentWildcards(pattern)
    ensures Greedy(domain, pattern) <==> MatchesByPosition(domain, pattern, |pattern|)
  {
    if Greedy(domain, pattern) {
      GreedyFromSplits(domain, |domain|, pattern, |pattern|);
      SplitsByPosition(domain, |domain|, pattern, |pattern|);
    } else if MatchesByPosition(domain, pattern, |pattern|) {
      PositionsAreGreedy(domain, pattern, |pattern|);
    }
  }

  /** Adjacent wildcards share the labels of their run: two of them may stand for one label. */
  lemma AdjacentWildcardsShareLabels()
    ensures Greedy(["x", "b", "y", "y", "c"], ["*", "*", "b", "*", "c"])
  {
    var domain, pattern := ["x", "b", "y", "y", "c"], ["*", "*", "b", "*", "c"];
    assert RunStart(pattern, 4) == 3;
    assert LastMatch(domain, 2, "b") == 2;
    assert LastMatch(domain, 3, "b") == 2;
    assert RunStart(pattern, 1) == 0;
    assert RunStart(pattern, 2) == 0;
    assert GreedyFrom(domain, 1, pattern, 2);
    assert GreedyFrom(domain, 4, pattern, 4);
  }

  // ---------- Leading wildcards ----------

  lemma {:induction false} LeadingWildcardsMatchTheSuffix(domain: seq<string>, pattern: seq<string>, r: nat, j: nat)
    requires 0 < r <= j <= |pattern| <= |domain|
    requires forall k :: 0 <= k < |pattern| ==> (pattern[k] == WILDCARD <==> k < r)
    ensures GreedyFrom(domain, |domain| - |pattern| + j, pattern, j) <==>
      forall k :: r <= k < j ==> EqIgnoreAsciiCase(domain[|domain| - |pattern| + k], pattern[k])
    decreases j
  {
    if j == r {
      RunStartOfRun(pattern, 0, r);
    } else {
      LeadingWildcardsMatchTheSuffix(domain, pattern, r, j - 1);
    }
  }

  /** `*.…` with all wildcards in front: the literal suffix decides, for every long enough domain. */
  lemma AcceptsBySuffix(domain: seq<string>, pattern: seq<string>, r: nat)
    requires 0 < r <= |pattern|
    requires forall k :: 0 <= k < |pattern| ==> (pattern[k] == WILDCARD <==> k < r)
    ensures Greedy(domain, pattern) <==>
      && |domain| >= |pattern|
      && forall k :: r <= k < |pattern| ==> EqIgnoreAsciiCase(domain[|domain| - |pattern| + k], pattern[k])
  {
    if |domain| >= |pattern| {
      LeadingWildcardsMatchTheSuffix(domain, pattern, r, |pattern|);
    }
  }

  lemma {:induction false} OwnWildcardFrom(domain: seq<string>, pattern: seq<string>, j: nat)
    requires 0 < j <= |pattern| == |domain| && pattern[0] == WILDCARD
    requires forall k :: 0 < k < j ==> domain[k] == pattern[k]
    ensures GreedyFrom(domain, j, pattern, j)
    decreases j
  {
    if pattern[j - 1] == WILDCARD {
      var n := RunStart(pattern, j);
      RunStartLaw(pattern, j);
      if n > 0 {
        var q := LastMatch(domain, j - 1, pattern[n - 1]);
        LastMatchLaw(domain, j - 1, pattern[n - 1]);
        assert domain[n - 1] == pattern[n - 1];
        WildcardEqualsOnlyItself(domain[q - 1], pattern[n - 1]);
        assert q == n;
        OwnWildcardFrom(domain, pattern, n - 1);
      }
    } else {
      OwnWildcardFrom(domain, pattern, j - 1);
    }
  }

  /** A domain always matches the pattern made by replacing its first label with a wildcard, even when
      further labels of it happen to be `*`. */
  lemma MatchesItsOwnWildcard(first: string, rest: seq<string>)
    ensures Greedy([first] + rest, [WILDCARD] + rest)
  {
    OwnWildcardFrom([first] + rest, [WILDCARD] + rest, |rest| + 1);
  }
}
