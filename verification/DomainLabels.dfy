/** Host names as sequences of dot-separated labels, with the ASCII case folding the router uses. */
module DomainLabels {

  const WILDCARD := "*"

  function LowerChar(c: char): char {
    if 'A' <= c <= 'Z' then (c as int + 32) as char else c
  }

  /** Each of the 26 letters goes to its lower case, and every other character stays. */
  lemma LowerCharLaw(c: char)
    ensures forall k :: 0 <= k < 26 && c == "ABCDEFGHIJKLMNOPQRSTUVWXYZ"[k] ==>
      LowerChar(c) == "abcdefghijklmnopqrstuvwxyz"[k]
    ensures c !in "ABCDEFGHIJKLMNOPQRSTUVWXYZ" ==> LowerChar(c) == c
  {
    var upper := "ABCDEFGHIJKLMNOPQRSTUVWXYZ";
    assert forall k :: 0 <= k < 26 ==> upper[k] as int == 65 + k;
    assert forall k :: 0 <= k < 26 ==> "abcdefghijklmnopqrstuvwxyz"[k] as int == 97 + k;
    if 'A' <= c <= 'Z' {
      assert upper[c as int - 65] == c;
    }
  }

  function ToLowercase(s: string): (r: string)
    ensures |r| == |s| && forall i :: 0 <= i < |s| ==> r[i] == LowerChar(s[i])
  {
    seq(|s|, i requires 0 <= i < |s| => LowerChar(s[i]))
  }

  predicate EqIgnoreAsciiCase(a: string, b: string) {
    |a| == |b| && forall i :: 0 <= i < |a| ==> LowerChar(a[i]) == LowerChar(b[i])
  }

  lemma WildcardEqualsOnlyItself(a: string, b: string)
    ensures a == WILDCARD && EqIgnoreAsciiCase(a, b) ==> b == WILDCARD
  {
  }

  /** `split('.')`: always at least one label, possibly empty. */
  function SplitDots(s: string): (labels: seq<string>)
    ensures |labels| >= 1
  {
    if s == "" then [""]
    else if s[0] == '.' then [""] + SplitDots(s[1..])
    else var rest := SplitDots(s[1..]); [[s[0]] + rest[0]] + rest[1..]
  }

  /** `join(".")` */
  function JoinDots(labels: seq<string>): string
    requires |labels| >= 1
  {
    if |labels| == 1 then labels[0] else labels[0] + "." + JoinDots(labels[1..])
  }

  ghost predicate DotFree(part: string) {
    '.' !in part
  }

  lemma {:induction false} SplitLabelsAreDotFree(s: string)
    ensures forall k :: 0 <= k < |SplitDots(s)| ==> DotFree(SplitDots(s)[k])
  {
    if s != "" {
      SplitLabelsAreDotFree(s[1..]);
      var rest := SplitDots(s[1..]);
      forall k | 0 <= k < |SplitDots(s)| ensures DotFree(SplitDots(s)[k]) {
        if s[0] != '.' {
          assert DotFree(rest[0]);
          if k > 0 {
            assert SplitDots(s)[k] == rest[k];
          }
        } else if k > 0 {
          assert SplitDots(s)[k] == rest[k - 1];
        }
      }
    }
  }

  lemma {:induction false} JoinUndoesSplit(s: string)
    ensures JoinDots(SplitDots(s)) == s
  {
    if s != "" {
      JoinUndoesSplit(s[1..]);
      var rest := SplitDots(s[1..]);
      assert s == [s[0]] + s[1..];
      if s[0] == '.' {
        assert ([""] + rest)[1..] == rest;
      } else {
        var labels := [[s[0]] + rest[0]] + rest[1..];
        if |rest| > 1 {
          assert labels[1..] == rest[1..];
        }
      }
    }
  }

  /** Putting a dot-free label and a dot before `s` puts exactly that label before the labels of `s`. */
  lemma {:induction false} SplitOfPrefixed(part: string, s: string)
    requires DotFree(part)
    ensures SplitDots(part + "." + s) == [part] + SplitDots(s)
  {
    var whole := part + "." + s;
    if part == "" {
      assert whole[1..] == s;
    } else {
      SplitOfPrefixed(part[1..], s);
      assert whole[1..] == part[1..] + "." + s;
      assert part == [part[0]] + part[1..];
    }
  }
}
