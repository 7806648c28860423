/** The few Python `str` operations the scanner relies on, over `seq<char>`. */
module Text {

  /** Python's `s.startswith(prefix)`. */
  predicate StartsWith(s: string, prefix: string) {
    |prefix| <= |s| && s[..|prefix|] == prefix
  }

  /** Python's `sub in s`: `sub` occurs as a contiguous block of `s`. */
  predicate Contains(s: string, sub: string)
    decreases |s|
  {
    StartsWith(s, sub) || (|s| > 0 && Contains(s[1..], sub))
  }

  /** Python's `any(sub in s for sub in subs)`. */
  predicate ContainsAny(s: string, subs: seq<string>)
    decreases |subs|
  {
    |subs| > 0 && (Contains(s, subs[0]) || ContainsAny(s, subs[1..]))
  }

  /** `ContainsAny` holds exactly when one of the candidates occurs. */
  lemma {:induction false} ContainsAnyIff(s: string, subs: seq<string>)
    ensures ContainsAny(s, subs) <==> exists j :: 0 <= j < |subs| && Contains(s, subs[j])
    decreases |subs|
  {
    if |subs| > 0 {
      ContainsAnyIff(s, subs[1..]);
      if exists j :: 0 <= j < |subs[1..]| && Contains(s, subs[1..][j]) {
        var j :| 0 <= j < |subs[1..]| && Contains(s, subs[1..][j]);
        assert Contains(s, subs[j + 1]);
      }
      if exists j :: 0 <= j < |subs| && Contains(s, subs[j]) {
        var j :| 0 <= j < |subs| && Contains(s, subs[j]);
        if j > 0 {
          assert subs[1..][j - 1] == subs[j];
        }
      }
    }
  }

  /** `sub` occurs in `s` starting at index `i`. */
  predicate OccursAt(s: string, sub: string, i: int) {
    0 <= i <= |s| - |sub| && s[i..i + |sub|] == sub
  }

  /** An occurrence found by `Contains` is a window of `s` equal to `sub`. */
  lemma {:induction false} ContainsOccurs(s: string, sub: string)
    requires Contains(s, sub)
    ensures exists i :: OccursAt(s, sub, i)
    decreases |s|
  {
    if StartsWith(s, sub) {
      assert OccursAt(s, sub, 0);
    } else {
      ContainsOccurs(s[1..], sub);
      var j :| OccursAt(s[1..], sub, j);
      assert s[1..][j..j + |sub|] == s[j + 1..j + 1 + |sub|];
      assert OccursAt(s, sub, j + 1);
    }
  }

  /** A window of `s` equal to `sub` is found by `Contains`. */
  lemma {:induction false} OccursContains(s: string, sub: string, i: int)
    requires OccursAt(s, sub, i)
    ensures Contains(s, sub)
    decreases i
  {
    if i == 0 {
      assert StartsWith(s, sub);
    } else {
      assert s[1..][i - 1..i - 1 + |sub|] == s[i..i + |sub|];
      OccursContains(s[1..], sub, i - 1);
    }
  }

  /** `Contains` agrees with the positional reading of `in`: some window of `s` equals `sub`. */
  lemma ContainsIffOccurs(s: string, sub: string)
    ensures Contains(s, sub) <==> exists i :: OccursAt(s, sub, i)
  {
    if Contains(s, sub) {
      ContainsOccurs(s, sub);
    }
    if exists i :: OccursAt(s, sub, i) {
      var i :| OccursAt(s, sub, i);
      OccursContains(s, sub, i);
    }
  }

  /** Python's `s.find(c)` for one character: the first index of `c`, or -1. */
  function Find(s: string, c: char): (i: int)
    ensures -1 <= i < |s|
    ensures i == -1 <==> c !in s
    ensures 0 <= i ==> s[i] == c && c !in s[..i]
  {
    if |s| == 0 then -1
    else if s[0] == c then 0
    else
      var j := Find(s[1..], c);
      assert s[1..][..j + 1] == s[1..j + 2] by {
        if j >= 0 { assert s[..j + 1] == [s[0]] + s[1..][..j]; }
      }
      if j == -1 then -1 else j + 1
  }

  /** Python's `s.count(c)` for one character: how often `c` occurs in `s`. */
  function Count(s: string, c: char): (n: nat)
    ensures n == multiset(s)[c]
  {
    if |s| == 0 then 0
    else
      assert s == [s[0]] + s[1..];
      (if s[0] == c then 1 else 0) + Count(s[1..], c)
  }

  /** The characters of `s` that satisfy `keep`, in their original order. */
  function Filter(s: string, keep: char -> bool): (r: string)
    ensures |r| <= |s|
    ensures forall i :: 0 <= i < |r| ==> keep(r[i])
  {
    if |s| == 0 then []
    else (if keep(s[0]) then [s[0]] else []) + Filter(s[1..], keep)
  }

  /** Filtering keeps every kept character exactly as often as it occurs, and drops the rest. */
  lemma {:induction false} FilterCounts(s: string, keep: char -> bool)
    ensures forall c :: multiset(Filter(s, keep))[c] == if keep(c) then multiset(s)[c] else 0
    decreases |s|
  {
    if |s| > 0 {
      FilterCounts(s[1..], keep);
      assert s == [s[0]] + s[1..];
      assert multiset(s) == multiset([s[0]]) + multiset(s[1..]);
      var head := if keep(s[0]) then [s[0]] else [];
      assert multiset(Filter(s, keep)) == multiset(head) + multiset(Filter(s[1..], keep));
    }
  }

  lemma {:induction false} FilterConcat(a: string, b: string, keep: char -> bool)
    ensures Filter(a + b, keep) == Filter(a, keep) + Filter(b, keep)
    decreases |a|
  {
    if |a| == 0 {
      assert a + b == b;
    } else {
      assert (a + b)[1..] == a[1..] + b;
      FilterConcat(a[1..], b, keep);
      var head := if keep(a[0]) then [a[0]] else [];
      calc {
        Filter(a + b, keep);
        head + Filter(a[1..] + b, keep);
        head + (Filter(a[1..], keep) + Filter(b, keep));
        (head + Filter(a[1..], keep)) + Filter(b, keep);
        Filter(a, keep) + Filter(b, keep);
      }
    }
  }

  /** Filtering keeps `s` unchanged exactly when every character is kept. */
  lemma {:induction false} FilterIdentity(s: string, keep: char -> bool)
    ensures Filter(s, keep) == s <==> forall i :: 0 <= i < |s| ==> keep(s[i])
    decreases |s|
  {
    if |s| > 0 {
      FilterIdentity(s[1..], keep);
      if forall i :: 0 <= i < |s| ==> keep(s[i]) {
        assert forall i :: 0 <= i < |s[1..]| ==> keep(s[1..][i]) by {
          forall i | 0 <= i < |s[1..]| ensures keep(s[1..][i]) { assert s[1..][i] == s[i + 1]; }
        }
        assert [s[0]] + s[1..] == s;
      }
    }
  }

  /** Filtering twice is filtering once. */
  lemma FilterIdempotent(s: string, keep: char -> bool)
    ensures Filter(Filter(s, keep), keep) == Filter(s, keep)
  {
    FilterIdentity(Filter(s, keep), keep);
  }

  /** ASCII lower-casing of one character. */
  function LowerChar(c: char): char {
    if 'A' <= c <= 'Z' then (c as int + 32) as char else c
  }

  /** Python's `s.lower()` restricted to ASCII letters. */
  function Lower(s: string): (r: string)
    ensures |r| == |s|
    ensures forall i :: 0 <= i < |s| ==> r[i] == LowerChar(s[i])
  {
    seq(|s|, i requires 0 <= i < |s| => LowerChar(s[i]))
  }

  /** Python's `str.isspace()` for one character. */
  predicate IsSpace(c: char) {
    || c == ' '
    || '\t' <= c <= '\r'
    || '\U{1C}' <= c <= '\U{1F}'
    || c == '\U{85}' || c == '\U{A0}' || c == '\U{1680}'
    || '\U{2000}' <= c <= '\U{200A}'
    || c == '\U{2028}' || c == '\U{2029}' || c == '\U{202F}' || c == '\U{205F}' || c == '\U{3000}'
  }

  /** The length of the run of whitespace that `s` starts with. */
  function LeadingSpaces(s: string): (n: nat)
    ensures n <= |s|
    ensures forall k :: 0 <= k < n ==> IsSpace(s[k])
    ensures n < |s| ==> !IsSpace(s[n])
  {
    if |s| > 0 && IsSpace(s[0]) then
      var n := LeadingSpaces(s[1..]);
      assert forall k :: 1 <= k < n + 1 ==> s[k] == s[1..][k - 1];
      n + 1
    else 0
  }

  /** The length of the run of whitespace that `s` ends with. */
  function TrailingSpaces(s: string): (n: nat)
    ensures n <= |s|
    ensures forall k :: |s| - n <= k < |s| ==> IsSpace(s[k])
    ensures n < |s| ==> !IsSpace(s[|s| - n - 1])
  {
    if |s| > 0 && IsSpace(s[|s| - 1]) then
      var n := TrailingSpaces(s[..|s| - 1]);
      assert forall k :: |s| - 1 - n <= k < |s| - 1 ==> s[k] == s[..|s| - 1][k];
      n + 1
    else 0
  }

  /** Python's `s.lstrip()`: a suffix of `s` that does not start with whitespace. */
  function TrimStart(s: string): (r: string)
    ensures |r| <= |s| && r == s[|s| - |r|..]
    ensures forall k :: 0 <= k < |s| - |r| ==> IsSpace(s[k])
    ensures |r| > 0 ==> !IsSpace(r[0])
  {
    s[LeadingSpaces(s)..]
  }

  /** Python's `s.rstrip()`: a prefix of `s` that does not end with whitespace. */
  function TrimEnd(s: string): (r: string)
    ensures |r| <= |s| && r == s[..|r|]
    ensures forall k :: |r| <= k < |s| ==> IsSpace(s[k])
    ensures |r| > 0 ==> !IsSpace(r[|r| - 1])
  {
    s[..|s| - TrailingSpaces(s)]
  }

  /** Python's `s.strip()`: the block of `s` left once the whitespace at both ends is
      removed. It is empty exactly when `s` is all whitespace. */
  function Strip(s: string): (r: string)
    ensures var i := |s| - |TrimStart(s)|;
            && i + |r| <= |s| && r == s[i..i + |r|]
            && (forall k :: 0 <= k < i ==> IsSpace(s[k]))
            && (forall k :: i + |r| <= k < |s| ==> IsSpace(s[k]))
    ensures |r| == 0 <==> forall k :: 0 <= k < |s| ==> IsSpace(s[k])
    ensures |r| > 0 ==> !IsSpace(r[0]) && !IsSpace(r[|r| - 1])
  {
    var t := TrimStart(s);
    var r := TrimEnd(t);
    TrimsMakeStrip(s, t, r);
    r
  }

  /** A prefix `r` of a suffix `t` of `s` is the block of `s` at `|s| - |t|`, and whatever
      `keep` holds for past `r` in `t` it holds for past that block in `s`. */
  lemma PrefixOfSuffix(s: string, t: string, r: string, keep: char -> bool)
    requires |t| <= |s| && t == s[|s| - |t|..]
    requires |r| <= |t| && r == t[..|r|]
    requires forall k :: |r| <= k < |t| ==> keep(t[k])
    ensures |s| - |t| + |r| <= |s| && r == s[|s| - |t|..|s| - |t| + |r|]
    ensures forall k :: |s| - |t| + |r| <= k < |s| ==> keep(s[k])
  {
    var i := |s| - |t|;
    forall k | i + |r| <= k < |s| ensures keep(s[k]) {
      assert s[k] == t[k - i];
    }
  }

  /** From the contracts of the two trims alone: a right trim `r` of a left trim `t` of `s`
      is a block of `s` with whitespace on both sides of it. */
  lemma TrimsMakeStrip(s: string, t: string, r: string)
    requires |t| <= |s| && t == s[|s| - |t|..]
    requires forall k :: 0 <= k < |s| - |t| ==> IsSpace(s[k])
    requires |t| > 0 ==> !IsSpace(t[0])
    requires |r| <= |t| && r == t[..|r|]
    requires forall k :: |r| <= k < |t| ==> IsSpace(t[k])
    requires |r| > 0 ==> !IsSpace(r[|r| - 1])
    ensures var i := |s| - |t|;
            && i + |r| <= |s| && r == s[i..i + |r|]
            && (forall k :: i + |r| <= k < |s| ==> IsSpace(s[k]))
            && (|r| == 0 <==> forall k :: 0 <= k < |s| ==> IsSpace(s[k]))
            && (|r| > 0 ==> !IsSpace(r[0]) && !IsSpace(r[|r| - 1]))
  {
    PrefixOfSuffix(s, t, r, IsSpace);
    if |r| > 0 {
      assert r[0] == t[0];
    }
  }
}
