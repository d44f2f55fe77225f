/** The few operations of Go's `strings` package that the handlers use,
    over strings modelled as sequences of characters. */
module Strings {

  /** `p` occurs in `s` starting at index `i`. */
  predicate OccursAt(s: string, p: string, i: int) {
    0 <= i && i + |p| <= |s| && s[i..i + |p|] == p
  }

  /** `strings.Index`: the first index at which `p` occurs in `s`, or -1. */
  function IndexOf(s: string, p: string): (r: int)
    ensures -1 <= r <= |s|
    ensures r >= 0 ==> OccursAt(s, p, r)
    ensures forall j :: 0 <= j && (r < 0 || j < r) ==> !OccursAt(s, p, j)
    decreases |s|
  {
    if |p| <= |s| && s[..|p|] == p then 0
    else if |s| == 0 then -1
    else
      var r := IndexOf(s[1..], p);
      var r' := if r < 0 then -1 else r + 1;
      assert forall j :: 0 <= j && (r' < 0 || j < r') ==> !OccursAt(s, p, j) by {
        ShiftOccurrence(s, p);
        forall j | 0 < j && (r' < 0 || j < r') ensures !OccursAt(s, p, j) {
          assert !OccursAt(s[1..], p, j - 1);
        }
      }
      r'
  }

  /** An occurrence in the tail of `s` is an occurrence in `s`, one place later. */
  lemma ShiftOccurrence(s: string, p: string)
    requires |s| > 0
    ensures forall j :: 0 <= j ==> (OccursAt(s[1..], p, j) <==> OccursAt(s, p, j + 1))
  {
    forall j | 0 <= j
      ensures OccursAt(s[1..], p, j) <==> OccursAt(s, p, j + 1)
    {
      if j + |p| <= |s[1..]| {
        assert s[1..][j..j + |p|] == s[j + 1..j + 1 + |p|];
      }
    }
  }

  /** `strings.Contains`. */
  predicate Contains(s: string, p: string)
    ensures Contains(s, p) <==> exists i :: OccursAt(s, p, i)
  {
    IndexOf(s, p) >= 0
  }

  /** A contained pattern is no longer than the text holding it. */
  lemma ContainedIsNoLonger(s: string, p: string)
    requires Contains(s, p)
    ensures |p| <= |s|
  {
    var i :| OccursAt(s, p, i);
  }

  /** `strings.LastIndex` for a one-character separator: the last index of `c`
      in `s`, or -1. */
  function LastIndexOf(s: string, c: char): (r: int)
    ensures r == -1 <==> c !in s
    ensures r >= 0 ==> r < |s| && s[r] == c
    ensures forall j :: 0 <= j < |s| && r < j ==> s[j] != c
  {
    if |s| == 0 then -1
    else if s[|s| - 1] == c then |s| - 1
    else LastIndexOf(s[..|s| - 1], c)
  }

  /** `strings.Replace(s, pattern, replacement, 1)`: the first occurrence of `pattern`, if any,
      is replaced by `replacement`; everything else is kept. */
  function ReplaceFirst(s: string, pattern: string, replacement: string): (r: string)
    ensures !Contains(s, pattern) ==> r == s
    ensures Contains(s, pattern) ==>
      exists i :: OccursAt(s, pattern, i) && r == s[..i] + replacement + s[i + |pattern|..] &&
                  forall j :: 0 <= j < i ==> !OccursAt(s, pattern, j)
  {
    var i := IndexOf(s, pattern);
    if i < 0 then s else s[..i] + replacement + s[i + |pattern|..]
  }

  /** `unicode.IsSpace`: the Latin-1 spaces and the other code points with the
      Unicode White_Space property. */
  predicate IsSpace(c: char) {
    var n := c as int;
    || 0x09 <= n <= 0x0D
    || n == 0x20
    || n == 0x85
    || n == 0xA0
    || n == 0x1680
    || 0x2000 <= n <= 0x200A
    || n == 0x2028
    || n == 0x2029
    || n == 0x202F
    || n == 0x205F
    || n == 0x3000
  }

  /** Drops the leading white space of `s`. */
  function TrimLeft(s: string): (r: string)
    ensures |r| <= |s|
    ensures r != [] ==> !IsSpace(r[0])
  {
    if |s| > 0 && IsSpace(s[0]) then TrimLeft(s[1..]) else s
  }

  /** Drops the trailing white space of `s`. */
  function TrimRight(s: string): (r: string)
    ensures |r| <= |s|
    ensures r != [] ==> !IsSpace(r[|r| - 1])
  {
    if |s| > 0 && IsSpace(s[|s| - 1]) then TrimRight(s[..|s| - 1]) else s
  }

  /** `TrimLeft` keeps a suffix of `s` and drops only white space. */
  lemma {:induction false} TrimLeftIsSuffix(s: string)
    ensures TrimLeft(s) == s[|s| - |TrimLeft(s)|..]
    ensures forall k :: 0 <= k < |s| - |TrimLeft(s)| ==> IsSpace(s[k])
    decreases |s|
  {
    if |s| > 0 && IsSpace(s[0]) {
      TrimLeftIsSuffix(s[1..]);
      assert forall k :: 1 <= k < |s| ==> s[k] == s[1..][k - 1];
    }
  }

  /** `TrimRight` keeps a prefix of `s` and drops only white space. */
  lemma {:induction false} TrimRightIsPrefix(s: string)
    ensures TrimRight(s) == s[..|TrimRight(s)|]
    ensures forall k :: |TrimRight(s)| <= k < |s| ==> IsSpace(s[k])
    decreases |s|
  {
    if |s| > 0 && IsSpace(s[|s| - 1]) {
      var t := s[..|s| - 1];
      TrimRightIsPrefix(t);
      assert TrimRight(s) == TrimRight(t);
      assert |t| == |s| - 1 && forall k :: 0 <= k < |t| ==> t[k] == s[k];
      assert t[..|TrimRight(t)|] == s[..|TrimRight(t)|];
    }
  }

  /** `strings.TrimSpace`: `s` without its leading and trailing white space. */
  function TrimSpace(s: string): (r: string)
    ensures |r| <= |s|
    ensures r != [] ==> !IsSpace(r[0]) && !IsSpace(r[|r| - 1])
  {
    var l := TrimLeft(s);
    TrimRightIsPrefix(l);
    TrimRight(l)
  }

  /** What trimming removes: the result is the slice of `s` that starts after
      the leading white space, and everything outside it is white space. */
  lemma {:induction false} TrimSpaceIsSlice(s: string)
    ensures var i := |s| - |TrimLeft(s)|;
            && i + |TrimSpace(s)| <= |s|
            && TrimSpace(s) == s[i..i + |TrimSpace(s)|]
            && (forall k :: 0 <= k < i ==> IsSpace(s[k]))
            && (forall k :: i + |TrimSpace(s)| <= k < |s| ==> IsSpace(s[k]))
  {
    var l := TrimLeft(s);
    var i := |s| - |l|;
    var r := TrimRight(l);
    assert TrimSpace(s) == r;
    assert l == s[i..] && forall k :: 0 <= k < i ==> IsSpace(s[k]) by {
      TrimLeftIsSuffix(s);
    }
    assert r == l[..|r|] && forall k :: |r| <= k < |l| ==> IsSpace(l[k]) by {
      TrimRightIsPrefix(l);
    }
    assert forall k :: 0 <= k < |r| ==> r[k] == s[i + k];
    assert r == s[i..i + |r|];
    assert forall k :: i + |r| <= k < |s| ==> s[k] == l[k - i];
  }

  /** Trimming is idempotent: a trimmed string has nothing left to trim. */
  lemma {:induction false} TrimSpaceIdempotent(s: string)
    ensures TrimSpace(TrimSpace(s)) == TrimSpace(s)
  {
    var t := TrimSpace(s);
    if t != [] {
      assert TrimLeft(t) == t;
      assert TrimRight(t) == t;
    }
  }
}
