/** The Go `strings` functions the pipeline relies on, over `seq<char>`.
    Each is defined once and characterised by its contract, so the rest of the
    model reasons about occurrences rather than about the scanning. Only ASCII
    letters are case-folded (see `ToLower`). */
module Strs {

  /** `sub` occurs in `s` starting at index `k`. */
  predicate OccursAt(s: string, sub: string, k: int) {
    0 <= k && k + |sub| <= |s| && s[k..k + |sub|] == sub
  }

  /** strings.HasPrefix */
  predicate HasPrefix(s: string, p: string) {
    p <= s
  }

  /** A mismatch at index `j` rules out the prefix. */
  lemma NotPrefixAt(s: string, p: string, j: nat)
    requires j < |p| && j < |s| && s[j] != p[j]
    ensures !HasPrefix(s, p)
  {
  }

  /** strings.HasSuffix */
  predicate HasSuffix(s: string, p: string) {
    |p| <= |s| && s[|s| - |p|..] == p
  }

  /** A mismatch counted from the end rules out the suffix. */
  lemma NotSuffixAt(s: string, p: string, j: nat)
    requires 0 < j <= |p| && j <= |s| && s[|s| - j] != p[|p| - j]
    ensures !HasSuffix(s, p)
  {
  }

  /** strings.TrimPrefix: removes one leading `p`, if present. */
  function TrimPrefix(s: string, p: string): (r: string)
    ensures HasPrefix(s, p) ==> s == p + r
    ensures !HasPrefix(s, p) ==> r == s
  {
    if p <= s then s[|p|..] else s
  }

  /** strings.TrimSuffix: removes one trailing `p`, if present. */
  function TrimSuffix(s: string, p: string): (r: string)
    ensures HasSuffix(s, p) ==> s == r + p
    ensures !HasSuffix(s, p) ==> r == s
  {
    if HasSuffix(s, p) then s[..|s| - |p|] else s
  }

  /** The first occurrence of `sub` at or after `k`, or -1. */
  function IndexFrom(s: string, sub: string, k: nat): (r: int)
    ensures r == -1 || (k <= r && OccursAt(s, sub, r))
    ensures forall j :: k <= j && (r == -1 || j < r) ==> !OccursAt(s, sub, j)
    decreases |s| - k
  {
    if k + |sub| > |s| then -1
    else if s[k..k + |sub|] == sub then k
    else IndexFrom(s, sub, k + 1)
  }

  /** strings.Index: the first occurrence of `sub` in `s`, or -1. */
  function IndexOf(s: string, sub: string): (r: int)
    ensures r == -1 || OccursAt(s, sub, r)
    ensures forall j :: 0 <= j && (r == -1 || j < r) ==> !OccursAt(s, sub, j)
  {
    IndexFrom(s, sub, 0)
  }

  /** strings.Contains */
  predicate Contains(s: string, sub: string) {
    exists k :: 0 <= k <= |s| - |sub| && OccursAt(s, sub, k)
  }

  /** The first occurrence is where `sub` occurs with none before it. */
  lemma IndexOfAt(s: string, sub: string, k: nat)
    requires OccursAt(s, sub, k)
    requires forall j :: 0 <= j < k ==> !OccursAt(s, sub, j)
    ensures IndexOf(s, sub) == k
  {
  }

  /** strings.Index finds something exactly when strings.Contains holds. */
  lemma IndexOfContains(s: string, sub: string)
    ensures IndexOf(s, sub) >= 0 <==> Contains(s, sub)
  {
  }

  /** A witness index shows containment. */
  lemma ContainsAt(s: string, sub: string, k: int)
    requires OccursAt(s, sub, k)
    ensures Contains(s, sub)
  {
  }

  /** A character of `sub` that `s` lacks shows non-containment. */
  lemma NotContainsByChar(s: string, sub: string, j: int)
    requires 0 <= j < |sub| && sub[j] !in s
    ensures !Contains(s, sub)
  {
  }

  /** When the first character of `sub` appears only at index `n` of `s`, and
      `sub` does not occur there (its `j`-th character differs), `sub` does
      not occur at all. */
  lemma NotContainsByFirstChar(s: string, sub: string, n: nat, j: nat)
    requires 0 < |sub| && n < |s|
    requires sub[0] !in s[..n] && sub[0] !in s[n + 1..]
    requires j < |sub| && n + j < |s| && s[n + j] != sub[j]
    ensures !Contains(s, sub)
  {
    forall k | 0 <= k < |s| && k != n
      ensures s[k] != sub[0]
    {
      if k < n {
        assert s[k] == s[..n][k];
      } else {
        assert s[k] == s[n + 1..][k - n - 1];
      }
    }
  }

  /** Containment in a prefix carries over to the whole string. */
  lemma ContainsPrefix(s: string, n: nat, sub: string)
    requires n <= |s| && Contains(s[..n], sub)
    ensures Contains(s, sub)
  {
    var k := IndexOf(s[..n], sub);
    assert s[..n][k..k + |sub|] == s[k..k + |sub|];
    ContainsAt(s, sub, k);
  }

  /** The first occurrence of character `c` in `s`, or -1 (strings.IndexByte). */
  function IndexOfChar(s: string, c: char): (r: int)
    ensures -1 <= r < |s|
    ensures r == -1 <==> c !in s
    ensures r >= 0 ==> s[r] == c && c !in s[..r]
  {
    if |s| == 0 then -1
    else if s[0] == c then 0
    else
      var i := IndexOfChar(s[1..], c);
      assert s[1..] == s[1..][..|s| - 1];
      if i == -1 then -1
      else
        assert s[..i + 1] == [s[0]] + s[1..][..i];
        i + 1
  }

  /** The index is determined by where `c` first appears. */
  lemma IndexOfCharSplit(a: string, c: char, b: string)
    requires c !in a
    ensures IndexOfChar(a + [c] + b, c) == |a|
  {
    var s := a + [c] + b;
    assert s[|a|] == c;
  }

  /** Concatenation regrouped around a middle part. */
  lemma Regroup(a: string, b: string, c: string, d: string, e: string)
    ensures a + b + c + d + e == a + (b + c + d) + e
    ensures a + b + c + d == a + (b + c + d)
  { }

  /** The last occurrence of `c` in `s`, or -1 (strings.LastIndex with a
      one-character separator). */
  function LastIndexOfChar(s: string, c: char): (r: int)
    ensures -1 <= r < |s|
    ensures r == -1 <==> c !in s
    ensures r >= 0 ==> s[r] == c && c !in s[r + 1..]
  {
    if |s| == 0 then -1
    else if s[|s| - 1] == c then |s| - 1
    else
      var i := LastIndexOfChar(s[..|s| - 1], c);
      DropLastIn(s, c);
      if i >= 0 then
        DropLastAfter(s, c, i);
        i
      else i
  }

  /** Without `c` at its end, `s` holds `c` exactly when its front does. */
  lemma DropLastIn(s: string, c: char)
    requires |s| > 0 && s[|s| - 1] != c
    ensures c in s <==> c in s[..|s| - 1]
  {
    assert s[..|s| - 1] + [s[|s| - 1]] == s;
  }

  lemma DropLastAfter(s: string, c: char, i: nat)
    requires i < |s| - 1 && s[|s| - 1] != c
    ensures c in s[i + 1..] <==> c in s[..|s| - 1][i + 1..]
  {
    assert s[i + 1..] == s[..|s| - 1][i + 1..] + [s[|s| - 1]];
  }

  /** Everything after the last `c`, or all of `s` when there is none:
      Go's `s[strings.LastIndex(s, "/")+1:]`. */
  function AfterLast(s: string, c: char): (r: string)
    ensures c !in r
    ensures c !in s ==> r == s
    ensures c in s ==> exists k :: 0 <= k < |s| && s[k] == c && r == s[k + 1..]
  {
    var i := LastIndexOfChar(s, c);
    s[i + 1..]
  }

  /** After a `c` that ends `a`, a `c`-free tail is what AfterLast keeps. */
  lemma AfterLastOfTail(a: string, x: string, c: char)
    requires |a| > 0 && a[|a| - 1] == c && c !in x
    ensures AfterLast(a + x, c) == x
  {
    var s := a + x;
    assert s[|a| - 1] == c;
    assert s[|a|..] == x;
    assert forall k :: |a| <= k < |s| ==> s[k] == x[k - |a|];
  }

  /** Everything before the first `c`, or all of `s` when there is none:
      Go's `strings.Split(s, c)[0]`. */
  function CutAt(s: string, c: char): (r: string)
    ensures c !in r && r <= s
    ensures c !in s ==> r == s
    ensures c in s ==> s[|r|] == c
  {
    var i := IndexOfChar(s, c);
    if i == -1 then s else s[..i]
  }

  /** strings.Split with a one-character separator. */
  function Split(s: string, c: char): (r: seq<string>)
    ensures |r| >= 1
    ensures forall i :: 0 <= i < |r| ==> c !in r[i]
    ensures r[0] == CutAt(s, c)
    ensures c !in s <==> |r| == 1
    decreases |s|
  {
    var i := IndexOfChar(s, c);
    if i == -1 then [s] else [s[..i]] + Split(s[i + 1..], c)
  }

  lemma SplitNoSep(s: string, c: char)
    requires c !in s
    ensures Split(s, c) == [s]
  {
  }

  lemma SplitCons(a: string, c: char, b: string)
    requires c !in a
    ensures Split(a + [c] + b, c) == [a] + Split(b, c)
  {
    IndexOfCharSplit(a, c, b);
    var s := a + [c] + b;
    assert s[..|a|] == a;
    assert s[|a| + 1..] == b;
  }

  /** strings.ReplaceAll for a non-empty `pat`: occurrences are replaced left
      to right, without overlap. */
  function ReplaceAll(s: string, pat: string, rep: string): (r: string)
    requires |pat| > 0
    decreases |s|
  {
    if |s| < |pat| then s
    else if pat <= s then rep + ReplaceAll(s[|pat|..], pat, rep)
    else [s[0]] + ReplaceAll(s[1..], pat, rep)
  }

  /** With no occurrence, ReplaceAll changes nothing. */
  lemma {:induction false} ReplaceAllNone(s: string, pat: string, rep: string)
    requires |pat| > 0 && !Contains(s, pat)
    ensures ReplaceAll(s, pat, rep) == s
    decreases |s|
  {
    if |s| >= |pat| {
      if pat <= s {
        ContainsAt(s, pat, 0);
      } else {
        if Contains(s[1..], pat) {
          var k := IndexOf(s[1..], pat);
          assert s[1..][k..k + |pat|] == s[k + 1..k + 1 + |pat|];
          ContainsAt(s, pat, k + 1);
        }
        ReplaceAllNone(s[1..], pat, rep);
      }
    }
  }

  /** At an occurrence, ReplaceAll emits the replacement and skips it. */
  lemma ReplaceAllHere(s: string, pat: string, rep: string)
    requires |pat| > 0 && pat <= s
    ensures ReplaceAll(s, pat, rep) == rep + ReplaceAll(s[|pat|..], pat, rep)
  {
  }

  /** Away from an occurrence, ReplaceAll copies one character. */
  lemma ReplaceAllStep(s: string, pat: string, rep: string)
    requires |pat| > 0 && |s| > 0 && !OccursAt(s, pat, 0)
    ensures ReplaceAll(s, pat, rep) == [s[0]] + ReplaceAll(s[1..], pat, rep)
  {
    if |s| >= |pat| {
      assert s[0..|pat|] == s[..|pat|];
    }
  }

  /** ReplaceAll leaves a prefix alone when no occurrence starts inside it. */
  lemma {:induction false} ReplaceAllSkip(s: string, pat: string, rep: string, n: nat)
    requires |pat| > 0 && n <= |s|
    requires forall k :: 0 <= k < n ==> !OccursAt(s, pat, k)
    ensures ReplaceAll(s, pat, rep) == s[..n] + ReplaceAll(s[n..], pat, rep)
    decreases n
  {
    if n > 0 {
      ReplaceAllStep(s, pat, rep);
      var t := s[1..];
      forall k | 0 <= k < n - 1
        ensures !OccursAt(t, pat, k)
      {
        OccursInTail(s, pat, k);
      }
      ReplaceAllSkip(t, pat, rep, n - 1);
      TailSplit(s, n);
    }
  }

  /** An occurrence in `s[1..]` is one in `s`, one place later. */
  lemma OccursInTail(s: string, pat: string, k: nat)
    requires |s| > 0
    ensures OccursAt(s[1..], pat, k) <==> OccursAt(s, pat, k + 1)
  {
    if k + |pat| <= |s| - 1 {
      assert s[1..][k..k + |pat|] == s[k + 1..k + 1 + |pat|];
    }
  }

  lemma TailSplit(s: string, n: nat)
    requires 0 < n <= |s|
    ensures s[1..][n - 1..] == s[n..] && s[..n] == [s[0]] + s[1..][..n - 1]
  {
  }

  /** A character of `pat` missing from a window of `s` rules out occurrences
      starting before `n`. */
  lemma NoOccurrenceBefore(s: string, pat: string, n: nat, j: nat)
    requires j < |pat| && n + j <= |s| && pat[j] !in s[..n + j]
    ensures forall k :: 0 <= k < n ==> !OccursAt(s, pat, k)
  {
    forall k | 0 <= k < n
      ensures !OccursAt(s, pat, k)
    {
      assert s[..n + j][k + j] == s[k + j];
    }
  }

  /** A character absent from the input and from the replacement is absent
      from the output. */
  lemma {:induction false} ReplaceAllKeepsChar(s: string, pat: string, rep: string, c: char)
    requires |pat| > 0 && c !in s && c !in rep
    ensures c !in ReplaceAll(s, pat, rep)
    decreases |s|
  {
    if |s| >= |pat| {
      if pat <= s {
        ReplaceAllKeepsChar(s[|pat|..], pat, rep, c);
      } else {
        ReplaceAllKeepsChar(s[1..], pat, rep, c);
      }
    }
  }
  /** A replacement no longer than the pattern never lengthens the string,
      and a shorter one shortens it whenever the pattern occurs. */
  lemma {:induction false} ReplaceAllLength(s: string, pat: string, rep: string)
    requires 0 <= |rep| < |pat|
    ensures |ReplaceAll(s, pat, rep)| <= |s|
    ensures Contains(s, pat) ==> |ReplaceAll(s, pat, rep)| < |s|
    decreases |s|
  {
    if |s| >= |pat| {
      if pat <= s {
        ReplaceAllLength(s[|pat|..], pat, rep);
      } else {
        ReplaceAllLength(s[1..], pat, rep);
        if Contains(s, pat) {
          var k := IndexOf(s, pat);
          assert k != 0;
          assert s[k..k + |pat|] == s[1..][k - 1..k - 1 + |pat|];
          ContainsAt(s[1..], pat, k - 1);
        }
      }
    } else if Contains(s, pat) {
      var k := IndexOf(s, pat);
    }
  }

  /** When the replacement starts like the pattern, ReplaceAll keeps the first
      character. */
  lemma ReplaceAllHead(s: string, pat: string, rep: string)
    requires |pat| > 0 && |rep| > 0 && rep[0] == pat[0] && |s| > 0
    ensures |ReplaceAll(s, pat, rep)| > 0 && ReplaceAll(s, pat, rep)[0] == s[0]
  {
  }

  /** strings.Replace with n = 1: only the first occurrence is replaced. */
  function ReplaceFirst(s: string, pat: string, rep: string): (r: string)
    ensures !Contains(s, pat) ==> r == s
    ensures Contains(s, pat) ==>
      exists k :: OccursAt(s, pat, k) && r == s[..k] + rep + s[k + |pat|..]
  {
    var k := IndexOf(s, pat);
    if k == -1 then s else s[..k] + rep + s[k + |pat|..]
  }

  /** unicode.IsSpace, as used by strings.Fields. */
  predicate IsSpace(c: char) {
    c == '\t' || c == '\n' || c == '\U{000B}' || c == '\U{000C}' || c == '\r' || c == ' '
    || c == '\U{0085}' || c == '\U{00A0}' || c == '\U{1680}'
    || ('\U{2000}' <= c <= '\U{200A}')
    || c == '\U{2028}' || c == '\U{2029}' || c == '\U{202F}' || c == '\U{205F}' || c == '\U{3000}'
  }

  /** The longest prefix of `s` without white space. */
  function Word(s: string): (r: string)
    ensures r <= s
    ensures forall i :: 0 <= i < |r| ==> !IsSpace(r[i])
    ensures |r| < |s| ==> IsSpace(s[|r|])
  {
    if |s| == 0 || IsSpace(s[0]) then [] else [s[0]] + Word(s[1..])
  }

  /** strings.Fields: the maximal runs of non-space characters, in order. */
  function Fields(s: string): (r: seq<string>)
    ensures forall i :: 0 <= i < |r| ==> |r[i]| > 0
    ensures forall i, j :: 0 <= i < |r| && 0 <= j < |r[i]| ==> !IsSpace(r[i][j])
    decreases |s|
  {
    if |s| == 0 then []
    else if IsSpace(s[0]) then Fields(s[1..])
    else
      var w := Word(s);
      [w] + Fields(s[|w|..])
  }

  /** strings.Join */
  function Join(parts: seq<string>, sep: string): (r: string)
    ensures |parts| == 0 ==> r == ""
    ensures |parts| == 1 ==> r == parts[0]
    ensures |parts| > 0 ==> parts[0] <= r
  {
    if |parts| == 0 then ""
    else if |parts| == 1 then parts[0]
    else parts[0] + sep + Join(parts[1..], sep)
  }

  /** A join ends with its last part. */
  lemma {:induction false} JoinLast(parts: seq<string>, sep: string)
    requires |parts| > 0
    ensures HasSuffix(Join(parts, sep), parts[|parts| - 1])
    decreases |parts|
  {
    if |parts| > 1 {
      JoinLast(parts[1..], sep);
      var rest := Join(parts[1..], sep);
      var last := parts[|parts| - 1];
      assert parts[1..][|parts| - 2] == last;
      assert (parts[0] + sep + rest)[|parts[0] + sep + rest| - |last|..] == rest[|rest| - |last|..];
    }
  }

  /** ASCII lower-casing of one character. */
  function LowerChar(c: char): (r: char)
    ensures !('A' <= r <= 'Z')
    ensures !('A' <= c <= 'Z') ==> r == c
  {
    if 'A' <= c <= 'Z' then (c as int - 'A' as int + 'a' as int) as char else c
  }

  /** strings.ToLower, restricted to ASCII case folding. */
  function ToLower(s: string): (r: string)
    ensures |r| == |s|
    ensures forall i :: 0 <= i < |s| ==> r[i] == LowerChar(s[i])
  {
    if |s| == 0 then [] else [LowerChar(s[0])] + ToLower(s[1..])
  }

  /** A string without upper-case ASCII letters is its own lower case. */
  lemma ToLowerIdentity(s: string)
    requires forall i :: 0 <= i < |s| ==> !('A' <= s[i] <= 'Z')
    ensures ToLower(s) == s
  {
  }

  /** The decimal digits of `n` (strconv.Itoa / `%d` on a natural). */
  function NatToString(n: nat): (r: string)
    ensures |r| > 0
    ensures forall i :: 0 <= i < |r| ==> '0' <= r[i] <= '9'
    decreases n
  {
    var d := ['0' + (n % 10) as char];
    if n < 10 then d else NatToString(n / 10) + d
  }

  /** `%d` on an integer. */
  function IntToString(n: int): (r: string)
    ensures |r| > 0
  {
    if n < 0 then "-" + NatToString(-n) else NatToString(n)
  }
}
