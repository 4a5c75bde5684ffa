/**
 * Python 3 string semantics used by the monitor's classifiers: `find`/`in`,
 * `split(sep, 1)[0]` and `[-1]`, `split(sep)`, `split(sep, n)`, `split()`,
 * `strip()`, slices, ASCII `lower()`, and `str`/`int`/`isdigit` for naturals.
 *
 * Function contracts here carry only the facts callers need to stay well
 * formed (bounds, the no-separator case); what each operation means, as a
 * relation between input and output, is stated by the lemmas beside it.
 */
module Text {

  /** `c.isspace()` for a Python 3 `str` character. */
  predicate IsSpace(c: char)
  {
    || '\t' <= c <= '\r'
    || '\U{1C}' <= c <= ' '
    || c == '\U{85}' || c == '\U{A0}' || c == '\U{1680}'
    || '\U{2000}' <= c <= '\U{200A}'
    || c == '\U{2028}' || c == '\U{2029}' || c == '\U{202F}' || c == '\U{205F}' || c == '\U{3000}'
  }

  /** An ASCII decimal digit. */
  predicate IsDigit(c: char)
  {
    '0' <= c <= '9'
  }

  predicate AllDigits(s: string)
  {
    forall i :: 0 <= i < |s| ==> IsDigit(s[i])
  }

  /** `p` occurs in `s` starting at index `i`. */
  predicate OccursAt(s: string, p: string, i: nat)
  {
    i + |p| <= |s| && s[i..i + |p|] == p
  }

  /** No occurrence of `p` in `s` starts at an index in `[lo, hi)`. */
  ghost predicate NoOccurrenceIn(s: string, p: string, lo: nat, hi: nat)
  {
    forall i: nat :: lo <= i < hi ==> !OccursAt(s, p, i)
  }

  /** `s.find(p, k)`: the first index at or after `k` where `p` occurs, or -1. */
  function FindFrom(s: string, p: string, k: nat): (r: int)
    requires k <= |s|
    ensures r == -1 || (k <= r && r + |p| <= |s|)
    decreases |s| - k
  {
    if k + |p| > |s| then -1
    else if OccursAt(s, p, k) then k
    else FindFrom(s, p, k + 1)
  }

  /** `s.find(p, k)` returns an occurrence and skips none; -1 means there is none from `k` on. */
  lemma {:induction false} FindFromFirst(s: string, p: string, k: nat)
    requires k <= |s|
    ensures FindFrom(s, p, k) == -1 ==> NoOccurrenceIn(s, p, k, |s| + 1)
    ensures FindFrom(s, p, k) != -1 ==> OccursAt(s, p, FindFrom(s, p, k))
    ensures FindFrom(s, p, k) != -1 ==> NoOccurrenceIn(s, p, k, FindFrom(s, p, k))
    decreases |s| - k
  {
    if k + |p| > |s| {
      assert forall i: nat :: k <= i ==> !OccursAt(s, p, i);
    } else if !OccursAt(s, p, k) {
      FindFromFirst(s, p, k + 1);
    }
  }

  /** `s.find(p)`. */
  function Find(s: string, p: string): (r: int)
    ensures r == -1 || (0 <= r && r + |p| <= |s|)
  {
    FindFrom(s, p, 0)
  }

  /** `s.find(p)` is the first occurrence, and -1 only when there is none. */
  lemma FindFirst(s: string, p: string)
    ensures Find(s, p) == -1 ==> forall i: nat :: !OccursAt(s, p, i)
    ensures Find(s, p) != -1 ==> OccursAt(s, p, Find(s, p)) && NoOccurrenceIn(s, p, 0, Find(s, p))
  {
    FindFromFirst(s, p, 0);
  }

  /** `p in s`. */
  predicate Contains(s: string, p: string)
  {
    Find(s, p) != -1
  }

  /** An occurrence anywhere makes `p in s` true, and `find` stops at or before it. */
  lemma ContainsAt(s: string, p: string, i: nat)
    requires OccursAt(s, p, i)
    ensures Contains(s, p) && Find(s, p) <= i
  {
    FindFirst(s, p);
  }

  /** The first occurrence is at `j` when `p` occurs there and nowhere before. */
  lemma FindIs(s: string, p: string, j: nat)
    requires OccursAt(s, p, j) && NoOccurrenceIn(s, p, 0, j)
    ensures Find(s, p) == j
  {
    FindFirst(s, p);
  }

  /**
   * A character test for the absence of `p` in a window: if the `m`-th
   * character of `p` does not appear among the characters an occurrence
   * starting in `[lo, hi)` would put it on, no occurrence starts there.
   */
  lemma NoOccurrenceByChar(s: string, p: string, lo: nat, hi: nat, m: nat)
    requires m < |p| && lo <= hi && hi + m <= |s|
    requires p[m] !in s[lo + m..hi + m]
    ensures NoOccurrenceIn(s, p, lo, hi)
  {
    forall i: nat | lo <= i < hi
      ensures !OccursAt(s, p, i)
    {
      assert s[lo + m..hi + m][i - lo] == s[i + m];
      if i + |p| <= |s| {
        assert s[i..i + |p|][m] == s[i + m] != p[m];
      }
    }
  }

  /** The tail of a contained pattern is contained too. */
  lemma ContainsWithin(s: string, q: string, p: string)
    requires Contains(s, q + p)
    ensures Contains(s, p)
  {
    FindFirst(s, q + p);
    var i := Find(s, q + p);
    assert s[i + |q|..i + |q| + |p|] == s[i..i + |q| + |p|][|q|..];
    ContainsAt(s, p, i + |q|);
  }

  /** A pattern with no occurrence starting early enough to fit in `s` is not contained in it. */
  lemma NotContainsByWindow(s: string, p: string, hi: nat)
    requires NoOccurrenceIn(s, p, 0, hi) && |s| < hi + |p|
    ensures !Contains(s, p)
  {
    FindFirst(s, p);
  }

  /** A pattern that has a character absent from `s` is not contained in it. */
  lemma NotContainsByChar(s: string, p: string, m: nat)
    requires m < |p| && p[m] !in s
    ensures !Contains(s, p)
  {
    forall i: nat | i + |p| <= |s|
      ensures !OccursAt(s, p, i)
    {
      assert s[i..i + |p|][m] == s[i + m] != p[m];
    }
    FindFirst(s, p);
  }

  /** For a one-character pattern, `[c] in s` is plain membership. */
  lemma ContainsChar(s: string, c: char)
    ensures Contains(s, [c]) <==> c in s
  {
    if c in s {
      var i :| 0 <= i < |s| && s[i] == c;
      assert s[i..i + 1] == [c];
      ContainsAt(s, [c], i);
    } else {
      NotContainsByChar(s, [c], 0);
    }
  }

  /** Every character of a contained pattern appears in the text. */
  lemma ContainedChars(s: string, p: string, m: nat)
    requires Contains(s, p) && m < |p|
    ensures p[m] in s
  {
    FindFirst(s, p);
    var i := Find(s, p);
    assert s[i..i + |p|][m] == s[i + m];
  }

  /** `p` occurs in `a + p + b`. */
  lemma ContainsMiddle(a: string, p: string, b: string)
    ensures Contains(a + p + b, p)
  {
    var s := a + p + b;
    assert s[|a|..|a| + |p|] == p;
    ContainsAt(s, p, |a|);
  }

  /** `s.split(sep, 1)[0]`: the text before the first `sep`, or all of `s`. */
  function BeforeFirst(s: string, sep: string): (r: string)
    requires |sep| > 0
    ensures |r| <= |s|
    ensures !Contains(s, sep) ==> r == s
  {
    var i := Find(s, sep);
    if i < 0 then s else s[..i]
  }

  /** The piece before the first separator holds no separator. */
  lemma BeforeFirstFree(s: string, sep: string)
    requires |sep| > 0
    ensures !Contains(BeforeFirst(s, sep), sep)
  {
    var i := Find(s, sep);
    FindFirst(s, sep);
    if i >= 0 {
      var b := s[..i];
      forall k: nat
        ensures !OccursAt(b, sep, k)
      {
        if k + |sep| <= i {
          assert !OccursAt(s, sep, k);
          assert b[k..k + |sep|] == s[k..k + |sep|];
        }
      }
      FindFirst(b, sep);
    }
  }

  /** `s.split(sep, 1)[-1]`: the text after the first `sep`, or all of `s`. */
  function AfterFirst(s: string, sep: string): (r: string)
    requires |sep| > 0
    ensures Contains(s, sep) ==> |r| + |sep| <= |s|
    ensures !Contains(s, sep) ==> r == s
  {
    var i := Find(s, sep);
    if i < 0 then s else s[i + |sep|..]
  }

  /** The two halves of `s.split(sep, 1)` put back together around `sep` give `s`. */
  lemma SplitFirstJoin(s: string, sep: string)
    requires |sep| > 0 && Contains(s, sep)
    ensures s == BeforeFirst(s, sep) + sep + AfterFirst(s, sep)
  {
    var i := Find(s, sep);
    FindFirst(s, sep);
    assert s[i..i + |sep|] == sep;
    assert s == s[..i] + s[i..i + |sep|] + s[i + |sep|..];
  }

  /** Splitting `a + sep + b` at its first `sep`, when `sep` does not start inside `a`. */
  lemma SplitFirstAt(a: string, sep: string, b: string)
    requires |sep| > 0
    requires NoOccurrenceIn(a + sep + b, sep, 0, |a|)
    ensures Contains(a + sep + b, sep)
    ensures BeforeFirst(a + sep + b, sep) == a && AfterFirst(a + sep + b, sep) == b
  {
    var s := a + sep + b;
    assert s[|a|..|a| + |sep|] == sep;
    FindIs(s, sep, |a|);
    assert s[..|a|] == a;
    assert s[|a| + |sep|..] == b;
  }

  /** The same, when the first character of `sep` does not appear in `a`. */
  lemma SplitFirstAtChar(a: string, sep: string, b: string)
    requires |sep| > 0 && sep[0] !in a
    ensures Contains(a + sep + b, sep)
    ensures BeforeFirst(a + sep + b, sep) == a && AfterFirst(a + sep + b, sep) == b
  {
    var s := a + sep + b;
    assert s[0..|a|] == a;
    NoOccurrenceByChar(s, sep, 0, |a|, 0);
    SplitFirstAt(a, sep, b);
  }

  /**
   * The same, keyed on the `m`-th character of `sep`: it appears neither in
   * `a` nor earlier in `sep`, so no occurrence of `sep` can start inside `a`.
   */
  lemma SplitFirstPast(a: string, sep: string, b: string, m: nat)
    requires m < |sep| && sep[m] !in a && sep[m] !in sep[..m]
    ensures Contains(a + sep + b, sep)
    ensures BeforeFirst(a + sep + b, sep) == a && AfterFirst(a + sep + b, sep) == b
  {
    var s := a + sep + b;
    var w := s[m..|a| + m];
    forall j | 0 <= j < |w|
      ensures w[j] != sep[m]
    {
      var k := j + m;
      assert w[j] == s[k];
      if k < |a| {
        assert s[k] == a[k];
      } else {
        assert s[k] == sep[k - |a|] == sep[..m][k - |a|];
      }
    }
    NoOccurrenceByChar(s, sep, 0, |a|, m);
    SplitFirstAt(a, sep, b);
  }

  /** `s.split(sep)`: all the pieces between non-overlapping occurrences of `sep`, left to right. */
  function SplitAll(s: string, sep: string): (parts: seq<string>)
    requires |sep| > 0
    ensures |parts| >= 1
    decreases |s|
  {
    if Contains(s, sep) then [BeforeFirst(s, sep)] + SplitAll(AfterFirst(s, sep), sep)
    else [s]
  }

  /** `s.split(sep, n)`: at most `n` splits from the left; the last piece keeps the rest. */
  function SplitN(s: string, sep: string, n: nat): (parts: seq<string>)
    requires |sep| > 0
    ensures 1 <= |parts| <= n + 1
    decreases n
  {
    if n == 0 || !Contains(s, sep) then [s]
    else [BeforeFirst(s, sep)] + SplitN(AfterFirst(s, sep), sep, n - 1)
  }

  /** Without a separator, both splits give the whole text as their one piece. */
  lemma SplitNone(s: string, sep: string, n: nat)
    requires |sep| > 0 && !Contains(s, sep)
    ensures SplitAll(s, sep) == [s] && SplitN(s, sep, n) == [s]
  {
  }

  /** One step of `s.split(sep)` and `s.split(sep, n)` when a separator is present. */
  lemma SplitStep(s: string, sep: string, n: nat)
    requires |sep| > 0 && Contains(s, sep)
    ensures SplitAll(s, sep) == [BeforeFirst(s, sep)] + SplitAll(AfterFirst(s, sep), sep)
    ensures n > 0 ==> SplitN(s, sep, n) == [BeforeFirst(s, sep)] + SplitN(AfterFirst(s, sep), sep, n - 1)
  {
  }

  /** The lengths of `s.split(sep)` and `s.split(sep, n)` past one separator. */
  lemma SplitCountStep(s: string, sep: string, n: nat)
    requires |sep| > 0 && Contains(s, sep) && n > 0
    ensures |SplitAll(s, sep)| == 1 + |SplitAll(AfterFirst(s, sep), sep)|
    ensures |SplitN(s, sep, n)| == 1 + |SplitN(AfterFirst(s, sep), sep, n - 1)|
  {
    SplitStep(s, sep, n);
  }

  /** Splitting `a + sep + b` when `sep` does not start inside `a`: `a` is the first piece. */
  lemma SplitAt(a: string, sep: string, b: string, n: nat)
    requires |sep| > 0 && sep[0] !in a
    ensures SplitAll(a + sep + b, sep) == [a] + SplitAll(b, sep)
    ensures n > 0 ==> SplitN(a + sep + b, sep, n) == [a] + SplitN(b, sep, n - 1)
  {
    SplitFirstAtChar(a, sep, b);
    SplitStep(a + sep + b, sep, n);
  }

  /** `s.split(sep)` of `a + sep + b`, keyed on the `m`-th character of `sep` as in `SplitFirstPast`. */
  lemma SplitAllPast(a: string, sep: string, b: string, m: nat)
    requires m < |sep| && sep[m] !in a && sep[m] !in sep[..m]
    ensures SplitAll(a + sep + b, sep) == [a] + SplitAll(b, sep)
  {
    SplitFirstPast(a, sep, b, m);
    SplitStep(a + sep + b, sep, 0);
  }

  /** `s.split(sep, n)` of `a + sep + b`, keyed on the `m`-th character of `sep` as in `SplitFirstPast`. */
  lemma SplitNPast(a: string, sep: string, b: string, n: nat, m: nat)
    requires m < |sep| && sep[m] !in a && sep[m] !in sep[..m] && n > 0
    ensures SplitN(a + sep + b, sep, n) == [a] + SplitN(b, sep, n - 1)
  {
    SplitFirstPast(a, sep, b, m);
    SplitStep(a + sep + b, sep, n);
  }

  /** In `a + sep`, the first `sep` is the appended one: none starts inside `a`, not even across its end. */
  predicate FirstSepAfter(a: string, sep: string)
  {
    Find(a + sep, sep) == |a|
  }

  /** A character test for `FirstSepAfter`, keyed on the `m`-th character of `sep` as in `SplitFirstPast`. */
  lemma FirstSepAfterByChar(a: string, sep: string, m: nat)
    requires m < |sep| && sep[m] !in a && sep[m] !in sep[..m]
    ensures FirstSepAfter(a, sep)
  {
    assert a + sep + [] == a + sep;
    SplitFirstPast(a, sep, [], m);
  }

  /** `s.split(sep, 1)[-1]` of a text that starts with `sep`. */
  lemma AfterLeadingSep(sep: string, b: string)
    requires |sep| > 0
    ensures AfterFirst(sep + b, sep) == b
  {
    assert [] + sep + b == sep + b;
    SplitFirstAt([], sep, b);
  }

  /** `p` is not in `s` when some character of `p` is not in `s`. */
  lemma NotContainedByChar(s: string, p: string, m: nat)
    requires m < |p| && p[m] !in s
    ensures !Contains(s, p)
  {
    FindFirst(s, p);
  }

  /** `s.split(sep, n)` of `a + sep + b` when no `sep` starts inside `a`: `a` is the first piece. */
  lemma SplitNFirst(a: string, sep: string, b: string, n: nat)
    requires |sep| > 0 && n > 0 && FirstSepAfter(a, sep)
    ensures SplitN(a + sep + b, sep, n) == [a] + SplitN(b, sep, n - 1)
  {
    var s := a + sep + b;
    FindFirst(a + sep, sep);
    forall i: nat | i < |a|
      ensures !OccursAt(s, sep, i)
    {
      assert !OccursAt(a + sep, sep, i);
      assert s[i..i + |sep|] == (a + sep)[i..i + |sep|];
    }
    SplitFirstAt(a, sep, b);
    SplitStep(s, sep, n);
  }

  /** The piece before the first `sep` is one that no `sep` starts inside. */
  lemma BeforeFirstIsFirst(s: string, sep: string)
    requires |sep| > 0 && Contains(s, sep)
    ensures FirstSepAfter(BeforeFirst(s, sep), sep)
  {
    var i := Find(s, sep);
    FindFirst(s, sep);
    var t := BeforeFirst(s, sep) + sep;
    assert t == s[..i + |sep|];
    forall k: nat | k < i
      ensures !OccursAt(t, sep, k)
    {
      assert !OccursAt(s, sep, k);
      if k + |sep| <= |t| {
        assert t[k..k + |sep|] == s[k..k + |sep|];
      }
    }
    assert t[i..i + |sep|] == sep;
    FindIs(t, sep, i);
  }

  /** No piece of `parts` contains `sep`. */
  predicate PiecesFree(parts: seq<string>, sep: string)
    requires |sep| > 0
  {
    forall k :: 0 <= k < |parts| ==> !Contains(parts[k], sep)
  }

  /** A piece without `sep` in front of pieces without it. */
  lemma PiecesFreeCons(b: string, ps: seq<string>, sep: string)
    requires |sep| > 0 && !Contains(b, sep) && PiecesFree(ps, sep)
    ensures PiecesFree([b] + ps, sep)
  {
    assert forall k :: 1 <= k < |ps| + 1 ==> ([b] + ps)[k] == ps[k - 1];
  }

  /** No piece of `s.split(sep)` contains `sep`. */
  lemma {:induction false} SplitAllPiecesFree(s: string, sep: string)
    requires |sep| > 0
    ensures PiecesFree(SplitAll(s, sep), sep)
    decreases |s|, 1
  {
    if Contains(s, sep) {
      SplitAllPiecesFreeStep(s, sep);
    } else {
      SplitNone(s, sep, 0);
    }
  }

  /** The inductive step of `SplitAllPiecesFree`, past the first separator. */
  lemma {:induction false} SplitAllPiecesFreeStep(s: string, sep: string)
    requires |sep| > 0 && Contains(s, sep)
    ensures PiecesFree(SplitAll(s, sep), sep)
    decreases |s|, 0
  {
    var rest := AfterFirst(s, sep);
    SplitAllPiecesFree(rest, sep);
    SplitStep(s, sep, 0);
    BeforeFirstFree(s, sep);
    PiecesFreeCons(BeforeFirst(s, sep), SplitAll(rest, sep), sep);
  }

  /** `sep.join(parts)`. */
  function Join(parts: seq<string>, sep: string): string
  {
    if |parts| == 0 then ""
    else if |parts| == 1 then parts[0]
    else parts[0] + sep + Join(parts[1..], sep)
  }

  /** Splitting and re-joining gives back the original text. */
  lemma {:induction false} JoinSplitAll(s: string, sep: string)
    requires |sep| > 0
    ensures Join(SplitAll(s, sep), sep) == s
    decreases |s|, 1
  {
    if Contains(s, sep) {
      JoinSplitAllStep(s, sep);
    } else {
      SplitNone(s, sep, 0);
    }
  }

  /** The inductive step of `JoinSplitAll`, past the first separator. */
  lemma {:induction false} JoinSplitAllStep(s: string, sep: string)
    requires |sep| > 0 && Contains(s, sep)
    ensures Join(SplitAll(s, sep), sep) == s
    decreases |s|, 0
  {
    var rest := AfterFirst(s, sep);
    JoinSplitAll(rest, sep);
    SplitStep(s, sep, 0);
    SplitFirstJoin(s, sep);
    var ps := SplitAll(rest, sep);
    assert ([BeforeFirst(s, sep)] + ps)[1..] == ps;
  }

  /** The smaller of two numbers. */
  function Min(a: nat, b: nat): (m: nat)
    ensures m <= a && m <= b && (m == a || m == b)
  {
    if a <= b then a else b
  }

  /** `s.split(sep, n)` yields the full `n + 1` pieces exactly when `s.split(sep)` has at least that many. */
  lemma SplitNCount(s: string, sep: string, n: nat)
    requires |sep| > 0
    ensures |SplitN(s, sep, n)| == n + 1 <==> |SplitAll(s, sep)| >= n + 1
  {
    SplitNLength(s, sep, n);
  }

  /** `s.split(sep, n)` has as many pieces as `s.split(sep)`, but at most `n + 1`. */
  lemma {:induction false} SplitNLength(s: string, sep: string, n: nat)
    requires |sep| > 0
    ensures |SplitN(s, sep, n)| == Min(|SplitAll(s, sep)|, n + 1)
    decreases n, 1
  {
    if n > 0 && Contains(s, sep) {
      SplitNLengthStep(s, sep, n);
    } else if n == 0 {
      assert SplitN(s, sep, 0) == [s];
    } else {
      SplitNone(s, sep, n);
    }
  }

  /** The inductive step of `SplitNLength`, past the first separator. */
  lemma {:induction false} SplitNLengthStep(s: string, sep: string, n: nat)
    requires |sep| > 0 && n > 0 && Contains(s, sep)
    ensures |SplitN(s, sep, n)| == Min(|SplitAll(s, sep)|, n + 1)
    decreases n, 0
  {
    SplitNLength(AfterFirst(s, sep), sep, n - 1);
    SplitCountStep(s, sep, n);
  }

  /** `s.split(sep)[-1]`: the text after the last `sep`. */
  function AfterLast(s: string, sep: string): (r: string)
    requires |sep| > 0
    decreases |s|
  {
    if Contains(s, sep) then AfterLast(AfterFirst(s, sep), sep) else s
  }

  /** The piece after the last separator holds no separator. */
  lemma {:induction false} AfterLastFree(s: string, sep: string)
    requires |sep| > 0
    ensures !Contains(AfterLast(s, sep), sep)
    decreases |s|
  {
    if Contains(s, sep) {
      AfterLastFree(AfterFirst(s, sep), sep);
    }
  }

  /** Cutting `a + sep + b` at its first one-character separator leaves `b` or a shorter `a`. */
  lemma CutAtChar(a: string, sep: string, b: string) returns (i: nat)
    requires |sep| == 1
    ensures Contains(a + sep + b, sep) && i == Find(a + sep + b, sep) && i <= |a|
    ensures i == |a| ==> AfterFirst(a + sep + b, sep) == b
    ensures i < |a| ==> AfterFirst(a + sep + b, sep) == a[i + 1..] + sep + b
  {
    var s := a + sep + b;
    assert OccursAt(s, sep, |a|) by { assert s[|a|..|a| + 1] == sep; }
    ContainsAt(s, sep, |a|);
    i := Find(s, sep);
    assert s[i + 1..] == AfterFirst(s, sep);
    if i < |a| {
      assert s[i + 1..] == a[i + 1..] + sep + b;
    }
  }

  /** For a one-character separator, the piece after the last one is whatever follows it. */
  lemma {:induction false} AfterLastChar(a: string, sep: string, b: string)
    requires |sep| == 1 && sep[0] !in b
    ensures AfterLast(a + sep + b, sep) == b
    decreases |a|
  {
    var s := a + sep + b;
    var i := CutAtChar(a, sep, b);
    if i == |a| {
      NotContainsByChar(b, sep, 0);
    } else {
      AfterLastChar(a[i + 1..], sep, b);
    }
  }

  /** Text without a one-character separator is its own last piece. */
  lemma AfterLastNone(s: string, sep: string)
    requires |sep| == 1 && sep[0] !in s
    ensures AfterLast(s, sep) == s
  {
    NotContainsByChar(s, sep, 0);
  }

  predicate NoSpace(s: string)
  {
    forall i :: 0 <= i < |s| ==> !IsSpace(s[i])
  }

  /** The longest prefix of `s` that holds no whitespace. */
  function Token(s: string): (w: string)
    ensures |w| <= |s| && NoSpace(w)
    ensures |s| > 0 && !IsSpace(s[0]) ==> |w| > 0
  {
    if |s| == 0 || IsSpace(s[0]) then "" else [s[0]] + Token(s[1..])
  }

  /** `Token` stops exactly at the first whitespace character. */
  lemma {:induction false} TokenOf(w: string, rest: string)
    requires NoSpace(w) && (rest == [] || IsSpace(rest[0]))
    ensures Token(w + rest) == w
    decreases |w|
  {
    if |w| > 0 {
      assert (w + rest)[1..] == w[1..] + rest;
      TokenOf(w[1..], rest);
    } else {
      assert w + rest == rest;
    }
  }

  /** `s.lstrip()`. */
  function TrimStart(s: string): (r: string)
    ensures |r| <= |s|
    ensures r == [] || !IsSpace(r[0])
  {
    if |s| > 0 && IsSpace(s[0]) then TrimStart(s[1..]) else s
  }

  /** `s.lstrip()` removes a prefix of whitespace and keeps the rest. */
  lemma {:induction false} TrimStartDrops(s: string)
    ensures TrimStart(s) == s[|s| - |TrimStart(s)|..]
    ensures forall i :: 0 <= i < |s| - |TrimStart(s)| ==> IsSpace(s[i])
    decreases |s|
  {
    if |s| > 0 && IsSpace(s[0]) {
      TrimStartDrops(s[1..]);
    }
  }

  /** `s.rstrip()`. */
  function TrimEnd(s: string): (r: string)
    ensures |r| <= |s|
    ensures r == [] || !IsSpace(r[|r| - 1])
  {
    if |s| > 0 && IsSpace(s[|s| - 1]) then TrimEnd(s[..|s| - 1]) else s
  }

  /** `s.rstrip()` removes a suffix of whitespace and keeps the rest. */
  lemma {:induction false} TrimEndDrops(s: string)
    ensures TrimEnd(s) == s[..|TrimEnd(s)|]
    ensures forall i :: |TrimEnd(s)| <= i < |s| ==> IsSpace(s[i])
    decreases |s|
  {
    if |s| > 0 && IsSpace(s[|s| - 1]) {
      TrimEndDrops(s[..|s| - 1]);
    }
  }

  /** Whitespace appended after a non-space character is all that `rstrip()` removes. */
  lemma {:induction false} TrimEndKeeps(s: string, t: string)
    requires |s| > 0 && !IsSpace(s[|s| - 1])
    ensures s <= TrimEnd(s + t)
    ensures (forall i :: 0 <= i < |t| ==> IsSpace(t[i])) ==> TrimEnd(s + t) == s
    decreases |t|
  {
    if |t| > 0 && IsSpace(t[|t| - 1]) {
      assert (s + t)[..|s + t| - 1] == s + t[..|t| - 1];
      TrimEndKeeps(s, t[..|t| - 1]);
    } else if |t| == 0 {
      assert s + t == s;
    }
  }

  /** `rstrip()` of `u + t` strips within `t` when `t` holds a non-space, and strips `u` when it does not. */
  lemma {:induction false} TrimEndConcat(u: string, t: string)
    ensures TrimEnd(t) != [] ==> TrimEnd(u + t) == u + TrimEnd(t)
    ensures TrimEnd(t) == [] ==> TrimEnd(u + t) == TrimEnd(u)
    decreases |t|
  {
    if |t| == 0 {
      assert u + t == u;
    } else if IsSpace(t[|t| - 1]) {
      assert (u + t)[..|u + t| - 1] == u + t[..|t| - 1];
      TrimEndConcat(u, t[..|t| - 1]);
    }
  }

  /** A trailing newline is whitespace to `rstrip()`. */
  lemma TrimEndNewline(x: string)
    ensures TrimEnd(x + "\n") == TrimEnd(x)
  {
    assert (x + "\n")[..|x|] == x;
  }

  /** A lone space strips to nothing. */
  lemma TrimEndSpace()
    ensures TrimEnd(" ") == []
  {
    assert " "[..0] == [];
  }

  /** `strip()` of text that starts with a non-space head ending in a non-space strips only what follows it. */
  lemma StripAfterHead(h: string, t: string)
    requires |h| > 0 && !IsSpace(h[0]) && !IsSpace(h[|h| - 1])
    ensures Strip(h + t) == h + TrimEnd(t)
  {
    assert (h + t)[0] == h[0];
    assert TrimStart(h + t) == h + t;
    TrimEndConcat(h, t);
    if TrimEnd(t) == [] {
      assert h + TrimEnd(t) == h;
    }
  }

  /** `s.strip()`. */
  function Strip(s: string): (r: string)
    ensures r == [] || (!IsSpace(r[0]) && !IsSpace(r[|r| - 1]))
  {
    var t := TrimStart(s);
    TrimEndDrops(t);
    TrimEnd(t)
  }

  /** Text with no whitespace at either end is left alone by `strip()`. */
  lemma StripNoop(s: string)
    requires s == [] || (!IsSpace(s[0]) && !IsSpace(s[|s| - 1]))
    ensures Strip(s) == s
  {
  }

  /** `s.split()`: the maximal runs of non-whitespace characters, in order. */
  function Words(s: string): (ws: seq<string>)
    ensures |ws| <= |s|
    decreases |s|
  {
    var t := TrimStart(s);
    if t == [] then []
    else
      var w := Token(t);
      assert |w| > 0;
      [w] + Words(t[|w|..])
  }

  /** Every word of `s.split()` is non-empty and holds no whitespace. */
  lemma {:induction false} WordsShape(s: string)
    ensures forall k :: 0 <= k < |Words(s)| ==> |Words(s)[k]| > 0 && NoSpace(Words(s)[k])
    decreases |s|
  {
    var t := TrimStart(s);
    if t != [] {
      var w := Token(t);
      var rest := t[|w|..];
      WordsShape(rest);
      var ws := Words(rest);
      assert Words(s) == [w] + ws;
      forall k | 0 <= k < |Words(s)|
        ensures |Words(s)[k]| > 0 && NoSpace(Words(s)[k])
      {
        if k > 0 {
          assert Words(s)[k] == ws[k - 1];
        }
      }
    }
  }

  /** A word followed by whitespace is the first item of `split()`. */
  lemma WordsCons(w: string, c: char, rest: string)
    requires |w| > 0 && NoSpace(w) && IsSpace(c)
    ensures Words(w + [c] + rest) == [w] + Words(rest)
  {
    var s := w + [c] + rest;
    assert s == w + ([c] + rest);
    TokenOf(w, [c] + rest);
    assert s[|w|..] == [c] + rest;
    assert ([c] + rest)[1..] == rest;
  }

  /** A single word is the only item of its own `split()`. */
  lemma WordsSingle(w: string)
    requires |w| > 0 && NoSpace(w)
    ensures Words(w) == [w]
  {
    TokenOf(w, []);
    assert w + [] == w;
  }

  /** `s[:n]`. */
  function Take(s: string, n: nat): (r: string)
    ensures |r| == if |s| <= n then |s| else n
    ensures r == s[..|r|]
  {
    if |s| <= n then s else s[..n]
  }

  /** `s[:n] + "..." if len(s) > n else s`. */
  function Truncate(s: string, n: nat): (r: string)
    ensures |s| <= n ==> r == s
    ensures |s| > n ==> |r| == n + 3 && r[..n] == s[..n] && r[n..] == "..."
  {
    if |s| > n then s[..n] + "..." else s
  }

  /** `xs[-n:]` for a positive `n`: the last `n` items, or all of them. */
  function Tail<T>(xs: seq<T>, n: nat): (r: seq<T>)
    ensures |r| == if |xs| <= n then |xs| else n
    ensures r == xs[|xs| - |r|..]
  {
    if |xs| <= n then xs else xs[|xs| - n..]
  }

  /** No item occurs twice. */
  predicate Distinct<T(==)>(xs: seq<T>)
  {
    forall i, j :: 0 <= i < j < |xs| ==> xs[i] != xs[j]
  }

  /** Concatenation regroups. */
  lemma AppendAssoc<T>(a: seq<T>, b: seq<T>, c: seq<T>)
    ensures (a + b) + c == a + (b + c)
  {
  }

  /** Appending one item and keeping the last `n`: the last `n - 1` old items, then the new one. */
  lemma TailAppend<T>(xs: seq<T>, x: T, n: nat)
    requires n > 0
    ensures Tail(xs + [x], n) == Tail(xs, n - 1) + [x]
  {
    var r := Tail(xs + [x], n);
    assert r[..|r| - 1] == Tail(xs, n - 1);
  }

  /** Trimming before appending keeps the same last `n` items as trimming once after. */
  lemma TailTail<T>(xs: seq<T>, ys: seq<T>, n: nat)
    ensures Tail(Tail(xs, n) + ys, n) == Tail(xs + ys, n)
  {
    if |xs| > n {
      var t := Tail(xs, n);
      var pre := xs[..|xs| - n];
      assert xs + ys == pre + (t + ys);
      TailDropsPrefix(pre, t + ys, n);
    }
  }

  /** Keeping the last `n` items ignores a prefix when at least `n` items follow it. */
  lemma TailDropsPrefix<T>(pre: seq<T>, u: seq<T>, n: nat)
    requires |u| >= n
    ensures Tail(pre + u, n) == Tail(u, n)
  {
    assert (pre + u)[|pre| + |u| - n..] == u[|u| - n..];
  }

  /** The last items of a list without repeats have no repeats. */
  lemma TailDistinct<T>(xs: seq<T>, n: nat)
    requires Distinct(xs)
    ensures Distinct(Tail(xs, n))
  {
    var r := Tail(xs, n);
    var d := |xs| - |r|;
    forall i, j | 0 <= i < j < |r|
      ensures r[i] != r[j]
    {
      assert r[i] == xs[d + i] && r[j] == xs[d + j];
    }
  }

  /** `s[1:-1]`: drop the first and the last character. */
  function DropEnds(s: string): (r: string)
    ensures |s| >= 2 ==> |r| == |s| - 2 && s == [s[0]] + r + [s[|s| - 1]]
    ensures |s| < 2 ==> r == ""
  {
    if |s| < 2 then "" else s[1..|s| - 1]
  }

  function LowerChar(c: char): char
  {
    if 'A' <= c <= 'Z' then (c as int + 32) as char else c
  }

  /** `s.lower()` restricted to ASCII letters. */
  function LowerAscii(s: string): (r: string)
    ensures |r| == |s|
    ensures forall i :: 0 <= i < |s| ==> r[i] == LowerChar(s[i])
  {
    if |s| == 0 then "" else [LowerChar(s[0])] + LowerAscii(s[1..])
  }

  /** `s.isdigit()` for ASCII text: non-empty and all digits. */
  predicate IsDecimal(s: string)
  {
    |s| > 0 && AllDigits(s)
  }

  function DigitChar(d: nat): (c: char)
    requires d < 10
    ensures IsDigit(c) && (c as int) - ('0' as int) == d
  {
    (('0' as int) + d) as char
  }

  /** `str(n)` for a natural number: decimal digits, no leading zero. */
  function NatToString(n: nat): (s: string)
    ensures IsDecimal(s)
    ensures |s| > 1 ==> s[0] != '0'
    decreases n
  {
    if n < 10 then [DigitChar(n)] else NatToString(n / 10) + [DigitChar(n % 10)]
  }

  /** `int(s)` for a string of ASCII digits (leading zeros allowed). */
  function DecimalValue(s: string): nat
    requires AllDigits(s)
    decreases |s|
  {
    if |s| == 0 then 0
    else DecimalValue(s[..|s| - 1]) * 10 + ((s[|s| - 1] as int) - ('0' as int))
  }

  /** `int(str(n)) == n`. */
  lemma {:induction false} DecimalOfNatToString(n: nat)
    ensures DecimalValue(NatToString(n)) == n
    decreases n
  {
    var s := NatToString(n);
    if n >= 10 {
      DecimalOfNatToString(n / 10);
      assert s[..|s| - 1] == NatToString(n / 10);
    }
  }

  /** Different numbers have different decimal renderings. */
  lemma NatToStringInjective(m: nat, n: nat)
    requires NatToString(m) == NatToString(n)
    ensures m == n
  {
    DecimalOfNatToString(m);
    DecimalOfNatToString(n);
  }
}
