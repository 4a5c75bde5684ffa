/**
 * The fixed-shape regular expressions the log filters search for, all of the
 * form `name\[\d+\]post` (a process name, a bracketed pid, a fixed suffix),
 * written as explicit predicates on the line. `\d` is read as an ASCII digit.
 */
module Patterns {
  import opened Text

  /** The end of the run of digits that starts at `j`. */
  function DigitRunEnd(s: string, j: nat): (k: nat)
    requires j <= |s|
    ensures j <= k <= |s|
    ensures forall m :: j <= m < k ==> IsDigit(s[m])
    ensures k == |s| || !IsDigit(s[k])
    decreases |s| - j
  {
    if j < |s| && IsDigit(s[j]) then DigitRunEnd(s, j + 1) else j
  }

  /**
   * `name\[\d+\]post` matches at index `i`. Since `]` is not a digit, the
   * greedy digit run is the only one that can be followed by `]`.
   */
  predicate PidTagAt(s: string, i: nat, name: string, post: string)
  {
    var j := i + |name| + 1;
    j <= |s| && OccursAt(s, name + "[", i) &&
    var k := DigitRunEnd(s, j);
    j < k && OccursAt(s, "]" + post, k)
  }

  /** `re.search(r'name\[\d+\]post', s)` succeeds. */
  predicate HasPidTag(s: string, name: string, post: string)
  {
    exists i: nat :: i <= |s| && PidTagAt(s, i, name, post)
  }

  /** `re.search(r'name(\[\d+\])?post', s)` succeeds: the bracketed pid is optional. */
  predicate HasOptionalPidTag(s: string, name: string, post: string)
  {
    HasPidTag(s, name, post) || Contains(s, name + post)
  }

  /** Any bracketed run of digits after `name` and before `post` matches. */
  lemma PidTagIntro(a: string, name: string, pid: string, post: string, b: string)
    requires IsDecimal(pid)
    ensures PidTagAt(a + name + "[" + pid + "]" + post + b, |a|, name, post)
    ensures HasPidTag(a + name + "[" + pid + "]" + post + b, name, post)
  {
    var s := a + name + "[" + pid + "]" + post + b;
    var j := |a| + |name| + 1;
    assert s[|a|..j] == name + "[";
    assert OccursAt(s, name + "[", |a|);
    forall m | j <= m < j + |pid|
      ensures IsDigit(s[m])
    {
      assert s[m] == pid[m - j];
    }
    assert s[j + |pid|] == ']';
    var k := DigitRunEnd(s, j);
    assert k == j + |pid|;
    assert s[k..k + 1 + |post|] == "]" + post;
    assert OccursAt(s, "]" + post, k);
    assert PidTagAt(s, |a|, name, post);
  }

  /** A match needs both `name[` and `]post` to appear in the line. */
  lemma PidTagParts(s: string, name: string, post: string)
    requires HasPidTag(s, name, post)
    ensures Contains(s, name + "[") && Contains(s, "]" + post)
  {
    var i: nat :| i <= |s| && PidTagAt(s, i, name, post);
    ContainsAt(s, name + "[", i);
    ContainsAt(s, "]" + post, DigitRunEnd(s, i + |name| + 1));
  }

  /** A match of `name` with a leading character is also a match of `name` alone, one place later. */
  lemma PidTagDropLead(s: string, c: char, name: string, post: string)
    requires HasPidTag(s, [c] + name, post)
    ensures HasPidTag(s, name, post)
  {
    var i: nat :| i <= |s| && PidTagAt(s, i, [c] + name, post);
    var j := i + |name| + 2;
    assert |[c] + name| == |name| + 1;
    PidTagAtParts(s, i, [c] + name, post, j);
    assert OccursAt(s, name + "[", i + 1) by {
      assert [c] + name + "[" == [c] + (name + "[");
      OccursAtDropFirst(s, c, name + "[", i);
    }
    PidTagAtIntro(s, i + 1, name, post, j);
  }

  /** The three parts of a match at `i`: `name[`, a non-empty digit run from `j`, and `]post`. */
  lemma PidTagAtParts(s: string, i: nat, name: string, post: string, j: nat)
    requires PidTagAt(s, i, name, post) && j == i + |name| + 1
    ensures j <= |s| && OccursAt(s, name + "[", i)
    ensures j < DigitRunEnd(s, j) && OccursAt(s, "]" + post, DigitRunEnd(s, j))
  {
  }

  /** The three parts together make a match at `i`. */
  lemma PidTagAtIntro(s: string, i: nat, name: string, post: string, j: nat)
    requires j == i + |name| + 1 && j <= |s| && OccursAt(s, name + "[", i)
    requires j < DigitRunEnd(s, j) && OccursAt(s, "]" + post, DigitRunEnd(s, j))
    ensures PidTagAt(s, i, name, post) && HasPidTag(s, name, post)
  {
    assert PidTagAt(s, i, name, post);
  }

  /** `name` directly followed by `post`, with no pid, matches `name(\[\d+\])?post`. */
  lemma OptionalPidTagPlain(a: string, name: string, post: string, b: string)
    ensures HasOptionalPidTag(a + name + post + b, name, post)
  {
    var s := a + name + post + b;
    assert s[|a|..|a| + |name + post|] == name + post;
    ContainsAt(s, name + post, |a|);
  }

  /** A match of `name(\[\d+\])?post` holds `post`. */
  lemma OptionalPidTagParts(s: string, name: string, post: string)
    requires HasOptionalPidTag(s, name, post)
    ensures Contains(s, post)
  {
    if HasPidTag(s, name, post) {
      PidTagParts(s, name, post);
      ContainsWithin(s, "]", post);
    } else {
      ContainsWithin(s, name, post);
    }
  }

  /** An occurrence of `[c] + p` at `i` holds an occurrence of `p` at `i + 1`. */
  lemma OccursAtDropFirst(s: string, c: char, p: string, i: nat)
    requires OccursAt(s, [c] + p, i)
    ensures OccursAt(s, p, i + 1)
  {
    assert s[i + 1..i + 1 + |p|] == s[i..i + 1 + |p|][1..];
  }
}
