/**
 * The few functions of Go's `strings` package the library relies on,
 * with Go's exact semantics for a one-character separator, and the
 * characterisations the rest of the model uses.
 */
module GoStrings {
  import opened Wrappers

  /** Index of the first `c` in `s` (strings.IndexByte), None when there is none. */
  function Find(s: string, c: char): (r: Option<nat>)
    ensures r.None? <==> c !in s
    ensures r.Some? ==> r.value < |s| && s[r.value] == c && c !in s[..r.value]
    decreases |s|
  {
    if s == [] then None
    else if s[0] == c then Some(0)
    else match Find(s[1..], c)
      case None => None
      case Some(i) =>
        assert s[..i + 1] == [s[0]] + s[1..][..i];
        Some(i + 1)
  }

  /** The text of `s` before its first `c`; all of `s` when it has none. */
  function Before(s: string, c: char): (r: string)
    ensures c !in r && r <= s
    ensures |r| < |s| ==> s[|r|] == c
  {
    match Find(s, c)
    case None => s
    case Some(i) => s[..i]
  }

  /** The text of `s` after its first `c`; empty when it has none. */
  function After(s: string, c: char): (r: string)
    ensures c in s ==> s == Before(s, c) + [c] + r
  {
    match Find(s, c)
    case None => ""
    case Some(i) =>
      assert s == s[..i] + [c] + s[i + 1..];
      s[i + 1..]
  }

  /**
   * strings.Split(s, string(c)): the pieces of `s` between successive
   * occurrences of `c`. There is always at least one piece, a piece never
   * contains `c`, the first piece is the text before the first `c` and the
   * second the text between the first and the second `c`.
   */
  function Split(s: string, c: char): (r: seq<string>)
    ensures |r| >= 1
    ensures forall i :: 0 <= i < |r| ==> c !in r[i]
    ensures |r| >= 2 <==> c in s
    decreases |s|
  {
    match Find(s, c)
    case None => [s]
    case Some(i) => [s[..i]] + Split(s[i + 1..], c)
  }

  /** The first two pieces of a split (Go's `values[0]` and `values[1]`). */
  lemma SplitFront(s: string, c: char)
    ensures Split(s, c)[0] == Before(s, c)
    ensures |Split(s, c)| >= 2 ==> Split(s, c)[1] == Before(After(s, c), c)
  {
    match Find(s, c)
    case None =>
    case Some(i) =>
      var rest := s[i + 1..];
      assert Split(s, c) == [s[..i]] + Split(rest, c);
      SplitFront(rest, c);
  }

  /** strings.Join(ps, string(c)). */
  function Join(ps: seq<string>, c: char): string
    decreases |ps|
  {
    if |ps| == 0 then ""
    else if |ps| == 1 then ps[0]
    else ps[0] + [c] + Join(ps[1..], c)
  }

  /** Every piece followed by `c`: the text a writer of `c`-terminated lines produces. */
  function Terminated(ps: seq<string>, c: char): string
    decreases |ps|
  {
    if ps == [] then "" else ps[0] + [c] + Terminated(ps[1..], c)
  }

  /** Splitting and joining again gives back the original text. */
  lemma {:induction false} SplitJoin(s: string, c: char)
    ensures Join(Split(s, c), c) == s
    decreases |s|
  {
    match Find(s, c)
    case None =>
    case Some(i) =>
      var rest := s[i + 1..];
      SplitJoin(rest, c);
      assert Split(s, c) == [s[..i]] + Split(rest, c);
      assert s == s[..i] + [c] + rest;
  }

  /** In `a + [c] + b` with no `c` in `a`, the first `c` is the one after `a`. */
  lemma FindAfter(a: string, c: char, b: string)
    requires c !in a
    ensures Find(a + [c] + b, c) == Some(|a|)
  {
    var s := a + [c] + b;
    assert s[|a|] == c;
  }

  /** Joining pieces that do not contain the separator and splitting again gives the pieces back. */
  lemma {:induction false} JoinSplit(ps: seq<string>, c: char)
    requires |ps| >= 1
    requires forall i :: 0 <= i < |ps| ==> c !in ps[i]
    ensures Split(Join(ps, c), c) == ps
    decreases |ps|
  {
    if |ps| > 1 {
      var tail := Join(ps[1..], c);
      var s := Join(ps, c);
      assert s == ps[0] + [c] + tail;
      FindAfter(ps[0], c, tail);
      assert s[..|ps[0]|] == ps[0];
      assert s[|ps[0]| + 1..] == tail;
      assert Split(s, c) == [ps[0]] + Split(tail, c);
      JoinSplit(ps[1..], c);
      assert ps == [ps[0]] + ps[1..];
    }
  }

  lemma {:induction false} TerminatedIsJoin(ps: seq<string>, c: char)
    ensures Terminated(ps, c) == Join(ps + [""], c)
    decreases |ps|
  {
    if ps != [] {
      TerminatedIsJoin(ps[1..], c);
      assert (ps + [""])[1..] == ps[1..] + [""];
    }
  }

  /** Splitting `c`-terminated lines gives the lines and one empty piece after the last `c`. */
  lemma SplitTerminated(ps: seq<string>, c: char)
    requires forall i :: 0 <= i < |ps| ==> c !in ps[i]
    ensures Split(Terminated(ps, c), c) == ps + [""]
  {
    TerminatedIsJoin(ps, c);
    JoinSplit(ps + [""], c);
  }

  /** `sub` occurs in `s` starting at index `i`. */
  predicate OccursAt(s: string, sub: string, i: int) {
    0 <= i && i + |sub| <= |s| && s[i..i + |sub|] == sub
  }

  /** strings.Contains(s, sub): `sub` occurs somewhere in `s`. */
  predicate Contains(s: string, sub: string) {
    exists i | 0 <= i <= |s| - |sub| :: OccursAt(s, sub, i)
  }

  /** Length of the run of characters satisfying `sp` at the start of `s`. */
  function LeadingRun(s: string, sp: char -> bool): (n: nat)
    ensures n <= |s|
    ensures forall k :: 0 <= k < n ==> sp(s[k])
    ensures n < |s| ==> !sp(s[n])
    decreases |s|
  {
    if s == [] || !sp(s[0]) then 0 else 1 + LeadingRun(s[1..], sp)
  }

  /** Where the run of characters satisfying `sp` at the end of `s` begins. */
  function TrailingRun(s: string, sp: char -> bool): (n: nat)
    ensures n <= |s|
    ensures forall k :: n <= k < |s| ==> sp(s[k])
    ensures n > 0 ==> !sp(s[n - 1])
    decreases |s|
  {
    if s == [] || !sp(s[|s| - 1]) then |s| else TrailingRun(s[..|s| - 1], sp)
  }

  /**
   * `s` without its leading and trailing characters satisfying `sp`
   * (strings.TrimFunc): what is left is the slice of `s` that starts after
   * the leading run, everything after it satisfies `sp`, and it neither
   * starts nor ends with such a character.
   */
  function Trim(s: string, sp: char -> bool): (r: string)
    ensures LeadingRun(s, sp) + |r| <= |s|
    ensures r == s[LeadingRun(s, sp)..LeadingRun(s, sp) + |r|]
    ensures forall k :: LeadingRun(s, sp) + |r| <= k < |s| ==> sp(s[k])
    ensures r != [] ==> !sp(r[0]) && !sp(r[|r| - 1])
  {
    var i := LeadingRun(s, sp);
    var j := TrailingRun(s, sp);
    if i < j then s[i..j] else []
  }

  /** unicode.IsSpace: the white space strings.TrimSpace removes. */
  predicate IsSpace(c: char) {
    c == '\t' || c == '\n' || c == '\U{B}' || c == '\U{C}' || c == '\r' || c == ' '
    || c == '\U{85}' || c == '\U{A0}' || c == '\U{1680}'
    || ('\U{2000}' <= c <= '\U{200A}')
    || c == '\U{2028}' || c == '\U{2029}' || c == '\U{202F}' || c == '\U{205F}' || c == '\U{3000}'
  }

  /** strings.TrimSpace. */
  function TrimSpace(s: string): string {
    Trim(s, IsSpace)
  }

  /** A slice of a slice is a slice of the whole. */
  lemma SliceOfSlice(s: string, i: nat, j: nat, k: nat, n: nat)
    requires i <= j <= |s| && k + n <= j - i
    ensures s[i..j][k..k + n] == s[i + k..i + k + n]
  {
    var inner, outer := s[i..j][k..k + n], s[i + k..i + k + n];
    assert forall m :: 0 <= m < n ==> inner[m] == outer[m];
  }

  /**
   * Trimming never changes whether a pattern that neither starts nor ends
   * with a trimmed character occurs: such an occurrence cannot overlap the
   * trimmed runs.
   */
  lemma TrimKeepsContains(s: string, sub: string, sp: char -> bool)
    requires |sub| > 0 && !sp(sub[0]) && !sp(sub[|sub| - 1])
    ensures Contains(Trim(s, sp), sub) <==> Contains(s, sub)
  {
    var t := Trim(s, sp);
    if Contains(t, sub) {
      var k :| 0 <= k <= |t| - |sub| && OccursAt(t, sub, k);
      OccurrenceFromTrim(s, sub, sp, k);
    }
    if Contains(s, sub) {
      var k :| 0 <= k <= |s| - |sub| && OccursAt(s, sub, k);
      OccurrenceInTrim(s, sub, sp, k);
    }
  }

  /** An occurrence in the trimmed text is one in the whole, shifted by the leading run. */
  lemma OccurrenceFromTrim(s: string, sub: string, sp: char -> bool, k: nat)
    requires OccursAt(Trim(s, sp), sub, k)
    ensures OccursAt(s, sub, LeadingRun(s, sp) + k)
  {
    var t, i := Trim(s, sp), LeadingRun(s, sp);
    OccursInSlice(s, i, i + |t|, sub, k);
  }

  /** An occurrence that neither starts nor ends in a trimmed run lies inside the trimmed text. */
  lemma OccurrenceInTrim(s: string, sub: string, sp: char -> bool, k: nat)
    requires |sub| > 0 && !sp(sub[0]) && !sp(sub[|sub| - 1])
    requires OccursAt(s, sub, k)
    ensures LeadingRun(s, sp) <= k && OccursAt(Trim(s, sp), sub, k - LeadingRun(s, sp))
  {
    var t, i := Trim(s, sp), LeadingRun(s, sp);
    assert s[k] == sub[0] && s[k + |sub| - 1] == sub[|sub| - 1];
    KeptByTrim(s, sp, k);
    KeptByTrim(s, sp, k + |sub| - 1);
    SliceOccurs(s, i, i + |t|, sub, k);
  }

  /** A character that is not trimmed lies within the trimmed text. */
  lemma KeptByTrim(s: string, sp: char -> bool, k: nat)
    requires k < |s| && !sp(s[k])
    ensures LeadingRun(s, sp) <= k < LeadingRun(s, sp) + |Trim(s, sp)|
  {
  }

  /** An occurrence in a slice is an occurrence in the whole. */
  lemma OccursInSlice(s: string, i: nat, j: nat, sub: string, k: nat)
    requires i <= j <= |s| && OccursAt(s[i..j], sub, k)
    ensures OccursAt(s, sub, i + k)
  {
    SliceOfSlice(s, i, j, k, |sub|);
  }

  /** An occurrence that lies within a slice is an occurrence in the slice. */
  lemma SliceOccurs(s: string, i: nat, j: nat, sub: string, k: nat)
    requires i <= k && k + |sub| <= j <= |s| && OccursAt(s, sub, k)
    ensures OccursAt(s[i..j], sub, k - i)
  {
    SliceOfSlice(s, i, j, k - i, |sub|);
  }

  /** A leading run that ends where `pre` ends. */
  lemma {:induction false} LeadingRunOf(pre: string, rest: string, sp: char -> bool)
    requires forall k :: 0 <= k < |pre| ==> sp(pre[k])
    requires rest != [] && !sp(rest[0])
    ensures LeadingRun(pre + rest, sp) == |pre|
    decreases |pre|
  {
    if pre == [] {
      assert pre + rest == rest;
    } else {
      assert (pre + rest)[1..] == pre[1..] + rest;
      LeadingRunOf(pre[1..], rest, sp);
    }
  }

  /** A trailing run that starts where `post` starts. */
  lemma {:induction false} TrailingRunOf(rest: string, post: string, sp: char -> bool)
    requires forall k :: 0 <= k < |post| ==> sp(post[k])
    requires rest != [] && !sp(rest[|rest| - 1])
    ensures TrailingRun(rest + post, sp) == |rest|
    decreases |post|
  {
    if post == [] {
      assert rest + post == rest;
    } else {
      var shorter := post[..|post| - 1];
      assert (rest + post)[..|rest + post| - 1] == rest + shorter;
      TrailingRunOf(rest, shorter, sp);
    }
  }

  /** Trimming removes exactly the runs around a text that neither starts nor ends with a trimmed character. */
  lemma TrimAround(pre: string, v: string, post: string, sp: char -> bool)
    requires forall k :: 0 <= k < |pre| ==> sp(pre[k])
    requires forall k :: 0 <= k < |post| ==> sp(post[k])
    requires v != [] ==> !sp(v[0]) && !sp(v[|v| - 1])
    ensures Trim(pre + v + post, sp) == v
  {
    var s := pre + v + post;
    if v == [] {
      assert s == pre + post;
      assert forall k :: 0 <= k < |s| ==> sp(s[k]);
    } else {
      assert s == pre + (v + post);
      LeadingRunOf(pre, v + post, sp);
      assert s == (pre + v) + post;
      TrailingRunOf(pre + v, post, sp);
      assert s[|pre|..|pre| + |v|] == v;
    }
  }
}
