/**
 * The Python `str` operations the core relies on: `str.split()` with no
 * separator, `str.lower()`, `str.startswith` and `str.replace(old, new, 1)`.
 */
module Text {

  // ---------------------------------------------------------------------
  // Whitespace and str.split()
  // ---------------------------------------------------------------------

  /** `str.isspace()` of one character: the code points Python treats as whitespace. */
  predicate IsSpace(c: char)
    ensures c == ' ' || c == '\t' || c == '\n' || c == '\r' ==> IsSpace(c)
    ensures 'a' <= c <= 'z' || 'A' <= c <= 'Z' || '0' <= c <= '9' ==> !IsSpace(c)
  {
    var n := c as int;
    || n == 0x20
    || 0x09 <= n <= 0x0D
    || 0x1C <= n <= 0x1F
    || n == 0x85
    || n == 0xA0
    || n == 0x1680
    || 0x2000 <= n <= 0x200A
    || n == 0x2028
    || n == 0x2029
    || n == 0x202F
    || n == 0x205F
    || n == 0x3000
  }

  /** Every character of `s` is whitespace (the empty string included). */
  predicate AllSpace(s: string) {
    forall i :: 0 <= i < |s| ==> IsSpace(s[i])
  }

  /** A non-empty run of non-whitespace characters: what `split()` can return as one part. */
  predicate IsWord(s: string) {
    s != [] && forall i :: 0 <= i < |s| ==> !IsSpace(s[i])
  }

  /** The length of the whitespace run `s` starts with. */
  function LeadingSpace(s: string): (n: nat)
    ensures n <= |s|
    ensures AllSpace(s[..n])
    ensures n < |s| ==> !IsSpace(s[n])
  {
    if s == [] || !IsSpace(s[0]) then 0
    else
      var m := LeadingSpace(s[1..]);
      assert s[..1 + m] == [s[0]] + s[1..][..m];
      1 + m
  }

  /** The length of the non-whitespace run `s` starts with. */
  function WordLength(s: string): (n: nat)
    ensures n <= |s|
    ensures forall i :: 0 <= i < n ==> !IsSpace(s[i])
    ensures n < |s| ==> IsSpace(s[n])
  {
    if s == [] || IsSpace(s[0]) then 0 else 1 + WordLength(s[1..])
  }

  /**
   * `s.split()`: the maximal runs of non-whitespace characters, in order.
   * Leading, trailing and repeated whitespace produce no empty parts.
   */
  function Split(s: string): (words: seq<string>)
    ensures forall k :: 0 <= k < |words| ==> IsWord(words[k])
    decreases |s|
  {
    var i := LeadingSpace(s);
    if i == |s| then []
    else
      var j := i + WordLength(s[i..]);
      [s[i..j]] + Split(s[j..])
  }

  /**
   * The whitespace runs that `Split` discards: the one before the first
   * part, the ones between parts and the one after the last part.
   */
  function Gaps(s: string): (gaps: seq<string>)
    ensures |gaps| == |Split(s)| + 1
    ensures gaps[0] == s[..LeadingSpace(s)]
    decreases |s|
  {
    var i := LeadingSpace(s);
    if i == |s| then [s]
    else
      var j := i + WordLength(s[i..]);
      [s[..i]] + Gaps(s[j..])
  }

  /** `gaps[0] + words[0] + gaps[1] + ... + words[n-1] + gaps[n]`. */
  function Interleave(gaps: seq<string>, words: seq<string>): string
    requires |gaps| == |words| + 1
    decreases |words|
  {
    if words == [] then gaps[0]
    else gaps[0] + words[0] + Interleave(gaps[1..], words[1..])
  }

  /** Gaps a string can be cut into: all whitespace, and non-empty between two parts. */
  predicate WellSpaced(gaps: seq<string>) {
    && (forall k :: 0 <= k < |gaps| ==> AllSpace(gaps[k]))
    && (forall k :: 0 < k < |gaps| - 1 ==> gaps[k] != [])
  }

  lemma LeadingSpaceOf(s: string, n: nat)
    requires n <= |s| && AllSpace(s[..n]) && (n < |s| ==> !IsSpace(s[n]))
    ensures LeadingSpace(s) == n
  {
    var m := LeadingSpace(s);
    assert forall i :: 0 <= i < n ==> s[..n][i] == s[i];
    assert forall i :: 0 <= i < m ==> s[..m][i] == s[i];
  }

  lemma WordLengthOf(s: string, n: nat)
    requires n <= |s| && (forall i :: 0 <= i < n ==> !IsSpace(s[i])) && (n < |s| ==> IsSpace(s[n]))
    ensures WordLength(s) == n
  {
  }

  /** Whitespace alone splits into nothing. */
  lemma SplitAllSpace(g: string)
    requires AllSpace(g)
    ensures Split(g) == [] && Gaps(g) == [g]
  {
    assert g[..|g|] == g;
    LeadingSpaceOf(g, |g|);
  }

  /** Whitespace followed by a non-whitespace character: the leading run is exactly that whitespace. */
  lemma LeadingSpaceBeforeWord(g: string, t: string)
    requires AllSpace(g) && t != [] && !IsSpace(t[0])
    ensures LeadingSpace(g + t) == |g|
  {
    var s := g + t;
    assert s[..|g|] == g;
    assert s[|g|] == t[0];
    LeadingSpaceOf(s, |g|);
  }

  /** A word followed by whitespace (or the end): the leading non-whitespace run is exactly that word. */
  lemma WordLengthBeforeSpace(w: string, rest: string)
    requires IsWord(w) && (rest == [] || IsSpace(rest[0]))
    ensures WordLength(w + rest) == |w|
  {
    var t := w + rest;
    assert forall i :: 0 <= i < |w| ==> t[i] == w[i];
    if rest != [] {
      assert t[|w|] == rest[0];
    }
    WordLengthOf(t, |w|);
  }

  /** A word preceded by whitespace and followed by whitespace (or the end) is the next part. */
  lemma SplitCons(g: string, w: string, rest: string)
    requires AllSpace(g) && IsWord(w) && (rest == [] || IsSpace(rest[0]))
    ensures Split(g + w + rest) == [w] + Split(rest)
  {
    var s := g + w + rest;
    assert s == g + (w + rest);
    LeadingSpaceBeforeWord(g, w + rest);
    WordLengthBeforeSpace(w, rest);
    assert s[|g|..] == w + rest;
    assert s[|g|..|g| + |w|] == w;
    assert s[|g| + |w|..] == rest;
  }

  /** Two words with whitespace around and between them split into those two words. */
  lemma SplitTwoWords(lead: string, a: string, gap: string, b: string, trail: string)
    requires AllSpace(lead) && IsWord(a) && AllSpace(gap) && gap != [] && IsWord(b) && AllSpace(trail)
    ensures Split(lead + a + gap + b + trail) == [a, b]
  {
    var tail := gap + b + trail;
    Regroup(lead, a, gap, b, trail);
    SplitAllSpace(trail);
    SplitCons(gap, b, trail);
    assert Split(tail) == [b];
    assert tail[0] == gap[0];
    SplitCons(lead, a, tail);
  }

  lemma Regroup(lead: string, a: string, gap: string, b: string, trail: string)
    ensures lead + a + gap + b + trail == lead + a + (gap + b + trail)
  {
  }

  /** Splitting undoes interleaving: `split()` recovers the parts from any well-spaced layout. */
  lemma {:induction false} SplitInterleave(gaps: seq<string>, words: seq<string>)
    requires |gaps| == |words| + 1 && WellSpaced(gaps)
    requires forall k :: 0 <= k < |words| ==> IsWord(words[k])
    ensures Split(Interleave(gaps, words)) == words
    decreases |words|
  {
    if words == [] {
      SplitAllSpace(gaps[0]);
    } else {
      var rest := Interleave(gaps[1..], words[1..]);
      if words[1..] == [] {
        assert rest == gaps[1];
      } else {
        assert gaps[1] != [];
        assert rest == gaps[1] + words[1] + Interleave(gaps[2..], words[2..]);
        assert rest[0] == gaps[1][0];
      }
      assert AllSpace(gaps[1]);
      SplitCons(gaps[0], words[0], rest);
      SplitInterleave(gaps[1..], words[1..]);
    }
  }

  /** One step of `Split`: the first gap, the first part and the rest of the string. */
  lemma SplitStep(s: string) returns (i: nat, j: nat)
    requires LeadingSpace(s) < |s|
    ensures i == LeadingSpace(s) && i < j <= |s|
    ensures s == s[..i] + s[i..j] + s[j..]
    ensures Split(s) == [s[i..j]] + Split(s[j..])
    ensures Gaps(s) == [s[..i]] + Gaps(s[j..])
    ensures j < |s| ==> IsSpace(s[j])
  {
    i := LeadingSpace(s);
    j := i + WordLength(s[i..]);
    assert s == s[..i] + s[i..j] + s[j..];
    if j < |s| {
      assert IsSpace(s[i..][j - i]);
    }
  }

  /** Interleaving undoes splitting: the parts and the gaps put back together give the input. */
  lemma {:induction false} SplitReassembles(s: string)
    ensures WellSpaced(Gaps(s))
    ensures Interleave(Gaps(s), Split(s)) == s
    decreases |s|
  {
    if LeadingSpace(s) == |s| {
      assert s[..|s|] == s;
    } else {
      var i, j := SplitStep(s);
      var t := s[j..];
      SplitReassembles(t);
      if j < |s| {
        assert LeadingSpace(t) > 0;
      }
      WellSpacedCons(s[..i], Gaps(t));
      var g, w := Gaps(s), Split(s);
      assert g[1..] == Gaps(t);
      assert w[1..] == Split(t);
    }
  }

  lemma WellSpacedCons(g: string, gaps: seq<string>)
    requires AllSpace(g) && WellSpaced(gaps) && gaps != []
    requires |gaps| > 1 ==> gaps[0] != []
    ensures WellSpaced([g] + gaps)
  {
    var all := [g] + gaps;
    assert forall k :: 0 < k < |all| ==> all[k] == gaps[k - 1];
  }

  // ---------------------------------------------------------------------
  // str.lower()
  // ---------------------------------------------------------------------

  /** Lower-casing of one character, for the ASCII letters. */
  function LowerChar(c: char): char {
    if 'A' <= c <= 'Z' then (c as int + 32) as char else c
  }

  /** `s.lower()`, restricted to ASCII case mapping. */
  function Lower(s: string): (r: string)
    ensures |r| == |s|
    ensures forall i :: 0 <= i < |s| ==> r[i] == LowerChar(s[i])
  {
    seq(|s|, i requires 0 <= i < |s| => LowerChar(s[i]))
  }

  /**
   * `p.lower() == "bearer"` holds exactly for the six-letter spellings of
   * "bearer" in any mixture of upper and lower case.
   */
  lemma LowerIsBearer(p: string)
    ensures Lower(p) == "bearer" <==>
      |p| == 6 && forall i :: 0 <= i < 6 ==> p[i] == "bearer"[i] || p[i] == "BEARER"[i]
  {
    if |p| == 6 && forall i :: 0 <= i < 6 ==> p[i] == "bearer"[i] || p[i] == "BEARER"[i] {
      assert forall i :: 0 <= i < 6 ==> Lower(p)[i] == "bearer"[i];
    }
    if Lower(p) == "bearer" {
      forall i | 0 <= i < 6
        ensures p[i] == "bearer"[i] || p[i] == "BEARER"[i]
      {
        assert LowerChar(p[i]) == "bearer"[i];
      }
    }
  }

  // ---------------------------------------------------------------------
  // str.startswith and str.replace(old, new, 1)
  // ---------------------------------------------------------------------

  /** `s.startswith(prefix)`. */
  predicate StartsWith(s: string, prefix: string)
    ensures StartsWith(s, prefix) <==> OccursAt(s, prefix, 0)
    ensures StartsWith(s, prefix) ==> s == prefix + s[|prefix|..]
  {
    |prefix| <= |s| && s[..|prefix|] == prefix
  }

  /** `target` occurs in `s` at index `k`. */
  predicate OccursAt(s: string, target: string, k: int) {
    0 <= k && k + |target| <= |s| && s[k..k + |target|] == target
  }

  /** `s.replace(target, replacement, 1)`. */
  function ReplaceFirst(s: string, target: string, replacement: string): (r: string)
    ensures r == s || |r| == |s| - |target| + |replacement|
    decreases |s|
  {
    if StartsWith(s, target) then replacement + s[|target|..]
    else if s == [] then s
    else [s[0]] + ReplaceFirst(s[1..], target, replacement)
  }

  /** `ReplaceFirst` replaces the leftmost occurrence of `target`, and only that one. */
  lemma {:induction false} ReplaceFirstAtLeftmost(s: string, target: string, replacement: string, k: int)
    requires OccursAt(s, target, k)
    requires forall k' :: 0 <= k' < k ==> !OccursAt(s, target, k')
    ensures ReplaceFirst(s, target, replacement) == s[..k] + replacement + s[k + |target|..]
    decreases |s|
  {
    if k == 0 {
      assert StartsWith(s, target);
      assert s[..0] == [];
    } else {
      assert !OccursAt(s, target, 0);
      assert ReplaceFirst(s, target, replacement) == [s[0]] + ReplaceFirst(s[1..], target, replacement);
      ShiftOccurrence(s, target);
      ReplaceFirstAtLeftmost(s[1..], target, replacement, k - 1);
      HeadAndShiftedSlices(s, k, |target|, replacement);
    }
  }

  /** Putting the first character back in front of a replacement made one place further on. */
  lemma HeadAndShiftedSlices(s: string, k: int, n: nat, replacement: string)
    requires 0 < k && k + n <= |s|
    ensures [s[0]] + (s[1..][..k - 1] + replacement + s[1..][k - 1 + n..]) == s[..k] + replacement + s[k + n..]
  {
    assert [s[0]] + s[1..][..k - 1] == s[..k];
    assert s[1..][k - 1 + n..] == s[k + n..];
  }

  /** With no occurrence of `target`, `ReplaceFirst` leaves `s` unchanged. */
  lemma {:induction false} ReplaceFirstWithoutOccurrence(s: string, target: string, replacement: string)
    requires forall k :: !OccursAt(s, target, k)
    ensures ReplaceFirst(s, target, replacement) == s
    decreases |s|
  {
    assert !OccursAt(s, target, 0);
    if s != [] {
      ShiftOccurrence(s, target);
      ReplaceFirstWithoutOccurrence(s[1..], target, replacement);
    }
  }

  /** An occurrence in `s[1..]` is an occurrence in `s`, one place further on. */
  lemma ShiftOccurrence(s: string, target: string)
    requires s != []
    ensures forall k :: 0 <= k ==> (OccursAt(s[1..], target, k) <==> OccursAt(s, target, k + 1))
  {
    forall k | 0 <= k ensures OccursAt(s[1..], target, k) <==> OccursAt(s, target, k + 1) {
      if 0 <= k && k + |target| <= |s| - 1 {
        assert s[1..][k..k + |target|] == s[k + 1..k + 1 + |target|];
      }
    }
  }
}
