/** Searching and ordering of text.

A Go string is a sequence of bytes.  The model writes one `char` per byte, so every
theorem stated here for all strings holds in particular for all byte strings. */
module Text {

  /** `s` is found in `t` at position `i`. */
  predicate OccursAt(t: string, s: string, i: nat) {
    i + |s| <= |t| && forall k :: 0 <= k < |s| ==> s[k] == t[i + k]
  }

  /** The first occurrence of `s` in `t` at or after `from`, or -1: the contract of
      `strings.Index` on `t[from..]`, in coordinates of `t`. */
  function IndexFrom(t: string, s: string, from: nat): (r: int)
    ensures r == -1 || from <= r <= |t| - |s|
    decreases |t| - from
  {
    if from + |s| > |t| then -1
    else if OccursAt(t, s, from) then from
    else if from == |t| then -1
    else IndexFrom(t, s, from + 1)
  }

  lemma {:induction false} IndexIsFirst(t: string, s: string, from: nat)
    ensures
      var r := IndexFrom(t, s, from);
      && (r != -1 ==> OccursAt(t, s, r))
      && forall i: nat :: from <= i && (r != -1 ==> i < r) ==> !OccursAt(t, s, i)
    decreases |t| - from
  {
    if from + |s| <= |t| && !OccursAt(t, s, from) && from < |t| { IndexIsFirst(t, s, from + 1); }
  }

  function Index(t: string, s: string): int {
    IndexFrom(t, s, 0)
  }

  /** The first place of `c` at or after `from`, or -1: the contract of `strings.IndexByte` on
      `t[from..]`, in coordinates of `t`. */
  function IndexByteFrom(t: string, c: char, from: nat): (r: int)
    ensures r == -1 || (from <= r < |t| && t[r] == c)
    decreases |t| - from
  {
    if from >= |t| then -1
    else if t[from] == c then from
    else IndexByteFrom(t, c, from + 1)
  }

  lemma {:induction false} IndexByteIsFirst(t: string, c: char, from: nat)
    ensures
      var r := IndexByteFrom(t, c, from);
      forall k :: from <= k < (if r == -1 then |t| else r) ==> t[k] != c
    decreases |t| - from
  {
    if from < |t| && t[from] != c { IndexByteIsFirst(t, c, from + 1); }
  }

  /** The first `n` characters of `t`, or all of it when it is shorter. */
  function Take(t: string, n: nat): string {
    if |t| <= n then t else t[..n]
  }

  /** Everything in `parts`, one after the other. */
  function Concat(parts: seq<string>): string {
    if parts == [] then "" else Concat(parts[..|parts| - 1]) + parts[|parts| - 1]
  }

  /** An occurrence inside a window of `t` is an occurrence in `t`, and conversely. */
  lemma OccursInWindow(t: string, s: string, a: nat, b: nat, i: nat)
    requires a <= b <= |t|
    ensures OccursAt(t[a..b], s, i) <==> a + i + |s| <= b && OccursAt(t, s, a + i)
  {}

  /** `s` is a contiguous part of `t`. */
  ghost predicate Within(s: string, t: string) {
    exists i: nat :: OccursAt(t, s, i)
  }

  lemma WithinTransitive(a: string, b: string, c: string)
    requires Within(a, b) && Within(b, c)
    ensures Within(a, c)
  {
    var i: nat :| OccursAt(b, a, i);
    var j: nat :| OccursAt(c, b, j);
    assert OccursAt(c, a, j + i);
  }

  lemma SliceIsWithin(t: string, a: nat, b: nat)
    requires a <= b <= |t|
    ensures Within(t[a..b], t)
  {
    assert OccursAt(t, t[a..b], a);
  }

  /** The ASCII white space that `strings.TrimSpace` removes. */
  predicate IsSpace(c: char) {
    c in {' ', '\t', '\n', '\r', '\U{0B}', '\U{0C}'}
  }

  lemma SpaceCodes(c: char)
    ensures IsSpace(c) <==> 9 <= c as int <= 13 || c as int == 32
  {}

  function TrimLeft(s: string): string {
    if s != "" && IsSpace(s[0]) then TrimLeft(s[1..]) else s
  }

  function TrimRight(s: string): string {
    if s != "" && IsSpace(s[|s| - 1]) then TrimRight(s[..|s| - 1]) else s
  }

  function Trim(s: string): string {
    TrimRight(TrimLeft(s))
  }

  /** Trimming `w + s + v` for white space `w`, `v` around a text without outer white space. */
  lemma {:induction false} TrimAround(w: string, s: string, v: string)
    requires forall c :: c in w || c in v ==> IsSpace(c)
    requires s != "" && !IsSpace(s[0]) && !IsSpace(s[|s| - 1])
    ensures Trim(w + s + v) == s
    decreases |w| + |v|
  {
    if w != "" {
      assert (w + s + v)[1..] == w[1..] + s + v;
      TrimAround(w[1..], s, v);
    } else {
      assert w + s + v == s + v;
      assert TrimLeft(s + v) == s + v;
      TrimRightOf(s, v);
    }
  }

  lemma TrimOfTrimmed(s: string)
    requires s != "" && !IsSpace(s[0]) && !IsSpace(s[|s| - 1])
    ensures Trim(s) == s
  {}

  lemma {:induction false} TrimRightOf(s: string, v: string)
    requires forall c :: c in v ==> IsSpace(c)
    requires s != "" && !IsSpace(s[|s| - 1])
    ensures TrimRight(s + v) == s
  {
    if v == "" {
      assert s + v == s;
    } else {
      assert (s + v)[..|s + v| - 1] == s + v[..|v| - 1];
      TrimRightOf(s, v[..|v| - 1]);
    }
  }

  lemma TrimIsWithin(s: string)
    ensures Within(Trim(s), s)
    ensures Trim(s) != "" ==> !IsSpace(Trim(s)[0]) && !IsSpace(Trim(s)[|Trim(s)| - 1])
  {
    TrimLeftIsSuffix(s);
    TrimRightIsPrefix(TrimLeft(s));
    assert OccursAt(s, Trim(s), |s| - |TrimLeft(s)|);
  }

  lemma TrimLeftIsSuffix(s: string)
    ensures |TrimLeft(s)| <= |s| && TrimLeft(s) == s[|s| - |TrimLeft(s)|..]
    ensures TrimLeft(s) != "" ==> !IsSpace(TrimLeft(s)[0])
  {}

  lemma TrimRightIsPrefix(s: string)
    ensures |TrimRight(s)| <= |s| && TrimRight(s) == s[..|TrimRight(s)|]
    ensures TrimRight(s) != "" ==> !IsSpace(TrimRight(s)[|TrimRight(s)| - 1])
  {}

  lemma TrimShrinks(s: string)
    ensures |Trim(s)| <= |s| && (|Trim(s)| == |s| ==> Trim(s) == s)
  {
    TrimLeftIsSuffix(s);
    TrimRightIsPrefix(TrimLeft(s));
  }
}
