/** Streamed redaction: `redactKnownSecrets` on the whole text, the chunked form that holds
back a suffix, and when the second refines the first. */
module Redaction {
  import opened Text

  const MARKER := "[REDACTED]"

  predicate NonEmpty(secrets: seq<string>) {
    forall k :: 0 <= k < |secrets| ==> secrets[k] != ""
  }

  /** `strings.ReplaceAll`: leftmost matches, none overlapping. */
  function ReplaceAll(t: string, s: string): string
    requires s != ""
    decreases |t|
  {
    if |t| < |s| then t
    else if s <= t then MARKER + ReplaceAll(t[|s|..], s)
    else [t[0]] + ReplaceAll(t[1..], s)
  }

  /** Each secret is replaced in turn, in the order given. */
  function Redact(t: string, secrets: seq<string>): string
    requires NonEmpty(secrets)
    decreases |secrets|
  {
    if secrets == [] then t else Redact(ReplaceAll(t, secrets[0]), secrets[1..])
  }

  function MaxLen(secrets: seq<string>): (m: nat)
    ensures forall k :: 0 <= k < |secrets| ==> |secrets[k]| <= m
    ensures m == 0 || exists k :: 0 <= k < |secrets| && |secrets[k]| == m
  {
    if secrets == [] then 0
    else
      var n := |secrets| - 1;
      var m := MaxLen(secrets[..n]);
      assert forall k :: 0 <= k < n ==> secrets[..n][k] == secrets[k];
      if |secrets[n]| > m then |secrets[n]| else m
  }

  // ---------------------------------------------------------------- the cut

  /** The occurrence of a secret of length `n` at `i` has `cut` strictly inside it. */
  predicate Straddles(i: nat, n: nat, cut: nat) {
    i < cut < i + n
  }

  /** The search loop for one secret, from position `at` on. */
  function CutOne(data: string, s: string, cut: nat, at: nat): (c: nat)
    requires s != ""
    ensures c <= cut
    decreases |data| - at
  {
    if at + |s| > |data| then cut
    else CutOne(data, s, if OccursAt(data, s, at) && Straddles(at, |s|, cut) then at else cut, at + 1)
  }

  /** The search loop over the first `n` secrets. */
  function SafeCut(data: string, secrets: seq<string>, n: nat, cut: nat): (c: nat)
    requires NonEmpty(secrets) && n <= |secrets|
    ensures c <= cut
  {
    if n == 0 then cut else CutOne(data, secrets[n - 1], SafeCut(data, secrets, n - 1, cut), 0)
  }

  /** Where `Write` first puts the cut: it holds back one byte less than the longest secret. */
  function FirstCut(secrets: seq<string>, length: nat): (x: nat)
    ensures x <= length
  {
    var m := MaxLen(secrets);
    if m > 1 && length >= m then length - (m - 1) else if m > 1 then 0 else length
  }

  function Cut(secrets: seq<string>, combined: string): (c: nat)
    requires NonEmpty(secrets)
    ensures c <= |combined|
  {
    SafeCut(combined, secrets, |secrets|, FirstCut(secrets, |combined|))
  }

  // ------------------------------------------------------- the streamed form

  datatype Buffered = Buffered(emitted: string, pending: string)

  function Feed(secrets: seq<string>, b: Buffered, p: string): Buffered
    requires NonEmpty(secrets)
  {
    var combined := b.pending + p;
    var cut := Cut(secrets, combined);
    Buffered(b.emitted + Redact(combined[..cut], secrets), combined[cut..])
  }

  function FeedAll(secrets: seq<string>, chunks: seq<string>): Buffered
    requires NonEmpty(secrets)
  {
    if chunks == [] then Buffered("", "")
    else Feed(secrets, FeedAll(secrets, chunks[..|chunks| - 1]), chunks[|chunks| - 1])
  }

  function Closed(secrets: seq<string>, b: Buffered): string
    requires NonEmpty(secrets)
  {
    b.emitted + Redact(b.pending, secrets)
  }

  /** Everything handed to `persist` by one `Write` per chunk and a `Close`. */
  function StreamOut(secrets: seq<string>, chunks: seq<string>): string
    requires NonEmpty(secrets)
  {
    Closed(secrets, FeedAll(secrets, chunks))
  }

  // ---------------------------------------------------------- the hypotheses

  /** No secret occurrence of `t` is split at `c`. */
  ghost predicate Clean(t: string, secrets: seq<string>, c: nat) {
    forall k, i: nat :: 0 <= k < |secrets| && OccursAt(t, secrets[k], i) ==> !Straddles(i, |secrets[k]|, c)
  }

  /** Two crossing occurrences of `t`, the left one searched before the right one, with enough
      text after the left one for `Write` to put its first cut at or behind the left one's end. */
  ghost predicate HazardAt(t: string, secrets: seq<string>, i: nat, j: nat, p: nat, o: nat) {
    && i <= j < |secrets|
    && OccursAt(t, secrets[i], p) && OccursAt(t, secrets[j], o)
    && p < o < p + |secrets[i]| < o + |secrets[j]|
    && p + |secrets[i]| + MaxLen(secrets) - 1 <= |t|
  }

  ghost predicate Hazard(t: string, secrets: seq<string>) {
    exists i: nat, j: nat, p: nat, o: nat :: HazardAt(t, secrets, i, j, p, o)
  }

  /** Laid over the marker so that it sticks out on a side, `s` never fits. */
  ghost predicate MarkerEdgeFree(s: string) {
    forall d: int :: -|s| < d < |MARKER| && !(0 <= d && d + |s| <= |MARKER|) ==> !FitsMarker(s, d)
  }

  /** `s`, placed `d` characters after the start of the marker, agrees with it where they meet. */
  predicate FitsMarker(s: string, d: int) {
    forall k :: 0 <= k < |s| && 0 <= k + d < |MARKER| ==> s[k] == MARKER[k + d]
  }

  ghost predicate EdgesFree(secrets: seq<string>) {
    forall k :: 1 <= k < |secrets| ==> MarkerEdgeFree(secrets[k])
  }

  /** Occurrences of secrets in `t` are pairwise nested or disjoint. */
  ghost predicate Laminar(t: string, secrets: seq<string>) {
    forall i: nat, j: nat, p: nat, o: nat ::
      i < |secrets| && j < |secrets| && OccursAt(t, secrets[i], p) && OccursAt(t, secrets[j], o) && p <= o
      ==> p + |secrets[i]| <= o || o + |secrets[j]| <= p + |secrets[i]| || p == o
  }

  // -------------------------------------------- redaction splits at clean cuts

  lemma {:induction false} ReplaceAllSplits(a: string, b: string, s: string)
    requires s != ""
    requires forall i: nat :: OccursAt(a + b, s, i) ==> !Straddles(i, |s|, |a|)
    ensures ReplaceAll(a + b, s) == ReplaceAll(a, s) + ReplaceAll(b, s)
    decreases |a|
  {
    if a == "" || |a + b| < |s| {
      NothingSplits(a, b, s);
    } else {
      var head, n := HeadOf(a, b, s);
      ShiftOccurrences(a, b, s, n);
      ReplaceAllSplits(a[n..], b, s);
      HeadsJoin(head, ReplaceAll(a[n..], s), ReplaceAll(b, s), ReplaceAll(a, s));
    }
  }

  lemma NothingSplits(a: string, b: string, s: string)
    requires s != "" && (a == "" || |a + b| < |s|)
    ensures ReplaceAll(a + b, s) == ReplaceAll(a, s) + ReplaceAll(b, s)
  {
    ReplaceAllShort("", s);
    if a == "" {
      assert a + b == b && "" + ReplaceAll(b, s) == ReplaceAll(b, s);
    } else {
      ReplaceAllShort(b, s);
      ReplaceAllShort(a, s);
      ReplaceAllShort(a + b, s);
    }
  }

  /** What `ReplaceAll` makes of the front of `a + b`, all of it out of `a`. */
  lemma HeadOf(a: string, b: string, s: string) returns (head: string, n: nat)
    requires s != "" && a != "" && |a + b| >= |s|
    requires forall i: nat :: OccursAt(a + b, s, i) ==> !Straddles(i, |s|, |a|)
    ensures 0 < n <= |a| && n == if s <= a + b then |s| else 1
    ensures ReplaceAll(a + b, s) == head + ReplaceAll(a[n..] + b, s)
    ensures ReplaceAll(a, s) == head + ReplaceAll(a[n..], s)
  {
    var t := a + b;
    assert s <= t ==> OccursAt(t, s, 0);
    head, n := if s <= t then MARKER else [a[0]], if s <= t then |s| else 1;
    SameHead(a, b, s);
    ReplaceAllStep(t, s);
    DropAcross(a, b, n);
  }

  lemma DropAcross(a: string, b: string, n: nat)
    requires n <= |a|
    ensures (a + b)[n..] == a[n..] + b
  {}

  lemma HeadsJoin(head: string, x: string, y: string, whole: string)
    requires whole == head + x
    ensures head + (x + y) == whole + y
  {}

  lemma SameHead(a: string, b: string, s: string)
    requires s != "" && a != "" && |a + b| >= |s|
    requires s <= a + b ==> |s| <= |a|
    ensures s <= a + b ==> s <= a && ReplaceAll(a, s) == MARKER + ReplaceAll(a[|s|..], s)
    ensures !(s <= a + b) ==> ReplaceAll(a, s) == [a[0]] + ReplaceAll(a[1..], s)
  {
    assert s <= a ==> s <= a + b;
    if |a| < |s| { ReplaceAllShort(a[1..], s); }
  }

  lemma ReplaceAllShort(t: string, s: string)
    requires s != "" && |t| < |s|
    ensures ReplaceAll(t, s) == t
  {}

  lemma ShiftOccurrences(a: string, b: string, s: string, n: nat)
    requires n <= |a|
    requires forall i: nat :: OccursAt(a + b, s, i) ==> !Straddles(i, |s|, |a|)
    ensures forall i: nat :: OccursAt(a[n..] + b, s, i) ==> !Straddles(i, |s|, |a[n..]|)
  {
    var t := a + b;
    assert a[n..] + b == t[n..|t|];
    forall i: nat | OccursAt(a[n..] + b, s, i) ensures !Straddles(i, |s|, |a[n..]|) {
      OccursInWindow(t, s, n, |t|, i);
      assert OccursAt(t, s, n + i);
    }
  }

  /** The end of `x` at the start of text that starts with a marker: `x` sticks out on the left. */
  lemma ClashOnLeft(x: string, k: nat, w: string, r: string)
    requires 0 < k && OccursAt(x, w, k) && 0 < |w| && w <= r && MARKER <= r
    requires k + |w| == |x| || w == r
    ensures !MarkerEdgeFree(x)
  {
    var d: int := 0 - k;
    forall i | 0 <= i < |x| && 0 <= i + d < |MARKER| ensures x[i] == MARKER[i + d] {
      assert x[i] == w[i - k] == r[i - k];
    }
    assert FitsMarker(x, d);
  }

  /** The start of `x` at the end of such text, and into the marker: it sticks out on the right. */
  lemma ClashOnRight(x: string, v: string, r: string)
    requires |v| < |x| && v <= x && IsSuffix(v, r) && MARKER <= r && |r| - |v| < |MARKER|
    ensures !MarkerEdgeFree(x)
  {
    var d := |r| - |v|;
    forall i | 0 <= i < |x| && 0 <= i + d < |MARKER| ensures x[i] == MARKER[i + d] {
      assert x[i] == v[i] == r[d + i];
    }
    assert FitsMarker(x, d);
  }

  /** A prefix of replaced text that is the end of an edge-free secret is raw text. */
  lemma {:induction false} RawPrefix(b: string, s: string, x: string, w: string)
    requires s != "" && MarkerEdgeFree(x)
    requires 0 < |w| < |x| && x[|x| - |w|..] == w && w <= ReplaceAll(b, s)
    ensures w <= b
    decreases |w|
  {
    var r := ReplaceAll(b, s);
    if |b| >= |s| {
      if s <= b {
        ClashOnLeft(x, |x| - |w|, w, r);
      } else if |w| > 1 {
        assert w[1..] <= ReplaceAll(b[1..], s);
        RawPrefix(b[1..], s, x, w[1..]);
      }
    }
  }

  /** A suffix of replaced text that is the start of an edge-free secret is raw text. */
  lemma {:induction false} RawSuffix(a: string, s: string, x: string, v: string)
    requires s != "" && MarkerEdgeFree(x)
    requires |v| < |x| && v <= x && IsSuffix(v, ReplaceAll(a, s))
    ensures IsSuffix(v, a)
    decreases |a|
  {
    if |a| >= |s| {
      var n := if s <= a then |s| else 1;
      var rest := ReplaceAll(a[n..], s);
      ReplaceAllStep(a, s);
      if |v| <= |rest| {
        SuffixOfRest(v, ReplaceAll(a, s), rest);
        RawSuffix(a[n..], s, x, v);
        SuffixTransitive(v, a[n..], a);
      } else if s <= a {
        RawSuffixAtMatch(a, s, x, v);
      } else {
        RawSuffixAtSkip(a, s, x, v);
      }
    }
  }

  lemma ReplaceAllStep(t: string, s: string)
    requires s != "" && |t| >= |s|
    ensures s <= t ==> ReplaceAll(t, s) == MARKER + ReplaceAll(t[|s|..], s)
    ensures !(s <= t) ==> ReplaceAll(t, s) == [t[0]] + ReplaceAll(t[1..], s)
    ensures var n := if s <= t then |s| else 1; IsSuffix(ReplaceAll(t[n..], s), ReplaceAll(t, s))
  {}

  lemma RawSuffixAtMatch(a: string, s: string, x: string, v: string)
    requires s != "" && s <= a && |v| < |x| && v <= x && IsSuffix(v, ReplaceAll(a, s))
    requires |v| > |ReplaceAll(a[|s|..], s)|
    ensures !MarkerEdgeFree(x)
  {
    ReplaceAllStep(a, s);
    ClashOnRight(x, v, ReplaceAll(a, s));
  }

  lemma RawSuffixAtSkip(a: string, s: string, x: string, v: string)
    requires s != "" && MarkerEdgeFree(x) && |a| >= |s| && !(s <= a)
    requires |v| < |x| && v <= x && IsSuffix(v, ReplaceAll(a, s))
    requires |v| > |ReplaceAll(a[1..], s)|
    ensures v == a
  {
    var rest := ReplaceAll(a[1..], s);
    WholeSuffix(v, a[0], rest, x);
    RawAll(a[1..], s, x, 1, rest);
  }

  lemma WholeSuffix(v: string, c: char, rest: string, x: string)
    requires IsSuffix(v, [c] + rest) && |rest| < |v| < |x| && v <= x
    ensures v == [c] + rest && OccursAt(x, rest, 1)
  {
    assert v == [c] + rest;
    assert forall i :: 0 <= i < |rest| ==> rest[i] == v[i + 1];
  }

  predicate IsSuffix(v: string, t: string) {
    |v| <= |t| && forall k :: 0 <= k < |v| ==> v[k] == t[|t| - |v| + k]
  }

  lemma SuffixOfRest(v: string, r: string, rest: string)
    requires IsSuffix(v, r) && IsSuffix(rest, r) && |v| <= |rest|
    ensures IsSuffix(v, rest)
  {}

  lemma SuffixTransitive(v: string, rest: string, t: string)
    requires IsSuffix(v, rest) && IsSuffix(rest, t)
    ensures IsSuffix(v, t)
  {}

  /** Replaced text that lies inside an edge-free secret is raw text. */
  lemma {:induction false} RawAll(a: string, s: string, x: string, k: nat, v: string)
    requires s != "" && MarkerEdgeFree(x)
    requires 0 < k && k + |v| < |x| && OccursAt(x, v, k) && v == ReplaceAll(a, s)
    ensures v == a
    decreases |a|
  {
    if |a| >= |s| {
      if s <= a {
        ClashOnLeft(x, k, v, v);
      } else {
        assert OccursAt(x, v[1..], k + 1) by {
          assert forall i :: 0 <= i < |v| - 1 ==> v[1..][i] == v[i + 1];
        }
        RawAll(a[1..], s, x, k + 1, v[1..]);
      }
    }
  }

  /** Replacing one secret on both sides of a clean cut creates no occurrence across it. */
  lemma StaysClean(a: string, b: string, s: string, x: string, i: nat)
    requires s != "" && MarkerEdgeFree(x)
    requires OccursAt(ReplaceAll(a, s) + ReplaceAll(b, s), x, i)
    requires Straddles(i, |x|, |ReplaceAll(a, s)|)
    ensures exists j: nat :: OccursAt(a + b, x, j) && Straddles(j, |x|, |a|)
  {
    var ra, rb := ReplaceAll(a, s), ReplaceAll(b, s);
    var n := |ra| - i;
    OccursAcross(ra, rb, x, n);
    RawSuffix(a, s, x, x[..n]);
    RawPrefix(b, s, x, x[n..]);
    OccursAcross(a, b, x, n);
  }

  /** Reading an occurrence across a seam from its two sides. */
  lemma OccursAcross(a: string, b: string, x: string, n: nat)
    requires n <= |x| && n <= |a|
    ensures OccursAt(a + b, x, |a| - n) <==> IsSuffix(x[..n], a) && x[n..] <= b
  {
    var t, i := a + b, |a| - n;
    if OccursAt(t, x, i) {
      forall k | 0 <= k < |x| - n ensures x[n..][k] == b[k] {
        assert x[n + k] == t[i + n + k];
      }
    }
    if IsSuffix(x[..n], a) && x[n..] <= b {
      forall k | 0 <= k < |x| ensures x[k] == t[i + k] {
        if k < n { assert x[..n][k] == a[i + k]; } else { assert x[n..][k - n] == b[k - n]; }
      }
    }
  }

  lemma {:induction false} RedactSplits(a: string, b: string, secrets: seq<string>)
    requires NonEmpty(secrets) && EdgesFree(secrets) && Clean(a + b, secrets, |a|)
    ensures Redact(a + b, secrets) == Redact(a, secrets) + Redact(b, secrets)
    decreases |secrets|
  {
    if secrets != [] {
      var s, rest := secrets[0], secrets[1..];
      assert forall k :: 0 <= k < |rest| ==> rest[k] == secrets[k + 1];
      ReplaceAllSplits(a, b, s);
      var ra, rb := ReplaceAll(a, s), ReplaceAll(b, s);
      forall k, i: nat | 0 <= k < |rest| && OccursAt(ra + rb, rest[k], i)
        ensures !Straddles(i, |rest[k]|, |ra|)
      {
        if Straddles(i, |rest[k]|, |ra|) {
          StaysClean(a, b, s, rest[k], i);
        }
      }
      RedactSplits(ra, rb, rest);
    }
  }

  // ------------------------------------------------------- the cut is clean

  lemma CrossingIsHazard(t: string, secrets: seq<string>, i: nat, j: nat, p: nat, o: nat, cut: nat)
    requires i <= j < |secrets| && OccursAt(t, secrets[i], p) && OccursAt(t, secrets[j], o)
    requires Straddles(p, |secrets[i]|, o) && Straddles(o, |secrets[j]|, cut) && !Straddles(p, |secrets[i]|, cut)
    requires cut + MaxLen(secrets) - 1 <= |t|
    ensures Hazard(t, secrets)
  {
    assert HazardAt(t, secrets, i, j, p, o);
  }

  lemma {:induction false} CutOneClean(data: string, secrets: seq<string>, k: nat, cut: nat, at: nat, x: nat)
    requires NonEmpty(secrets) && k < |secrets|
    requires cut <= x && x + MaxLen(secrets) - 1 <= |data| && !Hazard(data, secrets)
    requires forall j, i: nat :: 0 <= j < k && OccursAt(data, secrets[j], i) ==> !Straddles(i, |secrets[j]|, cut)
    requires forall i: nat :: i < at && OccursAt(data, secrets[k], i) ==> !Straddles(i, |secrets[k]|, cut)
    ensures var c := CutOne(data, secrets[k], cut, at);
      forall j, i: nat :: 0 <= j <= k && OccursAt(data, secrets[j], i) ==> !Straddles(i, |secrets[j]|, c)
    decreases |data| - at
  {
    var s := secrets[k];
    if at + |s| <= |data| {
      if OccursAt(data, s, at) && Straddles(at, |s|, cut) {
        forall j, i: nat | 0 <= j <= k && OccursAt(data, secrets[j], i) && (j < k || i <= at)
          ensures !Straddles(i, |secrets[j]|, at)
        {
          if Straddles(i, |secrets[j]|, at) {
            CrossingIsHazard(data, secrets, j, k, i, at, cut);
          }
        }
        CutOneClean(data, secrets, k, at, at + 1, x);
      } else {
        CutOneClean(data, secrets, k, cut, at + 1, x);
      }
    }
  }

  lemma {:induction false} SafeCutClean(data: string, secrets: seq<string>, n: nat, cut: nat)
    requires NonEmpty(secrets) && n <= |secrets|
    requires cut + MaxLen(secrets) - 1 <= |data| && !Hazard(data, secrets)
    ensures var c := SafeCut(data, secrets, n, cut);
      forall j, i: nat :: 0 <= j < n && OccursAt(data, secrets[j], i) ==> !Straddles(i, |secrets[j]|, c)
  {
    if n > 0 {
      SafeCutClean(data, secrets, n - 1, cut);
      CutOneClean(data, secrets, n - 1, SafeCut(data, secrets, n - 1, cut), 0, cut);
    }
  }

  lemma HazardInWindow(t: string, secrets: seq<string>, a: nat, b: nat)
    requires a <= b <= |t| && Hazard(t[a..b], secrets)
    ensures Hazard(t, secrets)
  {
    var i: nat, j: nat, p: nat, o: nat :| HazardAt(t[a..b], secrets, i, j, p, o);
    OccursInWindow(t, secrets[i], a, b, p);
    OccursInWindow(t, secrets[j], a, b, o);
    assert HazardAt(t, secrets, i, j, a + p, a + o);
  }

  /** The cut `Write` makes in the window `t[a..b]` splits no occurrence of all of `t`. */
  lemma CutCleanInWhole(t: string, secrets: seq<string>, a: nat, b: nat)
    requires NonEmpty(secrets) && a <= b <= |t| && !Hazard(t, secrets)
    requires Clean(t, secrets, a)
    ensures Clean(t, secrets, a + Cut(secrets, t[a..b]))
  {
    var data := t[a..b];
    var m, x := MaxLen(secrets), FirstCut(secrets, |data|);
    var c := Cut(secrets, data);
    if c > 0 && m > 0 {
      if Hazard(data, secrets) { HazardInWindow(t, secrets, a, b); }
      SafeCutClean(data, secrets, |secrets|, x);
      forall k, i: nat | 0 <= k < |secrets| && OccursAt(t, secrets[k], i)
        ensures !Straddles(i, |secrets[k]|, a + c)
      {
        if Straddles(i, |secrets[k]|, a + c) {
          assert !Straddles(i, |secrets[k]|, a);
          assert a <= i && i + |secrets[k]| <= b;
          OccursInWindow(t, secrets[k], a, b, i - a);
        }
      }
    }
  }

  // ------------------------------------------------------ what is held back

  /** Only text that may still begin a secret, or begins with one, is held back; and never more than each
      secret can account for once. */
  ghost predicate HeldBack(secrets: seq<string>, pending: string) {
    var most := MaxLen(secrets);
    && (|pending| <= (if most > 1 then most - 1 else 0)
        || exists k :: 0 <= k < |secrets| && OccursAt(pending, secrets[k], 0))
    && (most > 0 ==> |pending| <= (|secrets| + 1) * (most - 1))
  }

  /** The search moves the cut at most once, back to where the secret occurs. */
  lemma {:induction false} CutOneMoves(data: string, s: string, cut: nat, at: nat)
    requires s != ""
    ensures var c := CutOne(data, s, cut, at); c == cut || (OccursAt(data, s, c) && cut < c + |s|)
    decreases |data| - at
  {
    if at + |s| <= |data| {
      if OccursAt(data, s, at) && Straddles(at, |s|, cut) {
        CutOneStays(data, s, at, at + 1);
      } else {
        CutOneMoves(data, s, cut, at + 1);
      }
    }
  }

  lemma {:induction false} SafeCutMoves(data: string, secrets: seq<string>, n: nat, cut: nat, most: nat)
    requires NonEmpty(secrets) && n <= |secrets| && forall k :: 0 <= k < |secrets| ==> 0 < |secrets[k]| <= most
    ensures var c := SafeCut(data, secrets, n, cut);
      && (c == cut || exists k :: 0 <= k < |secrets| && OccursAt(data, secrets[k], c))
      && cut <= c + n * (most - 1)
  {
    if n > 0 {
      SafeCutMoves(data, secrets, n - 1, cut, most);
      CutOneMoves(data, secrets[n - 1], SafeCut(data, secrets, n - 1, cut), 0);
      assert n * (most - 1) == (n - 1) * (most - 1) + (most - 1);
    }
  }

  lemma CutHoldsBack(secrets: seq<string>, data: string)
    requires NonEmpty(secrets)
    ensures HeldBack(secrets, data[Cut(secrets, data)..])
  {
    var most, c := MaxLen(secrets), Cut(secrets, data);
    SafeCutMoves(data, secrets, |secrets|, FirstCut(secrets, |data|), most);
    if most > 0 { assert (|secrets| + 1) * (most - 1) == |secrets| * (most - 1) + (most - 1); }
    if k :| 0 <= k < |secrets| && OccursAt(data, secrets[k], c) {
      assert OccursAt(data[c..], secrets[k], 0);
    }
  }

  // --------------------------------------------------------- the refinement

  lemma CleanInPrefix(t: string, secrets: seq<string>, c: nat, b: nat)
    requires b <= |t| && Clean(t, secrets, c)
    ensures Clean(t[..b], secrets, c)
  {
    forall k, i: nat | 0 <= k < |secrets| && OccursAt(t[..b], secrets[k], i)
      ensures !Straddles(i, |secrets[k]|, c)
    {
      assert t[..b] == t[0..b];
      OccursInWindow(t, secrets[k], 0, b, i);
      assert OccursAt(t, secrets[k], i);
    }
  }

  /** With `t[..n]` written, all but the end of it that is pending went out, up to a cut that is clean in the
      whole text. */
  ghost predicate Pending(secrets: seq<string>, pending: string, t: string, n: nat) {
    && |pending| <= n <= |t|
    && pending == t[n - |pending|..n]
    && Clean(t, secrets, n - |pending|)
  }

  /** What went out is the redaction of what came before the pending text. */
  ghost predicate Consumed(secrets: seq<string>, b: Buffered, t: string, n: nat)
    requires NonEmpty(secrets)
  {
    Pending(secrets, b.pending, t, n) && b.emitted == Redact(t[..n - |b.pending|], secrets)
  }

  lemma RedactFurther(secrets: seq<string>, t: string, a: nat, c: nat)
    requires NonEmpty(secrets) && EdgesFree(secrets) && a <= c <= |t| && Clean(t, secrets, a)
    ensures Redact(t[..c], secrets) == Redact(t[..a], secrets) + Redact(t[a..c], secrets)
  {
    CleanInPrefix(t, secrets, a, c);
    assert t[..c] == t[..a] + t[a..c];
    RedactSplits(t[..a], t[a..c], secrets);
  }

  /** One write puts out the text between two clean cuts. */
  lemma NextCut(secrets: seq<string>, b: Buffered, p: string, t: string, n: nat, a: nat) returns (c: nat)
    requires NonEmpty(secrets) && !Hazard(t, secrets)
    requires Pending(secrets, b.pending, t, n) && n + |p| <= |t| && p == t[n..n + |p|] && a == n - |b.pending|
    ensures a <= c <= n + |p| && Clean(t, secrets, c)
    ensures Feed(secrets, b, p) == Buffered(b.emitted + Redact(t[a..c], secrets), t[c..n + |p|])
  {
    Adjacent(t, a, n, n + |p|);
    var data := b.pending + p;
    c := CleanCut(secrets, t, a, n + |p|, data);
    FedBetween(secrets, b, p, t, a, c, n + |p|, data);
  }

  lemma CleanCut(secrets: seq<string>, t: string, a: nat, e: nat, data: string) returns (c: nat)
    requires NonEmpty(secrets) && !Hazard(t, secrets) && a <= e <= |t| && Clean(t, secrets, a) && data == t[a..e]
    ensures a <= c <= e && c == a + Cut(secrets, data) && Clean(t, secrets, c)
  {
    CutCleanInWhole(t, secrets, a, e);
    c := a + Cut(secrets, data);
  }

  lemma FedBetween(secrets: seq<string>, b: Buffered, p: string, t: string, a: nat, c: nat, e: nat, data: string)
    requires NonEmpty(secrets) && a <= c <= e <= |t|
    requires data == b.pending + p && data == t[a..e] && c == a + Cut(secrets, data)
    ensures Feed(secrets, b, p) == Buffered(b.emitted + Redact(t[a..c], secrets), t[c..e])
  {
    Divided(t, a, c, e);
    FedTo(secrets, b, p, data, t[a..c], t[c..e]);
  }

  lemma FedTo(secrets: seq<string>, b: Buffered, p: string, data: string, head: string, tail: string)
    requires NonEmpty(secrets) && data == b.pending + p
    requires head == data[..Cut(secrets, data)] && tail == data[Cut(secrets, data)..]
    ensures Feed(secrets, b, p) == Buffered(b.emitted + Redact(head, secrets), tail)
  {}

  lemma FeedKeepsConsumed(secrets: seq<string>, b: Buffered, p: string, t: string, n: nat)
    requires NonEmpty(secrets) && EdgesFree(secrets) && !Hazard(t, secrets)
    requires Consumed(secrets, b, t, n) && n + |p| <= |t| && p == t[n..n + |p|]
    ensures Consumed(secrets, Feed(secrets, b, p), t, n + |p|)
  {
    var a := n - |b.pending|;
    var c := NextCut(secrets, b, p, t, n, a);
    RedactFurther(secrets, t, a, c);
  }

  lemma Adjacent(t: string, a: nat, n: nat, e: nat)
    requires a <= n <= e <= |t|
    ensures t[a..n] + t[n..e] == t[a..e]
  {}

  lemma Divided(t: string, a: nat, c: nat, e: nat)
    requires a <= c <= e <= |t|
    ensures t[a..e][..c - a] == t[a..c] && t[a..e][c - a..] == t[c..e]
  {}

  lemma LastWrite(secrets: seq<string>, chunks: seq<string>, t: string)
      returns (before: seq<string>, p: string, n: nat)
    requires NonEmpty(secrets) && chunks != [] && Concat(chunks) <= t
    ensures before == chunks[..|chunks| - 1] && Concat(before) <= t && n == |Concat(before)|
    ensures |Concat(chunks)| == n + |p| <= |t| && p == t[n..n + |p|]
    ensures FeedAll(secrets, chunks) == Feed(secrets, FeedAll(secrets, before), p)
  {
    before, p := chunks[..|chunks| - 1], chunks[|chunks| - 1];
    n := |Concat(before)|;
    assert Concat(chunks) == Concat(before) + p;
    assert p == Concat(chunks)[n..n + |p|];
  }

  lemma {:induction false} FeedInvariant(secrets: seq<string>, chunks: seq<string>, t: string)
    requires NonEmpty(secrets) && EdgesFree(secrets)
    requires Concat(chunks) <= t && !Hazard(t, secrets)
    ensures Consumed(secrets, FeedAll(secrets, chunks), t, |Concat(chunks)|)
    decreases |chunks|
  {
    if chunks == [] {
      RedactEmpty(secrets);
      assert t[..0] == "" == t[0..0];
    } else {
      var before, p, n := LastWrite(secrets, chunks, t);
      FeedInvariant(secrets, before, t);
      FeedKeepsConsumed(secrets, FeedAll(secrets, before), p, t, n);
    }
  }

  lemma {:induction false} RedactEmpty(secrets: seq<string>)
    requires NonEmpty(secrets)
    ensures Redact("", secrets) == ""
    decreases |secrets|
  {
    if secrets != [] {
      assert ReplaceAll("", secrets[0]) == "";
      RedactEmpty(secrets[1..]);
    }
  }

  /** Every chunking of a hazard-free text streams exactly the redaction of the whole. */
  lemma StreamRefinesWhole(secrets: seq<string>, chunks: seq<string>)
    requires NonEmpty(secrets) && EdgesFree(secrets) && !Hazard(Concat(chunks), secrets)
    ensures StreamOut(secrets, chunks) == Redact(Concat(chunks), secrets)
  {
    var t := Concat(chunks);
    FeedInvariant(secrets, chunks, t);
    RedactFurther(secrets, t, |t| - |FeedAll(secrets, chunks).pending|, |t|);
    assert t[..|t|] == t;
  }

  /** Nested-or-disjoint occurrences are a special case of hazard-free text. */
  lemma LaminarHasNoHazard(t: string, secrets: seq<string>)
    requires Laminar(t, secrets)
    ensures !Hazard(t, secrets)
  {}

  // ----------------------------------------------- one secret: the exact condition

  /** The text up to a leftmost crossing pair, as the first chunk, is cut inside the left one. */
  lemma {:induction false} CutOneFirst(data: string, s: string, cut: nat, at: nat, o: nat)
    requires s != "" && at <= o && OccursAt(data, s, o) && Straddles(o, |s|, cut)
    requires forall i: nat :: at <= i < o && OccursAt(data, s, i) ==> !Straddles(i, |s|, cut)
    ensures CutOne(data, s, cut, at) == o
    decreases o - at
  {
    if at < o {
      CutOneFirst(data, s, cut, at + 1, o);
    } else {
      CutOneStays(data, s, o, o + 1);
    }
  }

  lemma {:induction false} CutOneStays(data: string, s: string, cut: nat, at: nat)
    requires s != "" && cut <= at
    ensures CutOne(data, s, cut, at) == cut
    decreases |data| - at
  {
    if at + |s| <= |data| {
      CutOneStays(data, s, cut, at + 1);
    }
  }

  lemma RedactOne(t: string, s: string)
    requires s != ""
    ensures Redact(t, [s]) == ReplaceAll(t, s)
    ensures t != "" ==> ReplaceAll(t, s) != "" && ReplaceAll(t, s)[0] in {t[0], MARKER[0]}
  {
    assert [s][1..] == [];
    assert Redact(ReplaceAll(t, s), []) == ReplaceAll(t, s);
  }

  /** Two occurrences of `s` in `t` that overlap, `p` before `o`. */
  ghost predicate Crossing(t: string, s: string, p: nat, o: nat) {
    OccursAt(t, s, p) && OccursAt(t, s, o) && p < o < p + |s|
  }

  lemma {:induction false} LeftmostCrossing(t: string, s: string, p0: nat, o0: nat) returns (p: nat, o: nat)
    requires Crossing(t, s, p0, o0)
    ensures Crossing(t, s, p, o) && p <= p0
    ensures forall i: nat :: Crossing(t, s, i, p) ==> false
    ensures forall i: nat :: p < i < o ==> !OccursAt(t, s, i)
    decreases p0
  {
    if i: nat :| Crossing(t, s, i, p0) {
      p, o := LeftmostCrossing(t, s, i, p0);
    } else {
      IndexIsFirst(t, s, p0 + 1);
      p, o := p0, IndexFrom(t, s, p0 + 1);
    }
  }

  /** The first write, up to `p + 2 * |s| - 1`, is cut at `o`, inside the occurrence at `p`. */
  lemma FirstWriteSplits(t: string, s: string, p: nat, o: nat)
    requires Crossing(t, s, p, o) && p + 2 * |s| - 1 <= |t|
    requires forall i: nat :: p < i < o ==> !OccursAt(t, s, i)
    ensures Cut([s], t[..p + 2 * |s| - 1]) == o
  {
    var e := p + 2 * |s| - 1;
    var data := t[..e];
    assert MaxLen([s]) == |s|;
    assert t[0..e] == data;
    OccursInWindow(t, s, 0, e, o);
    forall i: nat | i < o && OccursAt(data, s, i) ensures !Straddles(i, |s|, p + |s|) {
      OccursInWindow(t, s, 0, e, i);
    }
    CutOneFirst(data, s, p + |s|, 0, o);
    assert SafeCut(data, [s], 0, p + |s|) == p + |s|;
  }

  /** The whole-text form has a marker where the leftmost crossing pair starts. */
  lemma MarkerIsDue(left: string, right: string, s: string)
    requires s != "" && s <= right
    requires forall i: nat :: OccursAt(left + right, s, i) ==> !Straddles(i, |s|, |left|)
    ensures ReplaceAll(left, s) + MARKER <= ReplaceAll(left + right, s)
  {
    ReplaceAllSplits(left, right, s);
    ReplaceAllStep(right, s);
  }

  /** The streamed form has the start of the secret there. */
  lemma RawInstead(left: string, mid: string, s: string)
    requires s != "" && |mid| < |s|
    requires forall i: nat :: OccursAt(left + mid, s, i) ==> !Straddles(i, |s|, |left|)
    ensures ReplaceAll(left + mid, s) == ReplaceAll(left, s) + mid
  {
    ReplaceAllSplits(left, mid, s);
    ReplaceAllShort(mid, s);
  }

  lemma CleanAtLeftmost(t: string, s: string, p: nat, o: nat)
    requires Crossing(t, s, p, o) && forall i: nat :: Crossing(t, s, i, p) ==> false
    ensures forall i: nat :: OccursAt(t, s, i) ==> !Straddles(i, |s|, p)
    ensures forall i: nat :: OccursAt(t[..o], s, i) ==> !Straddles(i, |s|, p)
  {
    forall i: nat | OccursAt(t, s, i) ensures !Straddles(i, |s|, p) {
      assert !Crossing(t, s, i, p);
    }
    forall i: nat | OccursAt(t[..o], s, i) ensures !Straddles(i, |s|, p) {
      assert t[..o] == t[0..o];
      OccursInWindow(t, s, 0, o, i);
    }
  }

  lemma RawWhereMarkerIsDue(t: string, s: string, p: nat, o: nat)
    requires Crossing(t, s, p, o) && forall i: nat :: Crossing(t, s, i, p) ==> false
    ensures ReplaceAll(t[..o], s) == ReplaceAll(t[..p], s) + s[..o - p]
    ensures ReplaceAll(t[..p], s) + MARKER <= ReplaceAll(t, s)
  {
    CleanAtLeftmost(t, s, p, o);
    assert t[..p] + t[p..] == t;
    assert t[..p] + s[..o - p] == t[..o];
    MarkerIsDue(t[..p], t[p..], s);
    RawInstead(t[..p], s[..o - p], s);
  }

  /** After the first write, output goes on with the text's own character or a marker. */
  lemma SecondWriteHead(s: string, b: Buffered, p: string)
    requires s != "" && b.pending != ""
    ensures var out := Closed([s], Feed([s], b, p));
      |b.emitted| < |out| && b.emitted <= out && out[|b.emitted|] in {b.pending[0], MARKER[0]}
  {
    var combined := b.pending + p;
    var cut := Cut([s], combined);
    RedactOne(combined[..cut], s);
    RedactOne(combined[cut..], s);
    assert combined[0] == b.pending[0];
  }

  /** `x`, cut off after `q` characters and started again, is not the marker. */
  lemma NotTheMarker(s: string, q: nat, out: string, whole: string, a: string)
    requires 0 < q < |s| && !(MARKER <= s)
    requires a + s[..q] <= out && |a| + q < |out| && out[|a| + q] in {s[0], MARKER[0]}
    requires a + MARKER <= whole
    ensures out != whole
  {
    ReadAfter(a, s[..q], out);
    ReadAfter(a, MARKER, whole);
    if s[0] == MARKER[0] {
      if q >= |MARKER| {
        assert exists k :: 0 <= k < |MARKER| && s[k] != MARKER[k];
      }
    }
  }

  lemma ReadAfter(a: string, m: string, t: string)
    requires a + m <= t
    ensures forall k :: 0 <= k < |m| ==> m[k] == t[|a| + k]
  {
    assert forall k :: 0 <= k < |m| ==> m[k] == (a + m)[|a| + k];
  }

  /** Whatever comes in the second write, the two outputs differ where the marker is due. */
  lemma OutputsDiffer(s: string, b: Buffered, p: string, q: nat, a: string, whole: string)
    requires 0 < q < |s| && !(MARKER <= s) && b.emitted == a + s[..q]
    requires b.pending != "" && b.pending[0] == s[0] && a + MARKER <= whole
    ensures Closed([s], Feed([s], b, p)) != whole
  {
    SecondWriteHead(s, b, p);
    NotTheMarker(s, q, Closed([s], Feed([s], b, p)), whole, a);
  }

  /** The two writes, and what they stream, for the leftmost crossing pair. */
  lemma SplitsAt(t: string, s: string, p: nat, o: nat) returns (chunks: seq<string>)
    requires Crossing(t, s, p, o) && p + 2 * |s| - 1 <= |t| && !(MARKER <= s)
    requires forall i: nat :: Crossing(t, s, i, p) ==> false
    requires forall i: nat :: p < i < o ==> !OccursAt(t, s, i)
    ensures Concat(chunks) == t && StreamOut([s], chunks) != ReplaceAll(t, s)
  {
    var e := p + 2 * |s| - 1;
    var x, y := t[..e], t[e..];
    assert x + y == t;
    chunks := TwoChunks(x, y, s);
    var b := AfterFirstWrite(t, s, p, o);
    RawWhereMarkerIsDue(t, s, p, o);
    OutputsDiffer(s, b, y, o - p, ReplaceAll(t[..p], s), ReplaceAll(t, s));
  }

  lemma HazardBreaks(t: string, s: string) returns (chunks: seq<string>)
    requires s != "" && !(MARKER <= s) && Hazard(t, [s])
    ensures Concat(chunks) == t && StreamOut([s], chunks) != ReplaceAll(t, s)
  {
    var i: nat, j: nat, p0: nat, o0: nat :| HazardAt(t, [s], i, j, p0, o0);
    assert MaxLen([s]) == |s|;
    var p, o := LeftmostCrossing(t, s, p0, o0);
    chunks := SplitsAt(t, s, p, o);
  }

  lemma AfterFirstWrite(t: string, s: string, p: nat, o: nat) returns (b: Buffered)
    requires Crossing(t, s, p, o) && p + 2 * |s| - 1 <= |t|
    requires forall i: nat :: p < i < o ==> !OccursAt(t, s, i)
    ensures b == Feed([s], Buffered("", ""), t[..p + 2 * |s| - 1])
    ensures b.emitted == ReplaceAll(t[..o], s) && b.pending != "" && b.pending[0] == s[0]
  {
    var data := t[..p + 2 * |s| - 1];
    FirstWriteSplits(t, s, p, o);
    assert "" + data == data && data[..o] == t[..o];
    RedactOne(t[..o], s);
    b := Feed([s], Buffered("", ""), data);
    assert b.pending == data[o..];
  }

  lemma TwoChunks(x: string, y: string, s: string) returns (chunks: seq<string>)
    requires s != ""
    ensures chunks == [x, y] && Concat(chunks) == x + y
    ensures StreamOut([s], chunks) == Closed([s], Feed([s], Feed([s], Buffered("", ""), x), y))
  {
    chunks := [x, y];
    assert chunks[..1] == [x] && [x][..0] == [];
    assert Concat([x]) == "" + x == x;
    assert FeedAll([s], [x]) == Feed([s], FeedAll([s], []), x);
  }

  /** With one secret, every chunking streams the whole-text redaction exactly when the text
      has no hazard: no two overlapping occurrences with room behind the left one. */
  lemma SingleSecretExact(t: string, s: string)
    requires s != "" && !(MARKER <= s)
    ensures (forall chunks: seq<string> :: Concat(chunks) == t ==> StreamOut([s], chunks) == ReplaceAll(t, s))
            <==> !Hazard(t, [s])
  {
    if Hazard(t, [s]) {
      var chunks := HazardBreaks(t, s);
    } else {
      forall chunks: seq<string> | Concat(chunks) == t ensures StreamOut([s], chunks) == ReplaceAll(t, s) {
        StreamRefinesWhole([s], chunks);
        RedactOne(t, s);
      }
    }
  }
}
