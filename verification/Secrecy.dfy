/** What redaction is for: secrets that reach the output, of a whole text or of a chunked one, and those that
cannot. */
module Secrecy {
  import opened Text
  import opened Redaction

  // ------------------------------------------------- redacting a whole text

  /** Laid over the marker so that the two overlap, `x` never fits. */
  ghost predicate FitsNowhere(x: string) {
    forall d: int :: -|x| < d < |MARKER| ==> !FitsMarker(x, d)
  }

  /** An occurrence in replaced text is one of the text before, and `s` was not found there. */
  lemma {:induction false} OccurrenceIsRaw(t: string, s: string, x: string, i: nat, out: string) returns (j: nat)
    requires s != "" && x != "" && FitsNowhere(x) && out == ReplaceAll(t, s) && OccursAt(out, x, i)
    ensures OccursAt(t, x, j) && !(s <= t[j..])
    decreases |t|
  {
    if |t| < |s| {
      j := TooShort(t, s, x, i, out);
    } else {
      var head, n, rest, outRest := FirstPiece(t, s, out);
      BehindOrRaw(t, s, x, i, head, rest, outRest, out);
      if i >= |head| {
        j := OccurrenceIsRaw(rest, s, x, i - |head|, outRest);
        j := Deeper(t, n, rest, x, s, j);
      } else {
        j := 0;
      }
    }
  }

  /** An occurrence is behind what was made of the front of the text, or starts there and is raw. */
  lemma BehindOrRaw(t: string, s: string, x: string, i: nat, head: string, rest: string, outRest: string, out: string)
    requires s != "" && x != "" && FitsNowhere(x) && |t| >= |s| && outRest == ReplaceAll(rest, s)
    requires out == head + outRest && OccursAt(out, x, i)
    requires if s <= t then head == MARKER else head == [t[0]] && rest == t[1..]
    ensures if i >= |head| then OccursAt(outRest, x, i - |head|) else OccursAt(t, x, 0) && !(s <= t[0..])
  {
    if s <= t { NotInMarker(outRest, x, i, out); }
    if i >= |head| {
      Shifted(head, outRest, x, i);
    } else {
      OccursAtFront(t, s, x, rest, outRest, out);
    }
  }

  lemma TooShort(t: string, s: string, x: string, i: nat, out: string) returns (j: nat)
    requires s != "" && |t| < |s| && out == ReplaceAll(t, s) && OccursAt(out, x, i)
    ensures OccursAt(t, x, j) && !(s <= t[j..])
  {
    ReplaceAllShort(t, s);
    j := i;
  }

  /** What `ReplaceAll` makes of the front of the text, and of the rest. */
  lemma FirstPiece(t: string, s: string, out: string) returns (head: string, n: nat, rest: string, outRest: string)
    requires s != "" && |t| >= |s| && out == ReplaceAll(t, s)
    ensures 0 < n <= |t| && rest == t[n..] && outRest == ReplaceAll(rest, s) && out == head + outRest
    ensures if s <= t then head == MARKER && n == |s| else head == [t[0]] && n == 1
  {
    ReplaceAllStep(t, s);
    head, n := if s <= t then MARKER else [t[0]], if s <= t then |s| else 1;
    rest := t[n..];
    outRest := ReplaceAll(rest, s);
  }

  /** In text that starts with a marker, `x` can only be behind it. */
  lemma NotInMarker(rest: string, x: string, i: nat, out: string)
    requires x != "" && FitsNowhere(x) && out == MARKER + rest && OccursAt(out, x, i)
    ensures i >= |MARKER|
  {
    if i < |MARKER| {
      forall k | 0 <= k < |x| && 0 <= k + i < |MARKER| ensures x[k] == MARKER[k + i] {
        assert x[k] == out[i + k];
      }
      assert FitsMarker(x, i);
    }
  }

  lemma Shifted(a: string, b: string, x: string, i: nat)
    requires OccursAt(a + b, x, i)
    ensures i >= |a| ==> OccursAt(b, x, i - |a|)
  {
    assert forall k :: 0 <= k < |x| ==> x[k] == (a + b)[i + k];
  }

  lemma Deeper(t: string, n: nat, rest: string, x: string, s: string, j0: nat) returns (j: nat)
    requires n <= |t| && rest == t[n..] && OccursAt(rest, x, j0) && !(s <= rest[j0..])
    ensures j == n + j0 && OccursAt(t, x, j) && !(s <= t[j..])
  {
    j := n + j0;
    assert rest[j0..] == t[j..];
    assert forall k :: 0 <= k < |x| ==> x[k] == rest[j0 + k];
  }

  /** Where nothing is replaced at the front, `x` at the front of the output is raw. */
  lemma OccursAtFront(t: string, s: string, x: string, rest: string, outRest: string, out: string)
    requires s != "" && x != "" && FitsNowhere(x) && t != "" && rest == t[1..]
    requires outRest == ReplaceAll(rest, s) && out == [t[0]] + outRest && OccursAt(out, x, 0) && !(s <= t)
    ensures OccursAt(t, x, 0) && !(s <= t[0..])
  {
    assert t[0..] == t;
    var w := x[1..];
    InTwo(x, t[0], outRest, out, w);
    if w != "" { RawPrefix(rest, s, x, w); }
    Together(t, x, rest, w);
  }

  lemma InTwo(x: string, c: char, rest: string, out: string, w: string)
    requires x != "" && w == x[1..] && out == [c] + rest && OccursAt(out, x, 0)
    ensures x[0] == c && w <= rest && x[|x| - |w|..] == w
  {
    assert x[0] == out[0 + 0];
    assert forall k :: 0 <= k < |w| ==> w[k] == x[k + 1] == out[0 + (k + 1)] == rest[k];
  }

  lemma Together(t: string, x: string, rest: string, w: string)
    requires t != "" && x != "" && rest == t[1..] && w == x[1..] && x[0] == t[0] && w <= rest
    ensures OccursAt(t, x, 0)
  {
    assert forall k :: 1 <= k < |x| ==> x[k] == w[k - 1] == rest[k - 1] == t[0 + k];
  }

  lemma {:induction false} NeverAppears(t: string, secrets: seq<string>, x: string)
    requires NonEmpty(secrets) && x != "" && FitsNowhere(x) && !Within(x, t)
    ensures !Within(x, Redact(t, secrets))
    decreases |secrets|
  {
    if secrets != [] {
      var s, next := secrets[0], ReplaceAll(t, secrets[0]);
      if i: nat :| OccursAt(next, x, i) { var j := OccurrenceIsRaw(t, s, x, i, next); }
      NeverAppears(next, secrets[1..], x);
    }
  }

  /** What redaction is for: a secret that cannot be mistaken for part of the marker occurs nowhere in the
      output, in whatever order the secrets are replaced and however they overlap. */
  lemma {:induction false} SecretIsRemoved(t: string, secrets: seq<string>, x: string)
    requires NonEmpty(secrets) && x in secrets && FitsNowhere(x)
    ensures !Within(x, Redact(t, secrets))
    decreases |secrets|
  {
    var s, next := secrets[0], ReplaceAll(t, secrets[0]);
    if s == x {
      if i: nat :| OccursAt(next, x, i) {
        var j := OccurrenceIsRaw(t, s, x, i, next);
        PrefixThere(t, x, j);
      }
      NeverAppears(next, secrets[1..], x);
    } else {
      SecretIsRemoved(next, secrets[1..], x);
    }
  }

  /** The condition cannot simply go: a secret that begins inside the marker comes back. */
  lemma BeginsInMarkerComesBack(x: string, d: nat) returns (t: string)
    requires x != "" && d < |MARKER| && FitsMarker(x, d)
    ensures Within(x, ReplaceAll(t, x))
  {
    var k := if d + |x| > |MARKER| then |MARKER| - d else |x|;
    t := x + x[k..];
    FrontReplaced(x, x[k..]);
    LaidOver(x, d, k, MARKER + x[k..]);
  }

  lemma FrontReplaced(x: string, tail: string)
    requires |tail| < |x|
    ensures ReplaceAll(x + tail, x) == MARKER + tail
  {
    var t := x + tail;
    assert t[|x|..] == tail;
    ReplaceAllStep(t, x);
    ReplaceAllShort(tail, x);
  }

  lemma LaidOver(x: string, d: nat, k: nat, out: string)
    requires x != "" && d < |MARKER| && FitsMarker(x, d) && k <= |x| && out == MARKER + x[k..]
    requires k == if d + |x| > |MARKER| then |MARKER| - d else |x|
    ensures OccursAt(out, x, d)
  {
    forall i | 0 <= i < |x| ensures x[i] == out[d + i] {
      if i >= k { assert out[d + i] == x[k..][d + i - |MARKER|]; } else { assert out[d + i] == MARKER[i + d]; }
    }
  }

  lemma PrefixThere(t: string, x: string, j: nat)
    requires OccursAt(t, x, j)
    ensures x <= t[j..]
  {}

  lemma {:induction false} NothingToReplace(t: string, s: string)
    requires s != "" && forall i: nat :: !OccursAt(t, s, i)
    ensures ReplaceAll(t, s) == t
    decreases |t|
  {
    if |t| >= |s| {
      assert !OccursAt(t, s, 0);
      forall i: nat ensures !OccursAt(t[1..], s, i) {
        assert t[1..] == t[1..|t|];
        OccursInWindow(t, s, 1, |t|, i);
      }
      NothingToReplace(t[1..], s);
    }
  }

  lemma FirstIsMissing(t: string, s: string)
    requires s != "" && s[0] !in t
    ensures ReplaceAll(t, s) == t
  {
    forall i: nat ensures !OccursAt(t, s, i) {
      if OccursAt(t, s, i) { FirstChar(t, s, i); }
    }
    NothingToReplace(t, s);
  }

  lemma FirstChar(t: string, s: string, i: nat)
    requires OccursAt(t, s, i) && s != ""
    ensures t[i] == s[0]
  {}

  /** A secret that begins before the marker and ends in it, or behind it, comes back where another secret is
      a character it does not have: replacing that character puts the marker in its place. */
  lemma EndsInMarkerComesBack(x: string, c: char, d: int) returns (t: string)
    requires -|x| < d < 0 && FitsMarker(x, d) && c !in x
    ensures Within(x, Redact(t, [x, [c]]))
  {
    var n := -d;
    var k := if |x| - n > |MARKER| then |MARKER| else |x| - n;
    var a, b := x[..n], x[n + k..];
    t := a + [c] + b;
    NotInSplit(x, c, a, b);
    NothingToReplace(t, x);
    assert c !in a && c !in b;
    OneReplaced(a, c, b);
    TwoRounds(t, x, [c]);
    Rejoined(x, d, k, a + MARKER + b);
  }

  /** The text has the character the secret does not have, and is no longer than the secret. */
  lemma NotInSplit(x: string, c: char, a: string, b: string)
    requires c !in x && |a| + |b| < |x|
    ensures forall i: nat :: !OccursAt(a + [c] + b, x, i)
  {
    var t := a + [c] + b;
    assert t[|a|] == c;
    forall i: nat ensures !OccursAt(t, x, i) {
      if OccursAt(t, x, i) { CharThere(t, x, i, |a|); }
    }
  }

  lemma CharThere(t: string, x: string, i: nat, n: nat)
    requires OccursAt(t, x, i) && i == 0 && n < |x|
    ensures t[n] in x
  {
    assert x[n] == t[i + n];
  }

  lemma OneReplaced(a: string, c: char, b: string)
    requires c !in a && c !in b
    ensures ReplaceAll(a + [c] + b, [c]) == a + MARKER + b
  {
    var t := a + [c] + b;
    forall i: nat | OccursAt(a + ([c] + b), [c], i) ensures !Straddles(i, 1, |a|) {}
    assert t == a + ([c] + b);
    ReplaceAllSplits(a, [c] + b, [c]);
    FirstIsMissing(a, [c]);
    FirstIsMissing(b, [c]);
    ReplaceAllStep([c] + b, [c]);
    assert ([c] + b)[1..] == b && [c] <= [c] + b;
    assert a + (MARKER + b) == a + MARKER + b;
  }

  lemma TwoRounds(t: string, x: string, y: string)
    requires x != "" && y != ""
    ensures Redact(t, [x, y]) == ReplaceAll(ReplaceAll(t, x), y)
  {
    assert [x, y][1..] == [y];
    RedactOne(ReplaceAll(t, x), y);
  }

  lemma Rejoined(x: string, d: int, k: nat, out: string)
    requires -|x| < d < 0 && FitsMarker(x, d) && k == (if |x| + d > |MARKER| then |MARKER| else |x| + d)
    requires out == x[..-d] + MARKER + x[k - d..]
    ensures Within(x, out)
  {
    forall i | 0 <= i < |x| ensures x[i] == out[0 + i] {
      if -d <= i < k - d { assert x[i] == MARKER[i + d]; }
    }
    assert OccursAt(out, x, 0);
  }

  /** `x` stays in no text it is redacted in, along with any other secrets in any order. */
  ghost predicate AlwaysRemoved(x: string) {
    forall t: string, secrets: seq<string> :: NonEmpty(secrets) && x in secrets ==> !Survives(x, t, secrets)
  }

  ghost predicate Survives(x: string, t: string, secrets: seq<string>)
    requires NonEmpty(secrets)
  {
    Within(x, Redact(t, secrets))
  }

  /** Redaction always removes a secret exactly if the secret fits nowhere over the marker. */
  lemma RemovedExactly(x: string, c: char)
    requires x != "" && c !in x
    ensures FitsNowhere(x) <==> AlwaysRemoved(x)
  {
    if FitsNowhere(x) {
      forall t: string, secrets: seq<string> | NonEmpty(secrets) && x in secrets ensures !Survives(x, t, secrets) {
        SecretIsRemoved(t, secrets, x);
      }
    } else {
      var d: int :| -|x| < d < |MARKER| && FitsMarker(x, d);
      var t, secrets := Survivor(x, c, d);
    }
  }

  lemma Survivor(x: string, c: char, d: int) returns (t: string, secrets: seq<string>)
    requires x != "" && c !in x && -|x| < d < |MARKER| && FitsMarker(x, d)
    ensures NonEmpty(secrets) && x in secrets && Survives(x, t, secrets)
  {
    if d >= 0 {
      t := BeginsInMarkerComesBack(x, d);
      secrets := [x];
      RedactOne(t, x);
    } else {
      t := EndsInMarkerComesBack(x, c, d);
      secrets := [x, [c]];
    }
  }

  // ------------------------------------------------- redacting a chunked text

  lemma FitsNowhereIsEdgeFree(x: string)
    requires FitsNowhere(x)
    ensures MarkerEdgeFree(x)
  {}

  /** What ends the secret and starts the redacted text is raw. */
  lemma {:induction false} RedactedPrefix(b: string, secrets: seq<string>, x: string, w: string)
    requires NonEmpty(secrets) && MarkerEdgeFree(x)
    requires 0 < |w| < |x| && x[|x| - |w|..] == w && w <= Redact(b, secrets)
    ensures w <= b
    decreases |secrets|
  {
    if secrets != [] {
      RedactedPrefix(ReplaceAll(b, secrets[0]), secrets[1..], x, w);
      RawPrefix(b, secrets[0], x, w);
    }
  }

  /** What starts the secret and ends the redacted text is raw. */
  lemma {:induction false} RedactedSuffix(a: string, secrets: seq<string>, x: string, v: string)
    requires NonEmpty(secrets) && MarkerEdgeFree(x)
    requires |v| < |x| && v <= x && IsSuffix(v, Redact(a, secrets))
    ensures IsSuffix(v, a)
    decreases |secrets|
  {
    if secrets != [] {
      RedactedSuffix(ReplaceAll(a, secrets[0]), secrets[1..], x, v);
      RawSuffix(a, secrets[0], x, v);
    }
  }

  /** Redacted text that lies inside the secret is raw. */
  lemma {:induction false} RedactedAll(a: string, secrets: seq<string>, x: string, k: nat, v: string)
    requires NonEmpty(secrets) && MarkerEdgeFree(x)
    requires 0 < k && k + |v| < |x| && OccursAt(x, v, k) && v == Redact(a, secrets)
    ensures v == a
    decreases |secrets|
  {
    if secrets != [] {
      RedactedAll(ReplaceAll(a, secrets[0]), secrets[1..], x, k, v);
      RawAll(a, secrets[0], x, k, v);
    }
  }

  /** The secret is not in the emitted text, and whatever start of it ends the emitted text ends the raw text. */
  ghost predicate Guarded(x: string, emitted: string, raw: string) {
    && !Within(x, emitted)
    && forall v: string :: |v| < |x| && v <= x && IsSuffix(v, emitted) ==> IsSuffix(v, raw)
  }

  /** Emitting the redaction of the next piece, up to a cut inside no occurrence, keeps the guard. */
  lemma GuardKept(x: string, emitted: string, raw: string, secrets: seq<string>, piece: string)
    requires NonEmpty(secrets) && x in secrets && FitsNowhere(x) && Guarded(x, emitted, raw)
    requires forall i: nat :: OccursAt(raw + piece, x, i) ==> !Straddles(i, |x|, |raw|)
    ensures Guarded(x, emitted + Redact(piece, secrets), raw + piece)
  {
    var r := Redact(piece, secrets);
    FitsNowhereIsEdgeFree(x);
    if i: nat :| OccursAt(emitted + r, x, i) {
      SecretIsRemoved(piece, secrets, x);
      NotAcross(x, emitted, raw, secrets, piece, r, i);
    }
    forall v: string | |v| < |x| && v <= x && IsSuffix(v, emitted + r) ensures IsSuffix(v, raw + piece) {
      StartStaysRaw(x, emitted, raw, secrets, piece, r, v);
    }
  }

  lemma NotAcross(x: string, emitted: string, raw: string, secrets: seq<string>, piece: string, r: string, i: nat)
    requires NonEmpty(secrets) && x != "" && MarkerEdgeFree(x)
    requires Guarded(x, emitted, raw) && r == Redact(piece, secrets)
    requires !Within(x, r) && forall k: nat :: OccursAt(raw + piece, x, k) ==> !Straddles(k, |x|, |raw|)
    ensures !OccursAt(emitted + r, x, i)
  {
    if OccursAt(emitted + r, x, i) {
      if i >= |emitted| {
        Shifted(emitted, r, x, i);
      } else if i + |x| <= |emitted| {
        OccursInFront(emitted, r, x, i);
      } else {
        var k := AcrossIsRaw(x, emitted, raw, secrets, piece, r, |emitted| - i);
      }
    }
  }

  /** An occurrence from the emitted text into the piece is one from the raw text into the raw piece. */
  lemma AcrossIsRaw(x: string, emitted: string, raw: string, secrets: seq<string>, piece: string, r: string, n: nat)
      returns (k: nat)
    requires NonEmpty(secrets) && MarkerEdgeFree(x) && Guarded(x, emitted, raw) && r == Redact(piece, secrets)
    requires 0 < n < |x| && n <= |emitted| && OccursAt(emitted + r, x, |emitted| - n)
    ensures OccursAt(raw + piece, x, k) && Straddles(k, |x|, |raw|)
  {
    OccursAcross(emitted, r, x, n);
    RedactedPrefix(piece, secrets, x, x[n..]);
    assert IsSuffix(x[..n], raw);
    OccursAcross(raw, piece, x, n);
    k := |raw| - n;
  }

  lemma OccursInFront(a: string, b: string, x: string, i: nat)
    requires OccursAt(a + b, x, i) && i + |x| <= |a|
    ensures OccursAt(a, x, i)
  {
    assert forall k :: 0 <= k < |x| ==> x[k] == (a + b)[i + k];
  }

  lemma StartStaysRaw(
    x: string, emitted: string, raw: string, secrets: seq<string>, piece: string, r: string, v: string)
    requires NonEmpty(secrets) && MarkerEdgeFree(x) && Guarded(x, emitted, raw) && r == Redact(piece, secrets)
    requires |v| < |x| && v <= x && IsSuffix(v, emitted + r)
    ensures IsSuffix(v, raw + piece)
  {
    if |v| <= |r| {
      SuffixOfSecond(v, emitted, r);
      RedactedSuffix(piece, secrets, x, v);
      SuffixOfJoin(v, raw, piece);
    } else {
      var u := SuffixParts(v, emitted, r, x);
      RedactedAll(piece, secrets, x, |u|, r);
      SuffixesJoin(u, raw, r);
    }
  }

  lemma SuffixOfSecond(v: string, a: string, r: string)
    requires IsSuffix(v, a + r) && |v| <= |r|
    ensures IsSuffix(v, r)
  {
    var t := a + r;
    assert forall k :: 0 <= k < |v| ==> v[k] == t[|t| - |v| + k];
  }

  lemma SuffixOfJoin(v: string, a: string, r: string)
    requires IsSuffix(v, r)
    ensures IsSuffix(v, a + r)
  {}

  lemma SuffixParts(v: string, a: string, r: string, x: string) returns (u: string)
    requires IsSuffix(v, a + r) && |r| < |v| < |x| && v <= x
    ensures u != "" && IsSuffix(u, a) && v == u + r && u <= x && |u| + |r| < |x| && OccursAt(x, r, |u|)
  {
    u := v[..|v| - |r|];
    SuffixEnds(v, u, a, r);
    OccursBehind(x, u, r);
  }

  lemma SuffixEnds(v: string, u: string, a: string, r: string)
    requires IsSuffix(v, a + r) && |r| < |v| && u == v[..|v| - |r|]
    ensures IsSuffix(u, a) && v == u + r
  {
    var t := a + r;
    assert forall i :: 0 <= i < |v| ==> v[i] == t[|t| - |v| + i];
  }

  lemma OccursBehind(x: string, u: string, r: string)
    requires u + r <= x
    ensures OccursAt(x, r, |u|)
  {
    assert forall i :: 0 <= i < |r| ==> r[i] == (u + r)[|u| + i];
  }

  lemma SuffixesJoin(u: string, a: string, r: string)
    requires IsSuffix(u, a)
    ensures IsSuffix(u + r, a + r)
  {}

  ghost predicate Held(x: string, secrets: seq<string>, b: Buffered, t: string, n: nat) {
    Pending(secrets, b.pending, t, n) && Guarded(x, b.emitted, t[..n - |b.pending|])
  }

  /** Emitting the text from one clean cut up to the next keeps the guard. */
  lemma GuardMoves(x: string, emitted: string, next: string, secrets: seq<string>, t: string, a: nat, c: nat)
    requires NonEmpty(secrets) && x in secrets && FitsNowhere(x)
    requires a <= c <= |t| && Clean(t, secrets, a) && Guarded(x, emitted, t[..a])
    requires next == emitted + Redact(t[a..c], secrets)
    ensures Guarded(x, next, t[..c])
  {
    var k: nat :| k < |secrets| && secrets[k] == x;
    assert t[..c] == t[..a] + t[a..c];
    CleanInPrefix(t, secrets, a, c);
    forall i: nat | OccursAt(t[..a] + t[a..c], x, i) ensures !Straddles(i, |x|, |t[..a]|) {
      assert OccursAt(t[..c], secrets[k], i);
    }
    GuardKept(x, emitted, t[..a], secrets, t[a..c]);
  }

  lemma FeedKeepsHeld(x: string, secrets: seq<string>, b: Buffered, p: string, t: string, n: nat, a: nat)
    requires NonEmpty(secrets) && x in secrets && FitsNowhere(x) && !Hazard(t, secrets)
    requires Pending(secrets, b.pending, t, n) && a == n - |b.pending| && Guarded(x, b.emitted, t[..a])
    requires n + |p| <= |t| && p == t[n..n + |p|]
    ensures Held(x, secrets, Feed(secrets, b, p), t, n + |p|)
  {
    var c := NextCut(secrets, b, p, t, n, a);
    HeldNext(x, secrets, b.emitted, Feed(secrets, b, p), t, a, c, n + |p|);
  }

  lemma HeldNext(x: string, secrets: seq<string>, emitted: string, next: Buffered, t: string, a: nat, c: nat, e: nat)
    requires NonEmpty(secrets) && x in secrets && FitsNowhere(x) && a <= c <= e <= |t|
    requires Clean(t, secrets, a) && Guarded(x, emitted, t[..a]) && Clean(t, secrets, c)
    requires next == Buffered(emitted + Redact(t[a..c], secrets), t[c..e])
    ensures Held(x, secrets, next, t, e)
  {
    GuardMoves(x, emitted, next.emitted, secrets, t, a, c);
    HeldUpTo(x, secrets, next, t, c, e);
  }

  lemma HeldUpTo(x: string, secrets: seq<string>, b: Buffered, t: string, c: nat, e: nat)
    requires c <= e <= |t| && Clean(t, secrets, c)
    requires b.pending == t[c..e] && Guarded(x, b.emitted, t[..c])
    ensures Held(x, secrets, b, t, e)
  {}

  lemma {:induction false} HeldThroughout(x: string, secrets: seq<string>, chunks: seq<string>, t: string)
    requires NonEmpty(secrets) && x in secrets && FitsNowhere(x)
    requires Concat(chunks) <= t && !Hazard(t, secrets)
    ensures Held(x, secrets, FeedAll(secrets, chunks), t, |Concat(chunks)|)
    decreases |chunks|
  {
    if chunks == [] {
      HeldAtFirst(x, secrets, t);
    } else {
      var before, p, n := LastWrite(secrets, chunks, t);
      HeldThroughout(x, secrets, before, t);
      var b := FeedAll(secrets, before);
      FeedKeepsHeld(x, secrets, b, p, t, n, n - |b.pending|);
    }
  }

  lemma HeldAtFirst(x: string, secrets: seq<string>, t: string)
    requires NonEmpty(secrets) && x in secrets
    ensures Held(x, secrets, Buffered("", ""), t, 0)
  {
    assert x != "";
    assert t[..0] == "" == t[0..0];
    assert Guarded(x, "", "");
  }

  /** A secret that fits nowhere over the marker is streamed by no chunking of a hazard-free text, whatever the
      other secrets are. */
  lemma StreamKeepsSecrets(secrets: seq<string>, chunks: seq<string>, x: string)
    requires NonEmpty(secrets) && x in secrets && FitsNowhere(x) && !Hazard(Concat(chunks), secrets)
    ensures !Within(x, StreamOut(secrets, chunks))
  {
    var t, b := Concat(chunks), FeedAll(secrets, chunks);
    HeldThroughout(x, secrets, chunks, t);
    var a := |t| - |b.pending|;
    assert t[a..|t|] == b.pending;
    GuardMoves(x, b.emitted, Closed(secrets, b), secrets, t, a, |t|);
  }

  // ------------------------------------------- secrets that never cross

  /** `b`, laid from `q` on over the end of `a` and past it, agrees with it. */
  predicate Overlap(a: string, b: string, q: nat) {
    0 < q < |a| < q + |b| && forall k :: q <= k < |a| ==> a[k] == b[k - q]
  }

  /** No secret overlaps the end of itself or of one before it. */
  ghost predicate Separate(secrets: seq<string>) {
    forall i: nat, j: nat, q: nat :: i <= j < |secrets| ==> !Overlap(secrets[i], secrets[j], q)
  }

  ghost predicate NeverHazard(secrets: seq<string>) {
    forall t: string :: !Hazard(t, secrets)
  }

  /** No text has a hazard exactly if no secret overlaps the end of itself or of one before it. */
  lemma NeverHazardExactly(secrets: seq<string>)
    ensures NeverHazard(secrets) <==> Separate(secrets)
  {
    if Separate(secrets) {
      forall t: string ensures !Hazard(t, secrets) { SeparateHasNoHazard(t, secrets); }
    } else {
      var i: nat, j: nat, q: nat :| i <= j < |secrets| && Overlap(secrets[i], secrets[j], q);
      var t := Overlapping(secrets, i, j, q);
    }
  }

  lemma SeparateHasNoHazard(t: string, secrets: seq<string>)
    requires Separate(secrets)
    ensures !Hazard(t, secrets)
  {
    if i: nat, j: nat, p: nat, o: nat :| HazardAt(t, secrets, i, j, p, o) {
      CrossingIsOverlap(t, secrets[i], secrets[j], p, o);
    }
  }

  lemma CrossingIsOverlap(t: string, a: string, b: string, p: nat, o: nat)
    requires OccursAt(t, a, p) && OccursAt(t, b, o) && p < o < p + |a| < o + |b|
    ensures Overlap(a, b, o - p)
  {
    forall k | o - p <= k < |a| ensures a[k] == b[k - (o - p)] { assert a[k] == t[p + k]; }
  }

  lemma Overlapping(secrets: seq<string>, i: nat, j: nat, q: nat) returns (t: string)
    requires i <= j < |secrets| && Overlap(secrets[i], secrets[j], q)
    ensures Hazard(t, secrets)
  {
    var a, b := secrets[i], secrets[j];
    var filler := seq(MaxLen(secrets), _ => ' ');
    t := a + (b[|a| - q..] + filler);
    LaidBehind(a, b, q, filler, t);
    assert HazardAt(t, secrets, i, j, 0, q);
  }

  lemma LaidBehind(a: string, b: string, q: nat, filler: string, t: string)
    requires Overlap(a, b, q) && t == a + (b[|a| - q..] + filler)
    ensures OccursAt(t, a, 0) && OccursAt(t, b, q)
  {
    forall k | 0 <= k < |b| ensures b[k] == t[q + k] {
      if q + k < |a| { assert a[q + k] == b[k]; } else { assert t[q + k] == b[|a| - q..][q + k - |a|]; }
    }
  }

  // ------------------------------------------- one secret: the exact condition

  /** The secret goes on as it began, from `q` on: its end overlaps its start. */
  predicate Border(x: string, q: nat) {
    0 < q < |x| && forall i :: q <= i < |x| ==> Repeats(x, q, i)
  }

  predicate Repeats(x: string, q: nat, i: nat)
    requires q <= i < |x|
  {
    x[i] == x[i - q]
  }

  ghost predicate Borderless(x: string) {
    forall q: nat :: !Border(x, q)
  }

  ghost predicate NeverStreamed(x: string)
    requires x != ""
  {
    forall chunks: seq<string> :: !Within(x, StreamOut([x], chunks))
  }

  /** A secret that fits nowhere over the marker is streamed by no chunking of any text exactly if it does not
      overlap itself. */
  lemma NeverStreamedExactly(x: string)
    requires x != "" && FitsNowhere(x)
    ensures NeverStreamed(x) <==> Borderless(x)
  {
    if Borderless(x) {
      forall chunks: seq<string> ensures !Within(x, StreamOut([x], chunks)) {
        BorderlessIsSeparate(x);
        SeparateHasNoHazard(Concat(chunks), [x]);
        StreamKeepsSecrets([x], chunks, x);
      }
    } else {
      var q: nat :| Border(x, q);
      var chunks := BorderEscapes(x, q);
    }
  }

  lemma BorderlessIsSeparate(x: string)
    requires Borderless(x)
    ensures Separate([x])
  {
    forall q: nat ensures !Overlap(x, x, q) {
      assert !Border(x, q);
      if Overlap(x, x, q) { OverlapIsBorder(x, q); }
    }
  }

  lemma OverlapIsBorder(x: string, q: nat)
    requires Overlap(x, x, q)
    ensures Border(x, q)
  {}

  lemma {:induction false} LeastBorder(x: string, q0: nat) returns (q: nat)
    requires Border(x, q0)
    ensures Border(x, q) && forall r: nat :: r < q ==> !Border(x, r)
    decreases q0
  {
    if r: nat :| r < q0 && Border(x, r) { q := LeastBorder(x, r); } else { q := q0; }
  }

  /** The first `n` characters of the secret, continued as it goes on from the border. */
  function Continued(x: string, q: nat, n: nat): (t: string)
    requires Border(x, q)
    ensures |t| == n
  {
    if n <= |x| then x[..n] else var t := Continued(x, q, n - 1); t + [t[n - 1 - q]]
  }

  lemma {:induction false} ContinuedAt(x: string, q: nat, n: nat, i: nat)
    requires Border(x, q) && i < n
    ensures i < |x| ==> Continued(x, q, n)[i] == x[i]
    ensures q <= i ==> Continued(x, q, n)[i] == Continued(x, q, n)[i - q]
    decreases n
  {
    assert q <= i < |x| ==> Repeats(x, q, i);
    if n > |x| && i < n - 1 { ContinuedAt(x, q, n - 1, i); }
  }

  lemma {:induction false} ContinuedPrefix(x: string, q: nat, n: nat, m: nat)
    requires Border(x, q) && n <= m
    ensures Continued(x, q, n) == Continued(x, q, m)[..n]
    decreases m
  {
    if n < m { ContinuedPrefix(x, q, n, m - 1); }
  }

  lemma ContinuedShifts(x: string, q: nat, n: nat)
    requires Border(x, q)
    ensures Continued(x, q, q + n) == x[..q] + Continued(x, q, n)
  {
    var t, rest := Continued(x, q, q + n), Continued(x, q, n);
    ContinuedPrefix(x, q, n, q + n);
    forall i | 0 <= i < q + n ensures t[i] == (x[..q] + rest)[i] {
      ContinuedAt(x, q, q + n, i);
      if i >= q { assert t[i - q] == t[..n][i - q]; }
    }
  }

  /** What the writes emit: each one the secret up to its border. */
  function Repeated(u: string, m: nat): (r: string)
    ensures u != "" ==> |r| >= m
  {
    if m == 0 then "" else Repeated(u, m - 1) + u
  }

  lemma {:induction false} RepeatedContinues(x: string, q: nat, m: nat, n: nat)
    requires Border(x, q)
    ensures Repeated(x[..q], m) + Continued(x, q, n) == Continued(x, q, |Repeated(x[..q], m)| + n)
    decreases m
  {
    var u := x[..q];
    if m > 0 {
      var r := Repeated(u, m - 1);
      assert (r + u) + Continued(x, q, n) == r + (u + Continued(x, q, n));
      ContinuedShifts(x, q, n);
      RepeatedContinues(x, q, m - 1, q + n);
    }
  }

  /** A write that fills the window emits the secret up to its least border. */
  lemma WindowCut(x: string, q: nat, b: Buffered, p: string, n: nat)
    requires Border(x, q) && forall r: nat :: r < q ==> !Border(x, r)
    requires n == 2 * |x| - 1 && b.pending + p == Continued(x, q, n)
    ensures Feed([x], b, p) == Buffered(b.emitted + x[..q], Continued(x, q, n - q))
  {
    var t, rest := Continued(x, q, n), Continued(x, q, n - q);
    ContinuedShifts(x, q, n - q);
    SecretAtBoth(x, q, t);
    CutAtBorder(x, q, t);
    EmitsStart(x, q, b, p, t, rest);
  }

  lemma SecretAtBoth(x: string, q: nat, t: string)
    requires Border(x, q) && (forall r: nat :: r < q ==> !Border(x, r)) && t == Continued(x, q, 2 * |x| - 1)
    ensures Crossing(t, x, 0, q) && forall i: nat :: 0 < i < q ==> !OccursAt(t, x, i)
  {
    forall k | 0 <= k < |x| ensures x[k] == t[0 + k] == t[q + k] {
      ContinuedAt(x, q, |t|, k);
      ContinuedAt(x, q, |t|, q + k);
    }
    forall i: nat | 0 < i < q ensures !OccursAt(t, x, i) {
      if OccursAt(t, x, i) { CrossingIsBorder(t, x, 0, i); }
    }
  }

  lemma CrossingIsBorder(t: string, x: string, p: nat, o: nat)
    requires Crossing(t, x, p, o)
    ensures Border(x, o - p)
  {
    CrossingIsOverlap(t, x, x, p, o);
    OverlapIsBorder(x, o - p);
  }

  lemma CutAtBorder(x: string, q: nat, t: string)
    requires Crossing(t, x, 0, q) && |t| == 2 * |x| - 1 && forall i: nat :: 0 < i < q ==> !OccursAt(t, x, i)
    ensures Cut([x], t) == q
  {
    FirstWriteSplits(t, x, 0, q);
    assert t[..|t|] == t;
  }

  lemma EmitsStart(x: string, q: nat, b: Buffered, p: string, t: string, rest: string)
    requires 0 < q < |x| && b.pending + p == t && t == x[..q] + rest && Cut([x], t) == q
    ensures Feed([x], b, p) == Buffered(b.emitted + x[..q], rest)
  {
    RedactOne(x[..q], x);
    ReplaceAllShort(x[..q], x);
    FedTo([x], b, p, t, x[..q], rest);
  }

  /** The first write fills the window; each later one fills it again. */
  lemma {:induction false} BorderWrites(x: string, q: nat, m: nat, n: nat, u: string, rest: string)
      returns (chunks: seq<string>, b: Buffered)
    requires Border(x, q) && (forall r: nat :: r < q ==> !Border(x, r)) && n == 2 * |x| - 1
    requires u == x[..q] && rest == Continued(x, q, n - q)
    ensures b == FeedAll([x], chunks) && b == Buffered(Repeated(u, m + 1), rest)
    decreases m
  {
    if m == 0 {
      chunks, b := FirstWrite(x, q, n);
    } else {
      chunks, b := BorderWrites(x, q, m - 1, n, u, rest);
      chunks, b := NextWrite(x, q, n, chunks, b, u);
    }
  }

  lemma FirstWrite(x: string, q: nat, n: nat) returns (chunks: seq<string>, b: Buffered)
    requires Border(x, q) && forall r: nat :: r < q ==> !Border(x, r)
    requires n == 2 * |x| - 1
    ensures b == FeedAll([x], chunks)
    ensures b.emitted == Repeated(x[..q], 1) && b.pending == Continued(x, q, n - q)
  {
    var window := Continued(x, q, n);
    assert "" + window == window;
    WindowCut(x, q, Buffered("", ""), window, n);
    FedAfter([x], [], window);
    RepeatedOnce(x[..q]);
    chunks := [window];
    b := FeedAll([x], chunks);
  }

  lemma NextWrite(x: string, q: nat, n: nat, before: seq<string>, b: Buffered, u: string)
      returns (chunks: seq<string>, next: Buffered)
    requires Border(x, q) && forall r: nat :: r < q ==> !Border(x, r)
    requires n == 2 * |x| - 1 && b == FeedAll([x], before) && b.pending == Continued(x, q, n - q) && u == x[..q]
    ensures next == FeedAll([x], chunks) && next == Buffered(b.emitted + u, b.pending)
  {
    var window := Continued(x, q, n);
    var p := window[n - q..];
    ContinuedPrefix(x, q, n - q, n);
    Parted(window, n - q);
    WindowCut(x, q, b, p, n);
    FedAfter([x], before, p);
    chunks := before + [p];
    next := FeedAll([x], chunks);
  }

  lemma Parted(t: string, n: nat)
    requires n <= |t|
    ensures t[..n] + t[n..] == t
  {}

  lemma RepeatedOnce(u: string)
    ensures Repeated(u, 1) == "" + u
  {
    assert Repeated(u, 0) == "";
  }

  lemma FedAfter(secrets: seq<string>, before: seq<string>, p: string)
    requires NonEmpty(secrets)
    ensures FeedAll(secrets, before + [p]) == Feed(secrets, FeedAll(secrets, before), p)
    ensures |Concat(before + [p])| == |Concat(before)| + |p|
    ensures FeedAll(secrets, []) == Buffered("", "") && [] + [p] == [p]
  {
    assert (before + [p])[..|before|] == before;
  }

  lemma SecretInRepeated(x: string, q: nat, m: nat)
    requires Border(x, q) && |x| <= m
    ensures OccursAt(Repeated(x[..q], m), x, 0)
  {
    var r := Repeated(x[..q], m);
    RepeatedContinues(x, q, m, 0);
    assert r + Continued(x, q, 0) == r;
    forall k | 0 <= k < |x| ensures x[k] == r[0 + k] { ContinuedAt(x, q, |r|, k); }
  }

  /** A secret that overlaps itself is streamed whole, start by start, by enough writes. */
  lemma BorderEscapes(x: string, q0: nat) returns (chunks: seq<string>)
    requires Border(x, q0)
    ensures Within(x, StreamOut([x], chunks))
  {
    var q := LeastBorder(x, q0);
    var b: Buffered;
    chunks, b := BorderWrites(x, q, |x|, 2 * |x| - 1, x[..q], Continued(x, q, 2 * |x| - 1 - q));
    SecretInRepeated(x, q, |x| + 1);
    StreamedOnceEmitted(x, b, chunks);
  }

  lemma StreamedOnceEmitted(x: string, b: Buffered, chunks: seq<string>)
    requires x != "" && b == FeedAll([x], chunks) && OccursAt(b.emitted, x, 0)
    ensures Within(x, StreamOut([x], chunks))
  {
    OccursStill(b.emitted, Redact(b.pending, [x]), x);
  }

  lemma OccursStill(a: string, b: string, x: string)
    requires OccursAt(a, x, 0)
    ensures Within(x, a + b)
  {
    assert OccursAt(a + b, x, 0);
  }
}
