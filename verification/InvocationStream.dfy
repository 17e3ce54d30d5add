/** `invocationStream`: the buffered writer itself, proved against the functions of `Redaction`.

The mutex makes each method atomic, so methods are modelled as sequential.  Writes to the
output file are taken to succeed; the source ignores their errors too. */
module InvocationStreams {
  import opened Text
  import opened Redaction
  import opened Secrecy

  const DEFAULT_LIMIT: nat := 2 * 1024 * 1024

  /** No occurrence before `to`: the search loop may start there. */
  lemma {:induction false} CutOneSkips(data: string, s: string, cut: nat, at: nat, to: nat)
    requires s != "" && at <= to && forall i: nat :: at <= i < to ==> !OccursAt(data, s, i)
    ensures CutOne(data, s, cut, at) == CutOne(data, s, cut, to)
    decreases |data| - at
  {
    if at < to && at + |s| <= |data| {
      CutOneSkips(data, s, cut, at + 1, to);
    }
  }

  lemma {:induction false} CutOneNone(data: string, s: string, cut: nat, at: nat)
    requires s != "" && forall i: nat :: at <= i ==> !OccursAt(data, s, i)
    ensures CutOne(data, s, cut, at) == cut
    decreases |data| - at
  {
    if at + |s| <= |data| {
      CutOneNone(data, s, cut, at + 1);
    }
  }

  method SafeRedactionCut(secrets: seq<string>, data: string, cut0: nat) returns (cut: nat)
    requires NonEmpty(secrets)
    ensures cut == SafeCut(data, secrets, |secrets|, cut0)
  {
    cut := cut0;
    for k := 0 to |secrets|
      invariant cut == SafeCut(data, secrets, k, cut0)
    {
      var secret := secrets[k];
      var searchAt := 0;
      ghost var before := cut;
      while true
        invariant 0 <= searchAt && CutOne(data, secret, before, 0) == CutOne(data, secret, cut, searchAt)
        decreases |data| - searchAt
      {
        var index := IndexFrom(data, secret, searchAt);
        IndexIsFirst(data, secret, searchAt);
        if index < 0 {
          CutOneNone(data, secret, cut, searchAt);
          break;
        }
        CutOneSkips(data, secret, cut, searchAt, index);
        if index < cut && index + |secret| > cut {
          cut := index;
        }
        searchAt := index + 1;
      }
    }
  }

  method RedactKnownSecrets(text0: string, secrets: seq<string>) returns (text: string)
    requires NonEmpty(secrets)
    ensures text == Redact(text0, secrets)
  {
    text := text0;
    for k := 0 to |secrets|
      invariant Redact(text0, secrets) == Redact(text, secrets[k..])
    {
      assert secrets[k..][0] == secrets[k] && secrets[k..][1..] == secrets[k + 1..];
      text := ReplaceAll(text, secrets[k]);
    }
  }

  lemma TakeAppend(x: string, y: string, n: nat)
    ensures Take(x + y, n) == Take(x, n) + Take(y, if |x| <= n then n - |x| else 0)
  {}

  lemma NothingReleased(secrets: seq<string>, b: Buffered, p: string)
    requires NonEmpty(secrets) && Cut(secrets, b.pending + p) == 0
    ensures Feed(secrets, b, p).emitted == b.emitted
  {
    RedactEmpty(secrets);
    assert (b.pending + p)[..0] == "";
  }

  class InvocationStream {
    const secrets: seq<string>
    const maxSecret: nat
    const limit: nat
    var pending: string
    var buffer: string
    var file: string
    var received: nat
    var written: nat
    var exceeded: bool
    var closed: bool
    ghost var chunks: seq<string>
    ghost var emitted: string

    ghost predicate Valid()
      reads this
    {
      && NonEmpty(secrets) && maxSecret == MaxLen(secrets) && limit > 0
      && Bounded()
      && received == |Concat(chunks)|
      && if closed then emitted == StreamOut(secrets, chunks)
         else Buffered(emitted, pending) == FeedAll(secrets, chunks)
    }

    /** The output is the first `limit` characters of what was emitted. */
    ghost predicate Bounded()
      reads this
    {
      buffer == file == Take(emitted, limit) && written == |buffer| && (exceeded <==> |emitted| > limit)
    }

    constructor (limit: int, secrets: seq<string>)
      requires NonEmpty(secrets)
      ensures Valid() && !closed && chunks == [] && this.secrets == secrets
      ensures this.limit == if limit <= 0 then DEFAULT_LIMIT else limit
    {
      this.limit := if limit <= 0 then DEFAULT_LIMIT else limit;
      this.secrets := secrets;
      this.maxSecret := MaxLen(secrets);
      pending, buffer, file, received, written, exceeded, closed := "", "", "", 0, 0, false, false;
      chunks, emitted := [], "";
    }

    /** Appends to the output, up to the limit. */
    method Persist(text: string)
      requires Bounded()
      modifies this`buffer, this`file, this`written, this`exceeded, this`emitted
      ensures emitted == old(emitted) + text && Bounded()
    {
      TakeAppend(emitted, text, limit);
      emitted := emitted + text;
      if text == "" { return; }
      var remaining := limit - written;
      if remaining <= 0 {
        exceeded := true;
        return;
      }
      var data := text;
      if |data| > remaining {
        data := data[..remaining];
        exceeded := true;
      }
      file := file + data;
      buffer := buffer + data;
      written := written + |data|;
    }

    /** A write to a closed stream is refused; any other write is taken whole. */
    method Write(p: string) returns (n: nat, ok: bool)
      requires Valid()
      modifies this
      ensures Valid() && closed == old(closed) && ok == !closed
      ensures ok ==> n == |p| && chunks == old(chunks) + [p] && HeldBack(secrets, pending)
      ensures !ok ==> n == 0 && chunks == old(chunks) && buffer == old(buffer) && exceeded == old(exceeded)
    {
      if closed { return 0, false; }
      received := received + |p|;
      FedAfter(secrets, chunks, p);
      Release(p);
      chunks := chunks + [p];
      return |p|, true;
    }

    /** Puts out what is before the cut and keeps the rest. */
    method Release(p: string)
      requires NonEmpty(secrets) && maxSecret == MaxLen(secrets) && Bounded()
      modifies this`pending, this`buffer, this`file, this`written, this`exceeded, this`emitted
      ensures Bounded() && Buffered(emitted, pending) == Feed(secrets, Buffered(old(emitted), old(pending)), p)
      ensures HeldBack(secrets, pending)
    {
      var combined := pending + p;
      CutHoldsBack(secrets, combined);
      var cut := ChooseCut(combined);
      if cut > 0 {
        var text := RedactKnownSecrets(combined[..cut], secrets);
        Persist(text);
      } else {
        NothingReleased(secrets, Buffered(emitted, pending), p);
      }
      pending := combined[cut..];
    }

    /** Holds back a possible start of a secret, then avoids the matches it can see. */
    method ChooseCut(combined: string) returns (cut: nat)
      requires NonEmpty(secrets) && maxSecret == MaxLen(secrets)
      ensures cut == Cut(secrets, combined)
    {
      cut := |combined|;
      if maxSecret > 1 && cut >= maxSecret {
        cut := cut - (maxSecret - 1);
      } else if maxSecret > 1 {
        cut := 0;
      }
      cut := SafeRedactionCut(secrets, combined, cut);
    }

    /** Closing twice is closing once; the output is then the first `limit` characters streamed. */
    method Close()
      requires Valid()
      modifies this
      ensures Valid() && closed && chunks == old(chunks)
      ensures buffer == file == Take(StreamOut(secrets, chunks), limit)
      ensures old(closed) ==> buffer == old(buffer) && exceeded == old(exceeded)
    {
      if closed { return; }
      if |pending| > 0 {
        var text := RedactKnownSecrets(pending, secrets);
        Persist(text);
        pending := "";
      } else {
        RedactEmpty(secrets);
      }
      closed := true;
    }

    method Exceeded() returns (b: bool)
      requires Valid()
      ensures b <==> |emitted| > limit || |Concat(chunks)| > limit
    {
      b := exceeded || received > limit;
    }
  }

  /** The stream's whole life: open, one write per chunk, close. */
  method Record(limit: nat, secrets: seq<string>, chunks: seq<string>) returns (out: string)
    requires NonEmpty(secrets) && limit > 0
    ensures out == Take(StreamOut(secrets, chunks), limit)
    ensures EdgesFree(secrets) && !Hazard(Concat(chunks), secrets)
      ==> out == Take(Redact(Concat(chunks), secrets), limit)
    ensures !Hazard(Concat(chunks), secrets) ==> forall x :: x in secrets && FitsNowhere(x) ==> !Within(x, out)
  {
    var s := new InvocationStream(limit, secrets);
    for k := 0 to |chunks|
      invariant s.Valid() && !s.closed && s.chunks == chunks[..k] && s.secrets == secrets && s.limit == limit
      invariant fresh(s)
    {
      var _, _ := s.Write(chunks[k]);
      assert chunks[..k] + [chunks[k]] == chunks[..k + 1];
    }
    assert chunks[..|chunks|] == chunks;
    s.Close();
    out := s.buffer;
    if !Hazard(Concat(chunks), secrets) {
      if EdgesFree(secrets) { StreamRefinesWhole(secrets, chunks); }
      forall x | x in secrets && FitsNowhere(x) ensures !Within(x, out) {
        StreamKeepsSecrets(secrets, chunks, x);
        TakeIsWithin(StreamOut(secrets, chunks), limit, x);
      }
    }
  }

  lemma TakeIsWithin(t: string, n: nat, x: string)
    ensures Within(x, Take(t, n)) ==> Within(x, t)
  {
    if |t| > n {
      SliceIsWithin(t, 0, n);
      assert t[0..n] == t[..n];
      if Within(x, t[..n]) { WithinTransitive(x, t[..n], t); }
    }
  }

  // ------------------------------------------ the hypotheses cannot be dropped

  /** A secret that overlaps itself: the first write is cut inside its own match. */
  lemma SelfOverlapIsSplit()
    ensures StreamOut(["aa"], ["aaa"]) == "a" + MARKER
    ensures Redact("aaa", ["aa"]) == MARKER + "a"
  {
    var s, t := "aa", "aaa";
    OneChunk([s], t);
    CutInside(t, s);
    RedactOne("a", s);
    RedactOne("aa", s);
    RedactOne(t, s);
    Replacements();
    assert t[..1] == "a" && t[1..] == s;
  }

  /** A second write emits the rest of the secret whose start the first one emitted. */
  lemma SelfOverlapEscapes()
    ensures StreamOut(["aa"], ["aaa", "a"]) == "aa" + MARKER
  {
    EscapesInTwo("aa", "aaa", "a");
  }

  lemma EscapesInTwo(s: string, t: string, u: string)
    requires s == "aa" && t == "aaa" && u == "a"
    ensures StreamOut([s], [t, u]) == s + MARKER
  {
    var chunks := TwoChunks(t, u, s);
    var b := AfterBoth(s, t, u);
    EndsInMarker(b, s);
  }

  lemma AfterBoth(s: string, t: string, u: string) returns (b: Buffered)
    requires s == "aa" && t == "aaa" && u == "a"
    ensures b == Feed([s], Feed([s], Buffered("", ""), t), u) && b.emitted == b.pending == s
  {
    b := EmitsOne(Buffered("", ""), t, s, t, u);
    b := EmitsOne(b, u, s, t, u);
    assert ("" + u) + u == s;
  }

  lemma EndsInMarker(b: Buffered, s: string)
    requires s != "" && b.pending == s
    ensures Closed([s], b) == b.emitted + MARKER
  {
    RedactOne(s, s);
    ReplaceAllStep(s, s);
    ReplaceAllShort(s[|s|..], s);
  }

  lemma EmitsOne(b: Buffered, p: string, s: string, t: string, u: string) returns (next: Buffered)
    requires s == "aa" && t == "aaa" && u == "a" && b.pending + p == t
    ensures next == Feed([s], b, p) && next.emitted == b.emitted + u && next.pending == s
  {
    CutInside(t, s);
    assert s[..1] == u && t == u + s;
    EmitsStart(s, 1, b, p, t, s);
    next := Feed([s], b, p);
  }

  lemma CutInside(t: string, s: string)
    requires s == "aa" && t == "aaa"
    ensures Cut([s], t) == 1
  {
    CutOneFirst(t, s, 2, 0, 1);
    assert SafeCut(t, [s], 0, 2) == 2;
  }

  /** Secrets that overlap one another: each moves the cut back once, and the last one into a secret that
      was passed before.  That secret reaches the output whole. */
  lemma WholeSecretEscapes()
    ensures
      var secrets := ["abcd", "efgh", "cdef"];
      && StreamOut(secrets, ["abcdefgh"]) == "abcd" + MARKER
      && Redact("abcdefgh", secrets) == MARKER + MARKER
  {
    var t, s0, s1, s2 := "abcdefgh", "abcd", "efgh", "cdef";
    var secrets := [s0, s1, s2];
    CutTwice(t, s0, s1, s2);
    OneChunk(secrets, t);
    Pieces("ab", "cd", s0, s1, s2);
    TwoParts(t, "ab", "cd", s0, s1, MARKER);
  }

  lemma TwoParts(t: string, a: string, b: string, s0: string, s1: string, m: string)
    requires t == "abcdefgh" && a == "ab" && b == "cd" && s0 == "abcd" && s1 == "efgh"
    ensures t[..2] == a && t[2..] == b + s1 && t == s0 + s1 && a + (b + m) == s0 + m
  {
    assert s0 == a + b;
  }

  lemma Pieces(a: string, b: string, s0: string, s1: string, s2: string)
    requires a == "ab" && b == "cd" && s0 == "abcd" && s1 == "efgh" && s2 == "cdef"
    ensures
      var secrets := [s0, s1, s2];
      && Redact(a, secrets) == a && Redact(b + s1, secrets) == b + MARKER
      && Redact(s0 + s1, secrets) == MARKER + MARKER
  {
    ThreeSecrets(a, s0, s1, s2);
    ThreeSecrets(b + s1, s0, s1, s2);
    ThreeSecrets(s0 + s1, s0, s1, s2);
    ShortStays(a, s0, s1, s2);
    LastMatches(b, s0, s1, s2);
    BothMatch(s0, s1, s2);
  }

  lemma LastMatches(head: string, s0: string, s1: string, s2: string)
    requires head == "cd" && s0 == "abcd" && s1 == "efgh" && s2 == "cdef"
    ensures ReplaceAll(ReplaceAll(ReplaceAll(head + s1, s0), s1), s2) == head + MARKER
  {
    FirstIsMissing(head + s1, s0);
    FirstIsMissing(head, s1);
    WholeMatch(head, s1);
    var t := head + MARKER;
    forall i: nat ensures !OccursAt(t, s2, i) {
      if OccursAt(t, s2, i) { TwoChars(t, s2, i); }
    }
    NothingToReplace(t, s2);
  }

  lemma TwoChars(t: string, s: string, i: nat)
    requires OccursAt(t, s, i) && |s| > 2
    ensures t[i] == s[0] && t[i + 2] == s[2]
  {}

  lemma BothMatch(s0: string, s1: string, s2: string)
    requires s0 == "abcd" && s1 == "efgh" && s2 == "cdef"
    ensures ReplaceAll(ReplaceAll(ReplaceAll(s0 + s1, s0), s1), s2) == MARKER + MARKER
  {
    var m := MARKER;
    assert s0[0] !in s1 && s1[0] !in m && s2[0] !in m;
    FrontMatch(s0, s1);
    FirstIsMissing(m, s1);
    WholeMatch(m, s1);
    TwiceMissing(m, s2);
  }

  lemma TwiceMissing(m: string, s: string)
    requires s != "" && s[0] !in m
    ensures ReplaceAll(m + m, s) == m + m
  {
    FirstIsMissing(m + m, s);
  }

  /** A match right behind text that has nothing of it. */
  lemma WholeMatch(head: string, s: string)
    requires s != "" && s[0] !in head && ReplaceAll(head, s) == head
    ensures ReplaceAll(head + s, s) == head + MARKER
  {
    forall i: nat | OccursAt(head + s, s, i) ensures !Straddles(i, |s|, |head|) { assert s[0] == (head + s)[i + 0]; }
    ReplaceAllSplits(head, s, s);
    FrontMatch(s, "");
    assert s + "" == s;
  }

  lemma FrontMatch(s: string, rest: string)
    requires s != "" && |rest| <= |s| && (rest == "" || s[0] !in rest)
    ensures ReplaceAll(s + rest, s) == MARKER + rest
  {
    assert (s + rest)[|s|..] == rest;
    if rest != "" { FirstIsMissing(rest, s); }
  }

  lemma CutTwice(t: string, s0: string, s1: string, s2: string)
    requires t == "abcdefgh" && s0 == "abcd" && s1 == "efgh" && s2 == "cdef"
    ensures Cut([s0, s1, s2], t) == 2
  {
    var secrets := [s0, s1, s2];
    OnlyAt(t, s0, 0);
    OnlyAt(t, s1, 4);
    OnlyAt(t, s2, 2);
    assert MaxLen(secrets) == 4;
    CutOneClear(t, s0, 5);
    CutOneFirst(t, s1, 5, 0, 4);
    CutOneFirst(t, s2, 4, 0, 2);
    assert SafeCut(t, secrets, 0, 5) == 5;
    assert SafeCut(t, secrets, 1, 5) == 5;
    assert SafeCut(t, secrets, 2, 5) == 4;
  }

  /** No character of the text occurs twice in it. */
  lemma OnlyAt(t: string, s: string, at: nat)
    requires t == "abcdefgh" && s != "" && at < |t| && s[0] == t[at]
    ensures forall o: nat :: OccursAt(t, s, o) ==> o == at
  {
    forall o: nat | OccursAt(t, s, o) ensures o == at { assert s[0] == t[o + 0]; }
  }

  lemma ThreeSecrets(t: string, s0: string, s1: string, s2: string)
    requires s0 != "" && s1 != "" && s2 != ""
    ensures Redact(t, [s0, s1, s2]) == ReplaceAll(ReplaceAll(ReplaceAll(t, s0), s1), s2)
  {
    assert [s0, s1, s2][1..] == [s1, s2];
    TwoSecrets(ReplaceAll(t, s0), s1, s2);
  }

  lemma ShortStays(t: string, s0: string, s1: string, s2: string)
    requires |t| < |s0| && |t| < |s1| && |t| < |s2|
    ensures ReplaceAll(ReplaceAll(ReplaceAll(t, s0), s1), s2) == t
  {
    ReplaceAllShort(t, s0);
    ReplaceAllShort(t, s1);
    ReplaceAllShort(t, s2);
  }

  lemma OneChunk(secrets: seq<string>, t: string)
    requires NonEmpty(secrets)
    ensures var c := Cut(secrets, t);
      StreamOut(secrets, [t]) == Redact(t[..c], secrets) + Redact(t[c..], secrets)
  {
    var b, c := Buffered("", ""), Cut(secrets, t);
    assert "" + t == t;
    FedTo(secrets, b, t, t, t[..c], t[c..]);
    FedAfter(secrets, [], t);
    ClosedAt(secrets, FeedAll(secrets, [t]), t[..c], t[c..]);
  }

  lemma ClosedAt(secrets: seq<string>, b: Buffered, head: string, tail: string)
    requires NonEmpty(secrets) && b == Buffered("" + Redact(head, secrets), tail)
    ensures Closed(secrets, b) == Redact(head, secrets) + Redact(tail, secrets)
  {}

  lemma Replacements()
    ensures ReplaceAll("a", "aa") == "a" && ReplaceAll("aa", "aa") == MARKER
    ensures ReplaceAll("aaa", "aa") == MARKER + "a"
  {
    assert "aa"[2..] == "" && "aaa"[2..] == "a";
  }

  /** A secret that overlaps the end of the marker: the streamed form cannot see the marker that
      the whole-text form has just put there. */
  lemma MarkerOverlapIsMissed()
    ensures var secrets := ["ab", "]x"];
      && !Hazard("abx", secrets)
      && StreamOut(secrets, ["abx"]) == MARKER + "x"
      && Redact("abx", secrets) == MARKER[..9] + MARKER
  {
    var t, s0, s1 := "abx", "ab", "]x";
    CutBeforeX(t, s0, s1);
    OneChunk([s0, s1], t);
    assert t[..2] == s0 && t[2..] == "x";
    TwoSecrets(s0, s0, s1);
    TwoSecrets("x", s0, s1);
    TwoSecrets(t, s0, s1);
    MoreReplacements();
    InTheMarker(s1);
  }

  lemma InTheMarker(s1: string)
    requires s1 == "]x"
    ensures ReplaceAll(MARKER, s1) == MARKER
    ensures ReplaceAll(MARKER + "x", s1) == MARKER[..9] + MARKER
  {
    var head := MARKER[..9];
    MatchAtEnd(head, s1);
    assert MARKER == head + "]" && MARKER + "x" == head + s1;
  }

  lemma CutBeforeX(t: string, s0: string, s1: string)
    requires t == "abx" && s0 == "ab" && s1 == "]x"
    ensures Cut([s0, s1], t) == 2 && !Hazard(t, [s0, s1])
  {
    var secrets := [s0, s1];
    forall o: nat ensures !OccursAt(t, s1, o) { assert s1[0] == ']'; }
    forall o: nat | OccursAt(t, s0, o) ensures o == 0 { assert s0[0] == 'a'; }
    assert secrets[..1] == [s0] && MaxLen([s0]) == 2;
    CutOneClear(t, s0, 2);
    CutOneNone(t, s1, 2, 0);
    assert SafeCut(t, secrets, 0, 2) == 2;
    assert SafeCut(t, secrets, 1, 2) == 2;
  }

  lemma CutOneClear(t: string, s: string, cut: nat)
    requires s != "" && forall o: nat :: OccursAt(t, s, o) ==> !Straddles(o, |s|, cut)
    ensures CutOne(t, s, cut, 0) == cut
  {
    CutOneClearFrom(t, s, cut, 0);
  }

  lemma {:induction false} CutOneClearFrom(t: string, s: string, cut: nat, at: nat)
    requires s != "" && forall o: nat :: OccursAt(t, s, o) ==> !Straddles(o, |s|, cut)
    ensures CutOne(t, s, cut, at) == cut
    decreases |t| - at
  {
    if at + |s| <= |t| {
      CutOneClearFrom(t, s, cut, at + 1);
    }
  }

  lemma TwoSecrets(t: string, s0: string, s1: string)
    requires s0 != "" && s1 != ""
    ensures Redact(t, [s0, s1]) == ReplaceAll(ReplaceAll(t, s0), s1)
  {
    assert [s0, s1][1..] == [s1];
    RedactOne(ReplaceAll(t, s0), s1);
  }

  lemma MoreReplacements()
    ensures ReplaceAll("ab", "ab") == MARKER && ReplaceAll("x", "ab") == "x" == ReplaceAll("x", "]x")
    ensures ReplaceAll("abx", "ab") == MARKER + "x"
  {
    assert "ab"[2..] == "" && "abx"[2..] == "x";
  }

  /** Text whose only match is at its end. */
  lemma MatchAtEnd(head: string, s: string)
    requires s == "]x" && forall k :: 0 <= k < |head| ==> head[k] !in s
    ensures ReplaceAll(head + "]", s) == head + "]"
    ensures ReplaceAll(head + s, s) == head + MARKER
  {
    assert s[0] == ']' && s[1] == 'x';
    NothingToReplace(head + "]", s);
    NothingToReplace(head, s);
    ReplaceAllSplits(head, s, s);
    assert s[2..] == "" && ReplaceAll("", s) == "";
  }
}
