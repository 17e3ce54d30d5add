/** Which objects the candidate search finds in a reply: all of them, in order, up to its limits. */
module JsonSearch {
  import opened Text
  import opened EmbeddedJson

  /** The distinct objects in order, of the first `looks`, up to the eighth. */
  function Firsts(objects: seq<string>, looks: nat, found: seq<string>): seq<string>
    decreases |objects|
  {
    if objects == [] || looks == 0 || |found| >= 8 then found
    else Firsts(objects[1..], looks - 1, WithNew(found, objects[0]))
  }

  function WithNew(found: seq<string>, o: string): seq<string> { if o in found then found else found + [o] }

  lemma Rest(text: string, from: nat, a: string, b: string)
    requires from <= |text| && text[from..] == a + b
    ensures OccursAt(text, a, from) && from + |a| <= |text| && text[from + |a|..] == b
  {
    assert forall k :: 0 <= k < |a| ==> a[k] == text[from..][k];
    assert text[from + |a|..] == text[from..][|a|..];
  }

  // ------------------------------------------------------------- objects in prose

  /** An object with the prose before it. */
  datatype Piece = Piece(prose: string, value: Json)

  predicate IsPiece(p: Piece) { '{' !in p.prose && Legal(p.value) && p.value.Object? }

  predicate ArePieces(ps: seq<Piece>) { forall k :: 0 <= k < |ps| ==> IsPiece(ps[k]) }

  function Spread(ps: seq<Piece>, tail: string): string {
    if ps == [] then tail else ps[0].prose + (Print(ps[0].value) + Spread(ps[1..], tail))
  }

  function Printed(ps: seq<Piece>): seq<string> {
    if ps == [] then [] else [Print(ps[0].value)] + Printed(ps[1..])
  }

  lemma {:induction false} FirstBrace(text: string, from: nat, prose: string)
    requires OccursAt(text, prose, from) && '{' !in prose
    ensures from + |prose| == |text| ==> IndexByteFrom(text, '{', from) == -1
    ensures from + |prose| < |text| && text[from + |prose|] == '{' ==>
      IndexByteFrom(text, '{', from) == from + |prose|
    decreases |prose|
  {
    if prose != "" {
      assert prose[0] == text[from] && prose[0] in prose;
      assert OccursAt(text, prose[1..], from + 1);
      FirstBrace(text, from + 1, prose[1..]);
    }
  }

  /** The next object stands behind its prose, and closes there. */
  lemma NextObject(text: string, from: nat, p: Piece, o: string, after: string) returns (i: nat, n: nat)
    requires from <= |text| && IsPiece(p) && o == Print(p.value) && text[from..] == p.prose + (o + after)
    ensures IndexByteFrom(text, '{', from) == i && i < n <= |text| && Closing(text, i, Out(0)) == n
    ensures text[i..n] == o && text[n..] == after && Trim(o) == o && o != ""
  {
    i, n := Positions(text, from, p.prose, o, after);
    PrintedObject(p.value);
    FirstBrace(text, from, p.prose);
    ClosingOfObject(text, i, o);
    ObjectEdges(o, text, i, n);
    TrimOfTrimmed(o);
  }

  lemma Positions(text: string, from: nat, prose: string, o: string, after: string) returns (i: nat, n: nat)
    requires from <= |text| && text[from..] == prose + (o + after)
    ensures i == from + |prose| && n == i + |o| && n <= |text| && OccursAt(text, prose, from) && OccursAt(text, o, i)
    ensures text[i..n] == o && text[n..] == after && (o != "" ==> text[i] == o[0])
  {
    i := from + |prose|;
    n := i + |o|;
    Rest(text, from, prose, o + after);
    Rest(text, i, o, after);
    SliceThere(text, o, i);
  }

  /** An object begins and ends with a brace. */
  lemma ObjectEdges(o: string, text: string, i: nat, n: nat)
    requires i < n <= |text| && text[i] == '{' && Closing(text, i, Out(0)) == n && o == text[i..n]
    ensures o != "" && !IsSpace(o[0]) && !IsSpace(o[|o| - 1])
  {
    ObjectAt(text, i, n);
  }

  lemma SliceThere(text: string, o: string, i: nat)
    requires OccursAt(text, o, i)
    ensures text[i..i + |o|] == o && (o != "" ==> text[i] == o[0])
  {}

  /** Where the objects are, and that nothing but them opens a brace from `from` on. */
  datatype Place = Place(i: nat, n: nat, o: string)

  predicate IsNext(text: string, from: nat, p: Place) {
    && from <= |text| && IndexByteFrom(text, '{', from) == p.i && p.i < p.n <= |text|
    && Closing(text, p.i, Out(0)) == p.n && text[p.i..p.n] == p.o && Trim(p.o) == p.o && p.o != ""
  }

  predicate AreNext(text: string, from: nat, places: seq<Place>)
    decreases |places|
  {
    if places == [] then IndexByteFrom(text, '{', from) == -1
    else IsNext(text, from, places[0]) && AreNext(text, places[0].n, places[1..])
  }

  function Objects(places: seq<Place>): seq<string> {
    if places == [] then [] else [places[0].o] + Objects(places[1..])
  }

  lemma {:induction false} ObjectsAreNext(text: string, from: nat, ps: seq<Piece>, tail: string, left: string)
      returns (places: seq<Place>)
    requires from <= |text| && text[from..] == left && left == Spread(ps, tail) && ArePieces(ps) && '{' !in tail
    ensures AreNext(text, from, places) && Objects(places) == Printed(ps)
    decreases |ps|
  {
    if ps == [] {
      NothingLeft(text, from, tail);
      places := [];
    } else {
      var o, after := Print(ps[0].value), Spread(ps[1..], tail);
      var i, n := NextObject(text, from, ps[0], o, after);
      places := ObjectsAreNext(text, n, ps[1..], tail, after);
      places := NextComesFirst(text, from, Place(i, n, o), places);
    }
  }

  lemma NextComesFirst(text: string, from: nat, p: Place, later: seq<Place>) returns (places: seq<Place>)
    requires IsNext(text, from, p) && AreNext(text, p.n, later)
    ensures AreNext(text, from, places) && Objects(places) == [p.o] + Objects(later)
  {
    places := [p] + later;
    assert places[1..] == later;
  }

  /** The search takes them in order. */
  lemma {:induction false} NextAreTaken(
    text: string, from: nat, places: seq<Place>, attempts: nat, looks: nat, found: seq<string>)
    requires AreNext(text, from, places) && attempts + looks == 64 && |found| < 8
    ensures BracePass(text, from, attempts, found) == Firsts(Objects(places), looks, found)
    decreases |places|
  {
    if places != [] && looks > 0 {
      var p, later := places[0], places[1..];
      var more := WithNew(found, p.o);
      TakenAt(text, from, p, attempts, found, more);
      FirstsStep(p.o, Objects(later), Objects(places), looks, found, more);
      if |more| < 8 { NextAreTaken(text, p.n, later, attempts + 1, looks - 1, more); }
    }
  }

  lemma TakenAt(text: string, from: nat, p: Place, attempts: nat, found: seq<string>, more: seq<string>)
    requires IsNext(text, from, p) && more == WithNew(found, p.o) && attempts < 64
    ensures BracePass(text, from, attempts, found) ==
      if |more| >= 8 then more else BracePass(text, p.n, attempts + 1, more)
  {}

  lemma FirstsStep(
    o: string, rest: seq<string>, all: seq<string>, looks: nat, found: seq<string>, more: seq<string>)
    requires all == [o] + rest && |found| < 8 && looks > 0 && more == WithNew(found, o)
    ensures Firsts(all, looks, found) == if |more| >= 8 then more else Firsts(rest, looks - 1, more)
  {
    assert all[1..] == rest;
  }

  /** In a reply without fences, objects with prose around them that opens no brace: the candidates are exactly the
      first sixty-four of these objects, in order and without repetition, up to the eighth. */
  lemma EveryObjectIsFound(ps: seq<Piece>, tail: string, text: string)
    requires ArePieces(ps) && '{' !in tail && text == Spread(ps, tail) && Index(text, FENCE) == -1
    ensures Candidates(text) == Firsts(Printed(ps), 64, [])
  {
    FenceIsIndex(text, 0);
    assert FencePass(text, 0, []) == [];
    assert text[0..] == text;
    var places := ObjectsAreNext(text, 0, ps, tail, text);
    NextAreTaken(text, 0, places, 0, 64, []);
  }

  lemma NothingLeft(text: string, from: nat, tail: string)
    requires from <= |text| && text[from..] == tail
    ensures '{' !in tail ==> IndexByteFrom(text, '{', from) == -1
    ensures '`' !in tail ==> FenceFrom(text, from) == -1
  {
    assert tail == tail + "";
    Rest(text, from, tail, "");
    if '{' !in tail { FirstBrace(text, from, tail); }
    if '`' !in tail { FirstFence(text, from, tail); }
  }

  // ------------------------------------------------------------- fenced objects

  /** A fenced block with an object alone in it, and the prose before it. */
  datatype Block = Block(prose: string, tag: string, gap: string, value: Json, after: string)

  function Body(b: Block): string { b.gap + Print(b.value) + b.after }

  const FENCE := "```"

  predicate IsBlock(b: Block) {
    && '`' !in b.prose && '`' !in b.tag && '\n' !in b.tag && '`' !in Body(b)
    && Gap(b.gap) && Gap(b.after) && Legal(b.value) && b.value.Object?
  }

  predicate AreBlocks(bs: seq<Block>) { forall k :: 0 <= k < |bs| ==> IsBlock(bs[k]) }

  /** From the body on, and from behind the opening fence on. */
  function Closed(b: Block, after: string): string { Body(b) + (FENCE + after) }
  function Opened(b: Block, after: string): string { b.tag + ("\n" + Closed(b, after)) }

  function Fences(bs: seq<Block>, tail: string): string {
    if bs == [] then tail else bs[0].prose + (FENCE + Opened(bs[0], Fences(bs[1..], tail)))
  }

  function Values(bs: seq<Block>): seq<string> {
    if bs == [] then [] else [Print(bs[0].value)] + Values(bs[1..])
  }

  lemma {:induction false} ValuesOfAll(bs: seq<Block>)
    ensures |Values(bs)| == |bs|
    decreases |bs|
  {
    if bs != [] { ValuesOfAll(bs[1..]); }
  }

  lemma {:induction false} FirstFence(text: string, from: nat, prose: string)
    requires OccursAt(text, prose, from) && '`' !in prose
    ensures from + |prose| == |text| ==> FenceFrom(text, from) == -1
    ensures OccursAt(text, FENCE, from + |prose|) ==> FenceFrom(text, from) == from + |prose|
    decreases |prose|
  {
    if prose != "" {
      assert prose[0] == text[from] && prose[0] in prose;
      assert OccursAt(text, prose[1..], from + 1);
      FirstFence(text, from + 1, prose[1..]);
    } else if OccursAt(text, FENCE, from) {
      FenceMarks(text, from);
    }
  }

  lemma FenceMarks(text: string, i: nat)
    requires OccursAt(text, FENCE, i)
    ensures i + 3 <= |text| && text[i] == text[i + 1] == text[i + 2] == '`'
  {
    assert FENCE[0] == text[i + 0] && FENCE[1] == text[i + 1] && FENCE[2] == text[i + 2];
  }

  lemma {:induction false} FirstNewline(text: string, from: nat, tag: string)
    requires OccursAt(text, tag, from) && '\n' !in tag && from + |tag| < |text| && text[from + |tag|] == '\n'
    ensures IndexByteFrom(text, '\n', from) == from + |tag|
    decreases |tag|
  {
    if tag != "" {
      assert tag[0] == text[from] && tag[0] in tag;
      assert OccursAt(text, tag[1..], from + 1);
      FirstNewline(text, from + 1, tag[1..]);
    }
  }

  /** The next block is read whole, and the search goes on behind its closing fence. */
  lemma NextBlock(text: string, from: nat, b: Block, after: string, rest: string) returns (start: nat, end: nat)
    requires from <= |text| && IsBlock(b) && rest == Opened(b, after) && text[from..] == b.prose + (FENCE + rest)
    ensures NextFence(text, from) == Fenced(start, end) && start <= end <= |text| && text[start..end] == Body(b)
    ensures end + 3 <= |text| && text[end + 3..] == after
  {
    var open := FenceBehind(text, from, b.prose, rest);
    start := OpenedAt(text, open, b.tag, Closed(b, after), rest);
    end := ClosedAt(text, start, Body(b), after, Closed(b, after));
    NextFenceIs(text, from, open, start, end);
  }

  lemma OpenedAt(text: string, open: nat, tag: string, closed: string, rest: string) returns (start: nat)
    requires open + 3 <= |text| && '\n' !in tag && rest == tag + ("\n" + closed) && text[open + 3..] == rest
    ensures IndexByteFrom(text, '\n', open + 3) == start - 1 && open + 3 < start <= |text| && text[start..] == closed
  {
    var newline := NewlineBehind(text, open + 3, tag, closed);
    start := newline + 1;
  }

  lemma ClosedAt(text: string, start: nat, body: string, after: string, closed: string) returns (end: nat)
    requires start <= |text| && '`' !in body && closed == body + (FENCE + after) && text[start..] == closed
    ensures FenceFrom(text, start) == end && start <= end <= |text| - 3
    ensures text[start..end] == body && text[end + 3..] == after
  {
    end := FenceBehind(text, start, body, after);
    SliceThere(text, body, start);
  }

  lemma NextFenceIs(text: string, from: nat, open: nat, start: nat, end: nat)
    requires FenceFrom(text, from) == open && 0 < start && IndexByteFrom(text, '\n', open + 3) == start - 1
    requires FenceFrom(text, start) == end
    ensures NextFence(text, from) == Fenced(start, end)
  {}

  lemma FenceBehind(text: string, from: nat, prose: string, after: string) returns (i: nat)
    requires from <= |text| && '`' !in prose && text[from..] == prose + (FENCE + after)
    ensures i == from + |prose| && FenceFrom(text, from) == i && i + 3 <= |text| && text[i + 3..] == after
    ensures OccursAt(text, prose, from)
  {
    i := from + |prose|;
    Rest(text, from, prose, FENCE + after);
    Rest(text, i, FENCE, after);
    FirstFence(text, from, prose);
  }

  lemma NewlineBehind(text: string, from: nat, tag: string, after: string) returns (i: nat)
    requires from <= |text| && '\n' !in tag && text[from..] == tag + ("\n" + after)
    ensures i == from + |tag| && IndexByteFrom(text, '\n', from) == i < |text| && text[i + 1..] == after
  {
    i := from + |tag|;
    Rest(text, from, tag, "\n" + after);
    Rest(text, i, "\n", after);
    SliceThere(text, "\n", i);
    FirstNewline(text, from, tag);
  }

  lemma BlockAdds(b: Block, found: seq<string>)
    requires IsBlock(b)
    ensures AddFenced(Body(b), found) == WithNew(found, Print(b.value))
  {
    var o := Print(b.value);
    PrintedObject(b.value);
    TrimAround(b.gap, o, b.after);
    ExtractUndoesPrint("", b.value, "");
    assert "" + o + "" == o;
    TrimOfTrimmed(o);
  }

  lemma {:induction false} BlocksAreTaken(text: string, from: nat, bs: seq<Block>, tail: string, found: seq<string>,
      left: string, all: seq<string>)
    requires from <= |text| && text[from..] == left && left == Fences(bs, tail) && all == Values(bs)
    requires AreBlocks(bs) && '`' !in tail && |found| < 8
    ensures FencePass(text, from, found) == Firsts(all, |all|, found)
    decreases |bs|
  {
    if bs == [] {
      NothingLeft(text, from, tail);
    } else {
      var b, more, later, after, inner, rest := FirstBlock(bs, tail, found, left, all);
      var next := BlockTaken(text, from, b, after, inner, found, more);
      if |more| < 8 { BlocksAreTaken(text, next, later, tail, more, after, rest); }
    }
  }

  lemma FirstBlock(bs: seq<Block>, tail: string, found: seq<string>, left: string, all: seq<string>)
      returns (b: Block, more: seq<string>, later: seq<Block>, after: string, inner: string, rest: seq<string>)
    requires bs != [] && AreBlocks(bs) && left == Fences(bs, tail) && all == Values(bs) && |found| < 8
    ensures IsBlock(b) && more == WithNew(found, Print(b.value))
    ensures inner == Opened(b, after) && left == b.prose + (FENCE + inner)
    ensures |later| < |bs| && AreBlocks(later) && after == Fences(later, tail) && rest == Values(later)
    ensures Firsts(all, |all|, found) == if |more| >= 8 then more else Firsts(rest, |rest|, more)
  {
    b, later := bs[0], bs[1..];
    more, after, rest := WithNew(found, Print(b.value)), Fences(later, tail), Values(later);
    inner := Opened(b, after);
    FirstsStep(Print(b.value), rest, all, |all|, found, more);
  }

  lemma BlockTaken(
    text: string, from: nat, b: Block, after: string, inner: string, found: seq<string>, more: seq<string>)
    returns (next: nat)
    requires from <= |text| && IsBlock(b) && inner == Opened(b, after) && text[from..] == b.prose + (FENCE + inner)
    requires more == WithNew(found, Print(b.value))
    ensures next <= |text| && text[next..] == after
    ensures FencePass(text, from, found) == if |more| >= 8 then more else FencePass(text, next, more)
  {
    var start, end := NextBlock(text, from, b, after, inner);
    BlockAdds(b, found);
    next := GoesOnBehind(text, from, start, end, Body(b), found, more);
  }

  lemma GoesOnBehind(
    text: string, from: nat, start: nat, end: nat, body: string, found: seq<string>, more: seq<string>)
    returns (next: nat)
    requires NextFence(text, from) == Fenced(start, end) && body == text[start..end] && more == AddFenced(body, found)
    ensures next == end + 3
    ensures FencePass(text, from, found) == if |more| >= 8 then more else FencePass(text, next, more)
  {
    FencePassGoesOn(text, from, found, Fenced(start, end), body, more);
    next := end + 3;
  }

  /** A fenced block whose text starts otherwise adds nothing, whatever objects are in it. */
  lemma OtherBlocksAddNothing(body: string, found: seq<string>)
    ensures Trim(body) == "" || Trim(body)[0] != '{' ==> AddFenced(body, found) == found
  {}

  /** In a reply with fenced blocks that each hold an object: the candidates begin with these objects, in order and
      without repetition, up to the eighth. */
  lemma EveryFencedObjectIsFound(bs: seq<Block>, tail: string, text: string)
    requires AreBlocks(bs) && '`' !in tail && text == Fences(bs, tail)
    ensures Firsts(Values(bs), |bs|, []) <= Candidates(text)
    ensures |Firsts(Values(bs), |bs|, [])| >= 8 ==> Candidates(text) == Firsts(Values(bs), |bs|, [])
  {
    assert text[0..] == text;
    var all := Values(bs);
    ValuesOfAll(bs);
    BlocksAreTaken(text, 0, bs, tail, [], text, all);
    BracePassExtends(text, 0, 0, FencePass(text, 0, []));
  }
}
