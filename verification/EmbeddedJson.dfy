/** JSON objects embedded in an agent's reply: the brace scanner and the bounded candidate search.

The scanner's partner is a printer for the concrete syntax of JSON objects: for every object,
however its white space and escapes are written, the scanner finds exactly the printed text. */
module EmbeddedJson {
  import opened Text

  // ------------------------------------------------------------- the scanner

  datatype Scan = Scan(depth: int, inString: bool, escaped: bool)

  function Out(d: int): Scan { Scan(d, false, false) }

  function In(d: int): Scan { Scan(d, true, false) }

  function Step(st: Scan, c: char): Scan {
    if st.inString then
      if st.escaped then st.(escaped := false)
      else if c == '\\' then st.(escaped := true)
      else if c == '"' then st.(inString := false)
      else st
    else if c == '"' then st.(inString := true)
    else if c == '{' then st.(depth := st.depth + 1)
    else if c == '}' then st.(depth := st.depth - 1)
    else st
  }

  /** Just past the first place from `i` on where no brace is open, or -1. */
  function Closing(text: string, i: nat, st: Scan): (n: int)
    ensures n == -1 || i < n <= |text|
    decreases |text| - i
  {
    if i >= |text| then -1
    else
      var next := Step(st, text[i]);
      if next.depth == 0 then i + 1 else Closing(text, i + 1, next)
  }

  datatype Extracted = Found(found: string) | NoObject | Unterminated

  function Extract(text: string): (r: Extracted)
    ensures r.Found? ==> 0 < |r.found| <= |text|
  {
    var start := IndexByteFrom(text, '{', 0);
    if start < 0 then NoObject
    else
      var n := Closing(text, start, Out(0));
      if n < 0 then Unterminated else Found(text[start..n])
  }

  /** The scan as the source runs it. */
  method ExtractJSONObject(text: string) returns (r: Extracted)
    ensures r == Extract(text)
  {
    var start := IndexByteFrom(text, '{', 0);
    if start < 0 { return NoObject; }
    var depth, inString, escaped := 0, false, false;
    var i := start;
    while i < |text|
      invariant start <= i <= |text|
      invariant depth > 0 || (depth == 0 && i == start && !inString && !escaped)
      invariant Closing(text, start, Out(0)) == Closing(text, i, Scan(depth, inString, escaped))
    {
      var ch := text[i];
      i := i + 1;
      if inString {
        if escaped { escaped := false; continue; }
        if ch == '\\' { escaped := true; continue; }
        if ch == '"' { inString := false; }
        continue;
      }
      match ch
      case '"' => inString := true;
      case '{' => depth := depth + 1;
      case '}' =>
        depth := depth - 1;
        if depth == 0 { return Found(text[start..i]); }
      case _ =>
    }
    r := Unterminated;
  }

  // ------------------------------------------------------------- runs of the scanner

  function Run(st: Scan, s: string): Scan
    decreases |s|
  {
    if s == "" then st else Run(Step(st, s[0]), s[1..])
  }

  /** No state of the run is below depth `d`. */
  predicate Above(st: Scan, s: string, d: int)
    decreases |s|
  {
    st.depth >= d && (s != "" ==> Above(Step(st, s[0]), s[1..], d))
  }

  lemma {:induction false} RunConcat(st: Scan, a: string, b: string, d: int)
    ensures Run(st, a + b) == Run(Run(st, a), b)
    ensures Above(st, a + b, d) <==> Above(st, a, d) && Above(Run(st, a), b, d)
    decreases |a|
  {
    if a == "" {
      assert a + b == b;
    } else {
      assert (a + b)[1..] == a[1..] + b;
      RunConcat(Step(st, a[0]), a[1..], b, d);
    }
  }

  /** Text that keeps a brace open is passed over. */
  lemma {:induction false} ClosingSkips(text: string, i: nat, st: Scan, a: string)
    requires OccursAt(text, a, i) && Above(st, a, 1)
    ensures Closing(text, i, st) == Closing(text, i + |a|, Run(st, a))
    decreases |a|
  {
    if a != "" {
      assert a[0] == text[i];
      ClosingSkips(text, i + 1, Step(st, a[0]), a[1..]);
    }
  }

  /** The scan depends on nothing outside the text it reads. */
  lemma {:induction false} ClosingMoves(text: string, i: nat, other: string, j: nat, st: Scan)
    requires
      var n := Closing(text, i, st);
      n > 0 && j + (n - i) <= |other| && forall k :: i <= k < n ==> text[k] == other[k - i + j]
    ensures Closing(other, j, st) == j + (Closing(text, i, st) - i)
    decreases |text| - i
  {
    var next := Step(st, text[i]);
    assert text[i] == other[i - i + j];
    if next.depth != 0 { ClosingMoves(text, i + 1, other, j + 1, next); }
  }

  lemma {:induction false} ClosesWithBrace(text: string, i: nat, st: Scan)
    requires Closing(text, i, st) > 0 && (st.depth > 0 || (st == Out(0) && text[i] == '{'))
    ensures text[Closing(text, i, st) - 1] == '}'
    decreases |text| - i
  {
    var next := Step(st, text[i]);
    if next.depth != 0 { ClosesWithBrace(text, i + 1, next); }
  }

  lemma ExtractAt(text: string, i: nat)
    requires i < |text| && text[i] == '{'
    ensures
      var n := Closing(text, i, Out(0));
      Extract(text[i..]) == if n < 0 then Unterminated else Found(text[i..n])
  {
    var s := text[i..];
    assert s[0] == '{';
    var n := Closing(text, i, Out(0));
    if n > 0 {
      ClosingMoves(text, i, s, 0, Out(0));
      assert s[0..n - i] == text[i..n];
    } else if Closing(s, 0, Out(0)) > 0 {
      ClosingMoves(s, 0, text, i, Out(0));
    }
  }

  /** The scanner's result: it is a part of the text, delimited by braces, and the scanner finds all of
      it again in that part alone. */
  lemma ExtractIsStable(text: string)
    ensures Extract(text) == NoObject <==> '{' !in text
    ensures Extract(text).Found? ==>
      IsObject(Extract(text).found, text) && Extract(Extract(text).found) == Extract(text)
  {
    IndexByteIsFirst(text, '{', 0);
    var start := IndexByteFrom(text, '{', 0);
    if Extract(text).Found? { ObjectAt(text, start, Closing(text, start, Out(0))); }
    if Extract(text).Found? { FoundAgain(Extract(text).found); }
  }

  /** A balanced object, as a part of `text`. */
  ghost predicate IsObject(o: string, text: string) {
    && Within(o, text)
    && o != "" && o[0] == '{' && o[|o| - 1] == '}' && Closing(o, 0, Out(0)) == |o|
  }

  lemma ObjectAt(text: string, i: nat, n: nat)
    requires i < n <= |text| && text[i] == '{' && Closing(text, i, Out(0)) == n
    ensures IsObject(text[i..n], text)
  {
    SliceIsWithin(text, i, n);
    ObjectEnds(text, i, n, text[i..n]);
  }

  lemma ObjectEnds(text: string, i: nat, n: nat, o: string)
    requires i < n <= |text| && text[i] == '{' && Closing(text, i, Out(0)) == n
    requires |o| == n - i && forall k :: i <= k < n ==> text[k] == o[k - i + 0]
    ensures o[0] == '{' && o[|o| - 1] == '}' && Closing(o, 0, Out(0)) == |o|
  {
    ClosesWithBrace(text, i, Out(0));
    ClosingMoves(text, i, o, 0, Out(0));
    assert text[i] == o[i - i + 0] && text[n - 1] == o[n - 1 - i + 0];
  }

  lemma FoundAgain(o: string)
    requires o != "" && o[0] == '{' && Closing(o, 0, Out(0)) == |o|
    ensures Extract(o) == Found(o)
  {
    assert o[0..|o|] == o;
  }

  // ------------------------------------------------------------- JSON text

  /** One character of a string, or the character after a backslash.  The four digits after `\u` are
      plain characters. */
  datatype Item = Plain(c: char) | Escaped(c: char)

  datatype Json =
    | Literal(text: string)
    | String(items: seq<Item>)
    | Array(gap: string, elements: Elements)
    | Object(gap: string, members: Members)

  datatype Elements = NoElement | Element(before: string, value: Json, after: string, rest: Elements)

  datatype Members =
    | NoMember
    | Member(before: string, key: seq<Item>, between: string, space: string, value: Json, after: string, rest: Members)

  predicate Gap(s: string) { forall c :: c in s ==> c in {' ', '\t', '\n', '\r'} }

  /** Section 7 of RFC 8259. */
  predicate LegalItems(items: seq<Item>) {
    forall i :: i in items ==>
      match i
      case Plain(c) => c >= ' ' && c != '"' && c != '\\'
      case Escaped(c) => c in "\"\\/bfnrtu"
  }

  /** Numbers and the three names of sections 3 and 6 of RFC 8259 are made of these characters. */
  predicate LegalLiteral(s: string) {
    s != "" && forall c :: c in s ==> '0' <= c <= '9' || 'a' <= c <= 'z' || c in {'E', '+', '-', '.'}
  }

  predicate Legal(v: Json) {
    match v
    case Literal(s) => LegalLiteral(s)
    case String(items) => LegalItems(items)
    case Array(gap, es) => Gap(gap) && LegalElements(es)
    case Object(gap, ms) => Gap(gap) && LegalMembers(ms)
  }

  predicate LegalElements(es: Elements) {
    es.Element? ==> Gap(es.before) && Legal(es.value) && Gap(es.after) && LegalElements(es.rest)
  }

  predicate LegalMembers(ms: Members) {
    ms.Member? ==>
      && Gap(ms.before) && LegalItems(ms.key) && Gap(ms.between) && Gap(ms.space)
      && Legal(ms.value) && Gap(ms.after) && LegalMembers(ms.rest)
  }

  function Print(v: Json): string {
    match v
    case Literal(s) => s
    case String(items) => Quoted(items)
    case Array(gap, es) => "[" + (gap + PrintElements(es)) + "]"
    case Object(gap, ms) => "{" + (gap + PrintMembers(ms)) + "}"
  }

  function PrintElements(es: Elements): string {
    if es.NoElement? then ""
    else (es.before + Print(es.value) + es.after) + ((if es.rest.NoElement? then "" else ",") + PrintElements(es.rest))
  }

  function PrintMembers(ms: Members): string {
    if ms.NoMember? then ""
    else
      ((ms.before + Quoted(ms.key) + (ms.between + ":" + ms.space)) + (Print(ms.value) + ms.after))
      + ((if ms.rest.NoMember? then "" else ",") + PrintMembers(ms.rest))
  }

  function Quoted(items: seq<Item>): string { "\"" + PrintItems(items) + "\"" }

  function PrintItems(items: seq<Item>): string {
    if items == [] then ""
    else (match items[0] case Plain(c) => [c] case Escaped(c) => ['\\', c]) + PrintItems(items[1..])
  }

  // ------------------------------------------------------------- printed text passes

  /** From any depth the scanner comes out of `s` as it went in, and never below. */
  ghost predicate Passes(s: string) {
    forall d: int :: Run(Out(d), s) == Out(d) && Above(Out(d), s, d)
  }

  lemma PassesConcat(a: string, b: string)
    requires Passes(a) && Passes(b)
    ensures Passes(a + b)
  {
    forall d: int ensures Run(Out(d), a + b) == Out(d) && Above(Out(d), a + b, d) { RunConcat(Out(d), a, b, d); }
  }

  lemma {:induction false} PassesNeutral(s: string)
    requires '"' !in s && '{' !in s && '}' !in s
    ensures Passes(s)
    decreases |s|
  {
    if s == "" {
      forall d: int ensures Run(Out(d), s) == Out(d) && Above(Out(d), s, d) {}
    } else {
      PassesNeutral(s[1..]);
      forall d: int ensures Run(Out(d), s) == Out(d) && Above(Out(d), s, d) {
        assert Step(Out(d), s[0]) == Out(d);
      }
    }
  }

  lemma {:induction false} ItemsStayInside(items: seq<Item>, d: int)
    requires LegalItems(items)
    ensures Run(In(d), PrintItems(items)) == In(d) && Above(In(d), PrintItems(items), d)
    decreases |items|
  {
    if items != [] {
      var text := PrintItems(items);
      var tail := PrintItems(items[1..]);
      assert forall i :: i in items[1..] ==> i in items;
      ItemsStayInside(items[1..], d);
      assert items[0] in items;
      match items[0]
      case Plain(c) =>
        assert text[1..] == tail;
      case Escaped(c) =>
        var mid := text[1..];
        assert mid[0] == c && mid[1..] == tail;
        assert Step(In(d), '\\') == Scan(d, true, true);
        assert Run(Scan(d, true, true), mid) == Run(In(d), tail);
    }
  }

  lemma PassesQuoted(items: seq<Item>)
    requires LegalItems(items)
    ensures Passes(Quoted(items))
  {
    var s := Quoted(items);
    forall d: int ensures Run(Out(d), s) == Out(d) && Above(Out(d), s, d) {
      var inner := PrintItems(items);
      assert s[0] == '"' && s[1..] == inner + "\"";
      ItemsStayInside(items, d);
      RunConcat(In(d), inner, "\"", d);
    }
  }

  /** After the opening brace the scanner stays above the depth it came from up to the closing one. */
  lemma BracedRun(s: string, d: int)
    requires Passes(s)
    ensures Run(Out(d), "{" + s + "}") == Out(d) && Above(Out(d), "{" + s + "}", d)
    ensures Above(Out(d + 1), s, d + 1) && Run(Out(d + 1), s) == Out(d + 1)
  {
    var t := "{" + s + "}";
    assert t[0] == '{' && t[1..] == s + "}";
    assert Run(Out(d + 1), s) == Out(d + 1) && Above(Out(d + 1), s, d + 1);
    AboveLower(Out(d + 1), s, d + 1, d);
    RunConcat(Out(d + 1), s, "}", d);
  }

  lemma {:induction false} AboveLower(st: Scan, s: string, d: int, e: int)
    requires Above(st, s, d) && e <= d
    ensures Above(st, s, e)
    decreases |s|
  {
    if s != "" { AboveLower(Step(st, s[0]), s[1..], d, e); }
  }

  lemma PassesBraced(s: string)
    requires Passes(s)
    ensures Passes("{" + s + "}")
  {
    forall d: int ensures Run(Out(d), "{" + s + "}") == Out(d) && Above(Out(d), "{" + s + "}", d) { BracedRun(s, d); }
  }

  lemma {:induction false} PrintedPasses(v: Json)
    requires Legal(v)
    ensures Passes(Print(v))
    decreases v
  {
    match v
    case Literal(s) => PassesNeutral(s);
    case String(items) => PassesQuoted(items);
    case Array(gap, es) =>
      ElementsPass(es);
      PassesEnclosed(gap, PrintElements(es));
    case Object(gap, ms) =>
      MembersPass(ms);
      PassesEnclosed(gap, PrintMembers(ms));
  }

  lemma PassesEnclosed(gap: string, s: string)
    requires Gap(gap) && Passes(s)
    ensures Passes("[" + (gap + s) + "]") && Passes("{" + (gap + s) + "}") && Passes(gap + s)
  {
    PassesNeutral("["); PassesNeutral(gap); PassesNeutral("]");
    PassesConcat(gap, s);
    var inner := gap + s;
    PassesConcat("[", inner);
    PassesConcat("[" + inner, "]");
    PassesBraced(inner);
  }

  lemma {:induction false} ElementsPass(es: Elements)
    requires LegalElements(es)
    ensures Passes(PrintElements(es))
    decreases es
  {
    match es
    case NoElement => PassesNeutral("");
    case Element(before, value, after, rest) =>
      PassesNeutral(before); PassesNeutral(after); PassesNeutral(""); PassesNeutral(",");
      PrintedPasses(value);
      ElementsPass(rest);
      PassesConcat(before, Print(value));
      PassesConcat(before + Print(value), after);
      PassesConcat(if rest.NoElement? then "" else ",", PrintElements(rest));
      PassesConcat(before + Print(value) + after, (if rest.NoElement? then "" else ",") + PrintElements(rest));
  }

  lemma {:induction false} MembersPass(ms: Members)
    requires LegalMembers(ms)
    ensures Passes(PrintMembers(ms))
    decreases ms
  {
    match ms
    case NoMember => PassesNeutral("");
    case Member(before, key, between, space, value, after, rest) =>
      PassesNeutral(before); PassesNeutral(after); PassesNeutral(""); PassesNeutral(",");
      PassesNeutral(between + ":" + space);
      PassesQuoted(key);
      PrintedPasses(value);
      MembersPass(rest);
      var left, right := before + Quoted(key) + (between + ":" + space), Print(value) + after;
      PassesConcat(before, Quoted(key));
      PassesConcat(before + Quoted(key), between + ":" + space);
      PassesConcat(Print(value), after);
      PassesConcat(left, right);
      PassesConcat(if rest.NoMember? then "" else ",", PrintMembers(rest));
      PassesConcat(left + right, (if rest.NoMember? then "" else ",") + PrintMembers(rest));
  }

  // ------------------------------------------------------------- the round trip

  /** Extraction undoes printing, for every JSON object in every spelling, after any text without an
      opening brace and before any text. */
  lemma ExtractUndoesPrint(pre: string, v: Json, post: string)
    requires Legal(v) && v.Object? && '{' !in pre
    ensures Extract(pre + Print(v) + post) == Found(Print(v))
  {
    var text := pre + Print(v) + post;
    IndexByteIsFirst(text, '{', 0);
    PrintedObject(v);
    assert text[|pre|] == '{';
    assert IndexByteFrom(text, '{', 0) == |pre|;
    ClosingOfObject(text, |pre|, Print(v));
    assert text[|pre|..|pre| + |Print(v)|] == Print(v);
  }

  /** A text between braces that leaves the scanner as it was. */
  ghost predicate Enclosed(s: string) {
    exists inner :: Passes(inner) && s == "{" + inner + "}"
  }

  lemma PrintedObject(v: Json)
    requires Legal(v) && v.Object?
    ensures Enclosed(Print(v)) && Passes(Print(v)) && Print(v)[0] == '{'
  {
    PrintedPasses(v);
    MembersPass(v.members);
    PassesEnclosed(v.gap, PrintMembers(v.members));
  }

  lemma ClosingOfObject(text: string, i: nat, s: string)
    requires Enclosed(s) && OccursAt(text, s, i)
    ensures Closing(text, i, Out(0)) == i + |s|
  {
    var inner :| Passes(inner) && s == "{" + inner + "}";
    assert text[i] == s[0] && text[i + |s| - 1] == s[|s| - 1];
    assert forall k :: 0 <= k < |inner| ==> inner[k] == s[k + 1] == text[i + 1 + k];
    BracedRun(inner, 0);
    ClosingSkips(text, i + 1, Out(1), inner);
  }

  // ------------------------------------------------------------- the candidate search

  /** The first fence mark at or after `from`, or -1. */
  function FenceFrom(t: string, from: nat): (r: int)
    ensures r == -1 || from <= r <= |t| - 3
    decreases |t| - from
  {
    if from + 3 > |t| then -1
    else if t[from] == '`' && t[from + 1] == '`' && t[from + 2] == '`' then from
    else FenceFrom(t, from + 1)
  }

  lemma {:induction false} FenceIsIndex(t: string, from: nat)
    ensures FenceFrom(t, from) == IndexFrom(t, "```", from)
    decreases |t| - from
  {
    if from + 3 <= |t| {
      var s := "```";
      assert OccursAt(t, s, from) <==> s[0] == t[from + 0] && s[1] == t[from + 1] && s[2] == t[from + 2];
      FenceIsIndex(t, from + 1);
    }
  }

  function Add(found: seq<string>, candidate: string): seq<string> {
    var t := Trim(candidate);
    if t == "" || t in found then found else found + [t]
  }

  /** What a fenced block adds: the object its trimmed body starts with. */
  function AddFenced(body: string, found: seq<string>): (more: seq<string>)
    ensures found <= more
  {
    var t := Trim(body);
    if t != "" && t[0] == '{' && Extract(t).Found? then Add(found, Extract(t).found) else found
  }

  datatype FenceScan = NoFence | Fenced(bodyStart: nat, end: nat)

  /** The next complete fenced block: from after its opening line to its closing fence. */
  function NextFence(text: string, from: nat): (f: FenceScan)
    ensures f.Fenced? ==> from < f.bodyStart <= f.end <= |text| - 3
  {
    var fence := FenceFrom(text, from);
    if fence < 0 then NoFence
    else
      var newline := IndexByteFrom(text, '\n', fence + 3);
      if newline < 0 then NoFence
      else
        var end := FenceFrom(text, newline + 1);
        if end < 0 then NoFence else Fenced(newline + 1, end)
  }

  function FencePass(text: string, from: nat, found: seq<string>): seq<string>
    decreases |text| - from
  {
    match NextFence(text, from)
    case NoFence => found
    case Fenced(bodyStart, end) =>
      var more := AddFenced(text[bodyStart..end], found);
      if |more| >= 8 then more else FencePass(text, end + 3, more)
  }

  function BracePass(text: string, offset: nat, attempts: nat, found: seq<string>): seq<string>
    decreases |text| - offset
  {
    var i := IndexByteFrom(text, '{', offset);
    if attempts >= 64 || i < 0 then found
    else
      var n := Closing(text, i, Out(0));
      if n < 0 then BracePass(text, i + 1, attempts + 1, found)
      else
        var more := Add(found, text[i..n]);
        if |more| >= 8 then more else BracePass(text, n, attempts + 1, more)
  }

  function Candidates(text: string): seq<string> {
    var fenced := FencePass(text, 0, []);
    if |fenced| >= 8 then fenced else BracePass(text, 0, 0, fenced)
  }

  method JsonObjectCandidates(text: string) returns (candidates: seq<string>)
    ensures candidates == Candidates(text)
  {
    var seen, full;
    candidates, seen, full := FencedCandidates(text);
    if full { return; }
    ghost var fenced := candidates;
    var offset, attempts := 0, 0;
    while offset < |text| && attempts < 64
      invariant 0 <= offset <= |text| && Same(seen, candidates)
      invariant |candidates| < 8 && BracePass(text, 0, 0, fenced) == BracePass(text, offset, attempts, candidates)
      decreases |text| - offset
    {
      var idx := IndexByteFrom(text, '{', offset);
      if idx < 0 { break; }
      var r := ExtractFrom(text, idx);
      attempts := attempts + 1;
      if !r.Found? {
        offset := idx + 1;
        continue;
      }
      candidates, seen, full := AddCandidate(candidates, seen, r.found);
      if full { return; }
      offset := idx + |r.found|;
    }
  }

  /** The first of the search's two loops. */
  method FencedCandidates(text: string) returns (candidates: seq<string>, seen: set<string>, full: bool)
    ensures candidates == FencePass(text, 0, []) && full == (|candidates| >= 8)
    ensures Same(seen, candidates)
  {
    candidates, seen, full := [], {}, false;
    ghost var all := FencePass(text, 0, []);
    var rest := 0;
    while true
      invariant rest <= |text| && Same(seen, candidates)
      invariant !full && |candidates| < 8 && all == FencePass(text, rest, candidates)
      decreases |text| - rest
    {
      var block := FindFence(text, rest);
      if block.NoFence? { break; }
      ghost var found := candidates;
      candidates, seen, full := AddBody(candidates, seen, text[block.bodyStart..block.end]);
      FencePassGoesOn(text, rest, found, block, text[block.bodyStart..block.end], candidates);
      if full { return; }
      rest := block.end + 3;
    }
  }

  method FindFence(text: string, rest: nat) returns (f: FenceScan)
    ensures f == NextFence(text, rest)
  {
    var fence := FenceFrom(text, rest);
    if fence < 0 { return NoFence; }
    var newline := IndexByteFrom(text, '\n', fence + 3);
    if newline < 0 { return NoFence; }
    var end := FenceFrom(text, newline + 1);
    f := if end < 0 then NoFence else Fenced(newline + 1, end);
  }

  method AddBody(candidates: seq<string>, seen: set<string>, body: string)
    returns (more: seq<string>, seen': set<string>, full: bool)
    requires Same(seen, candidates) && |candidates| < 8
    ensures more == AddFenced(body, candidates) && full == (|more| >= 8) && Same(seen', more)
  {
    more, seen', full := candidates, seen, false;
    var trimmed := Trim(body);
    if trimmed != "" && trimmed[0] == '{' {
      var r := ExtractJSONObject(trimmed);
      if r.Found? { more, seen', full := AddCandidate(candidates, seen, r.found); }
    }
  }

  ghost predicate Same(seen: set<string>, candidates: seq<string>) {
    forall c :: c in seen <==> c in candidates
  }

  method ExtractFrom(text: string, i: nat) returns (r: Extracted)
    requires i < |text| && text[i] == '{'
    ensures var n := Closing(text, i, Out(0)); if n < 0 then !r.Found? else r == Found(text[i..n])
  {
    ExtractAt(text, i);
    r := ExtractJSONObject(text[i..]);
  }

  method AddCandidate(candidates: seq<string>, seen: set<string>, candidate: string)
    returns (more: seq<string>, seen': set<string>, full: bool)
    requires Same(seen, candidates)
    ensures more == Add(candidates, candidate) && full == (|more| >= 8)
    ensures Same(seen', more)
  {
    more, seen' := candidates, seen;
    var trimmed := Trim(candidate);
    if trimmed != "" && trimmed !in seen {
      seen' := seen' + {trimmed};
      more := more + [trimmed];
    }
    full := |more| >= 8;
  }

  // ------------------------------------------------------------- what the candidates are

  /** Distinct texts with the property. */
  ghost predicate Distinct(found: seq<string>, p: string -> bool) {
    && (forall i, j :: 0 <= i < j < |found| ==> found[i] != found[j])
    && (forall i :: 0 <= i < |found| ==> p(found[i]))
  }

  /** The property of all balanced objects of the text. */
  ghost predicate HoldsOfObjects(p: string -> bool, text: string) {
    forall o :: IsObject(o, text) ==> p(o)
  }

  lemma AddKeeps(found: seq<string>, o: string, text: string, p: string -> bool)
    requires Distinct(found, p) && HoldsOfObjects(p, text) && IsObject(o, text)
    ensures Distinct(Add(found, o), p) && |Add(found, o)| <= |found| + 1
  {
    TrimOfTrimmed(o);
    assert forall i :: 0 <= i < |found| ==> found[i] in found;
  }

  lemma FenceStepKeeps(text: string, a: nat, b: nat, found: seq<string>, more: seq<string>, p: string -> bool)
    requires Distinct(found, p) && HoldsOfObjects(p, text) && a <= b <= |text| && more == AddFenced(text[a..b], found)
    ensures Distinct(more, p) && |more| <= |found| + 1
  {
    var t := Trim(text[a..b]);
    SliceIsWithin(text, a, b);
    TrimIsWithin(text[a..b]);
    WithinTransitive(t, text[a..b], text);
    ExtractIsStable(t);
    if Extract(t).Found? {
      WithinTransitive(Extract(t).found, t, text);
      AddKeeps(found, Extract(t).found, text, p);
    }
  }

  lemma FencePassGoesOn(text: string, from: nat, found: seq<string>, f: FenceScan, body: string, more: seq<string>)
    requires f == NextFence(text, from) && f.Fenced?
    requires body == text[f.bodyStart..f.end] && more == AddFenced(body, found)
    ensures FencePass(text, from, found) == if |more| >= 8 then more else FencePass(text, f.end + 3, more)
  {}

  lemma {:induction false} FencePassKeeps(
    text: string, from: nat, found: seq<string>, all: seq<string>, p: string -> bool)
    requires Distinct(found, p) && HoldsOfObjects(p, text) && |found| < 8 && all == FencePass(text, from, found)
    ensures Distinct(all, p) && |all| <= 8
    decreases |text| - from
  {
    var f := NextFence(text, from);
    if f.Fenced? {
      var body := text[f.bodyStart..f.end];
      var more := AddFenced(body, found);
      FencePassGoesOn(text, from, found, f, body, more);
      FenceStepKeeps(text, f.bodyStart, f.end, found, more, p);
      if |more| < 8 { FencePassKeeps(text, f.end + 3, more, all, p); }
    }
  }

  lemma {:induction false} BracePassKeeps(
    text: string, offset: nat, attempts: nat, found: seq<string>, all: seq<string>, p: string -> bool)
    requires Distinct(found, p) && HoldsOfObjects(p, text) && |found| < 8
    requires all == BracePass(text, offset, attempts, found)
    ensures Distinct(all, p) && |all| <= 8
    decreases |text| - offset
  {
    var i := IndexByteFrom(text, '{', offset);
    if attempts < 64 && i >= 0 {
      var n := Closing(text, i, Out(0));
      if n < 0 {
        BracePassKeeps(text, i + 1, attempts + 1, found, all, p);
      } else {
        ObjectAt(text, i, n);
        var more := Add(found, text[i..n]);
        AddKeeps(found, text[i..n], text, p);
        if |more| < 8 { BracePassKeeps(text, n, attempts + 1, more, all, p); }
      }
    }
  }

  /** For every text: at most eight candidates, all different, each a balanced object of the text that
      the scanner finds again. */
  lemma CandidatesAreSound(text: string)
    ensures |Candidates(text)| <= 8
    ensures forall i, j :: 0 <= i < j < |Candidates(text)| ==> Candidates(text)[i] != Candidates(text)[j]
    ensures forall o :: o in Candidates(text) ==> IsObject(o, text) && Extract(o) == Found(o)
  {
    var all, fenced := Candidates(text), FencePass(text, 0, []);
    var p := o => IsObject(o, text);
    FencePassKeeps(text, 0, [], fenced, p);
    if |fenced| < 8 { BracePassKeeps(text, 0, 0, fenced, all, p); }
    forall o | o in all ensures IsObject(o, text) && Extract(o) == Found(o) {
      var i :| 0 <= i < |all| && all[i] == o;
      assert p(all[i]);
      FoundAgain(o);
    }
  }

  // ------------------------------------------------------------- what hides an object

  /** The opening braces at or after `i` and before `n`. */
  function Openers(text: string, i: nat, n: nat): nat
    requires n <= |text|
    decreases n - i
  {
    if i >= n then 0 else (if text[i] == '{' then 1 else 0) + Openers(text, i + 1, n)
  }

  /** Braces in prose that nothing closes: no brace from `i` to `n` has a partner in the text. */
  predicate LeftOpen(text: string, i: nat, n: nat)
    requires n <= |text|
  {
    forall k :: i <= k < n && text[k] == '{' ==> Closing(text, k, Out(0)) < 0
  }

  /** Braces left open cost an attempt each, and nothing else. */
  lemma {:induction false} SkipsOpeners(text: string, i: nat, n: nat, attempts: nat, found: seq<string>)
    requires i <= n <= |text| && LeftOpen(text, i, n) && attempts <= 64
    ensures
      BracePass(text, i, attempts, found) ==
      if attempts + Openers(text, i, n) <= 64 then BracePass(text, n, attempts + Openers(text, i, n), found) else found
    decreases n - i
  {
    if i < n {
      if text[i] != '{' {
        SkipsOpeners(text, i + 1, n, attempts, found);
      } else if attempts < 64 {
        SkipsOpeners(text, i + 1, n, attempts + 1, found);
      }
    }
  }

  /** Text that can only open braces. */
  lemma {:induction false} OpenersOnlyDeepen(s: string, d: int)
    requires '"' !in s && '}' !in s
    ensures Run(Out(d), s).depth >= d && Run(Out(d), s) == Out(Run(Out(d), s).depth) && Above(Out(d), s, d)
    decreases |s|
  {
    if s != "" {
      var e := if s[0] == '{' then d + 1 else d;
      assert Step(Out(d), s[0]) == Out(e);
      OpenersOnlyDeepen(s[1..], e);
      AboveLower(Out(e), s[1..], e, d);
    }
  }

  lemma {:induction false} NothingCloses(text: string, i: nat, st: Scan)
    requires i <= |text| && st.depth >= 1 && forall k :: i <= k < |text| ==> text[k] != '}'
    ensures Closing(text, i, st) == -1
    decreases |text| - i
  {
    if i < |text| {
      NothingCloses(text, i + 1, Step(st, text[i]));
    }
  }

  lemma OpenBraceStaysOpen(pre: string, o: string, post: string, i: nat)
    requires '"' !in pre && '}' !in pre && Passes(o) && '}' !in post
    requires i < |pre| && pre[i] == '{'
    ensures Closing(pre + o + post, i, Out(0)) == -1
  {
    var text := pre + o + post;
    var a := pre[i + 1..];
    OpenersOnlyDeepen(a, 1);
    assert OccursAt(text, a, i + 1);
    ClosingSkips(text, i + 1, Out(1), a);
    NeverClosesAfter(text, |pre|, o, Run(Out(1), a).depth);
  }

  lemma NeverClosesAfter(text: string, i: nat, o: string, d: int)
    requires OccursAt(text, o, i) && Passes(o) && d >= 1 && forall k :: i + |o| <= k < |text| ==> text[k] != '}'
    ensures Closing(text, i, Out(d)) == -1
  {
    assert Run(Out(d), o) == Out(d) && Above(Out(d), o, d);
    AboveLower(Out(d), o, d, 1);
    ClosingSkips(text, i, Out(d), o);
    NothingCloses(text, i + |o|, Out(d));
  }

  lemma HiddenBehind(text: string, a: nat, n: nat)
    requires a < n <= |text| && text[a] == '{' && Closing(text, a, Out(0)) == n
    requires LeftOpen(text, 0, a) && LeftOpen(text, n, |text|) && NextFence(text, 0) == NoFence
    ensures Candidates(text) == if Openers(text, 0, a) <= 63 then [text[a..n]] else []
  {
    assert FencePass(text, 0, []) == [];
    BracesBehind(text, a, n);
  }

  lemma BracesBehind(text: string, a: nat, n: nat)
    requires a < n <= |text| && text[a] == '{' && Closing(text, a, Out(0)) == n
    requires LeftOpen(text, 0, a) && LeftOpen(text, n, |text|)
    ensures BracePass(text, 0, 0, []) == if Openers(text, 0, a) <= 63 then [text[a..n]] else []
  {
    var k := Openers(text, 0, a);
    SkipsOpeners(text, 0, a, 0, []);
    if k <= 63 {
      TakesObject(text, a, n, k);
      SkipsOpeners(text, n, |text|, k + 1, [text[a..n]]);
    }
  }

  lemma TakesObject(text: string, i: nat, n: nat, attempts: nat)
    requires i < |text| && text[i] == '{' && Closing(text, i, Out(0)) == n && attempts < 64
    ensures BracePass(text, i, attempts, []) == BracePass(text, n, attempts + 1, [text[i..n]])
  {
    ObjectAt(text, i, n);
    var o := text[i..n];
    TrimOfTrimmed(o);
    assert Add([], o) == [o];
  }

  /** In prose without quotes, closing braces or fences, unmatched opening braces hide the object that
      follows them exactly when there are more than 63 of them. */
  lemma UnmatchedBracesHide(pre: string, v: Json, post: string, text: string)
    requires Legal(v) && v.Object? && '"' !in pre && '}' !in pre && '}' !in post
    requires text == pre + Print(v) + post && Index(text, "```") == -1
    ensures Candidates(text) == if Openers(text, 0, |pre|) <= 63 then [Print(v)] else []
  {
    var o := Print(v);
    var n := |pre| + |o|;
    PrintedObject(v);
    forall k | 0 <= k < |pre| && text[k] == '{' ensures Closing(text, k, Out(0)) < 0 {
      OpenBraceStaysOpen(pre, o, post, k);
    }
    forall k | n <= k < |text| && text[k] == '{' ensures Closing(text, k, Out(0)) < 0 {
      NothingCloses(text, k + 1, Out(1));
    }
    ClosingOfObject(text, |pre|, o);
    FenceIsIndex(text, 0);
    HiddenBehind(text, |pre|, n);
    assert text[|pre|..n] == o;
  }

  // ------------------------------------------------------------- fenced objects come first

  lemma {:induction false} FencePassExtends(text: string, from: nat, found: seq<string>, all: seq<string>)
    requires all == FencePass(text, from, found)
    ensures found <= all
    decreases |text| - from
  {
    var f := NextFence(text, from);
    if f.Fenced? {
      var more := AddFenced(text[f.bodyStart..f.end], found);
      if |more| < 8 { FencePassExtends(text, f.end + 3, more, all); }
    }
  }

  lemma {:induction false} BracePassExtends(text: string, offset: nat, attempts: nat, found: seq<string>)
    ensures found <= BracePass(text, offset, attempts, found)
    decreases |text| - offset
  {
    var i := IndexByteFrom(text, '{', offset);
    if attempts < 64 && i >= 0 {
      var n := Closing(text, i, Out(0));
      if n < 0 {
        BracePassExtends(text, i + 1, attempts + 1, found);
      } else {
        var more := Add(found, text[i..n]);
        if |more| < 8 { BracePassExtends(text, n, attempts + 1, more); }
      }
    }
  }

  /** An object alone in the first fenced block is the first candidate, whatever surrounds the block. */
  lemma FencedObjectComesFirst(text: string, gap: string, v: Json, after: string)
    requires Legal(v) && v.Object? && Gap(gap) && Gap(after)
    requires
      var f := NextFence(text, 0);
      f.Fenced? && text[f.bodyStart..f.end] == gap + Print(v) + after
    ensures Candidates(text) != [] && Candidates(text)[0] == Print(v)
  {
    var f := NextFence(text, 0);
    FencedAlone(gap, v, after);
    NextFenceExtends(text, 0, [], f, gap + Print(v) + after, [Print(v)], FencePass(text, 0, []));
    BracePassExtends(text, 0, 0, FencePass(text, 0, []));
  }

  lemma NextFenceExtends(
    text: string, from: nat, found: seq<string>, f: FenceScan, body: string, more: seq<string>, all: seq<string>)
    requires f == NextFence(text, from) && f.Fenced? && body == text[f.bodyStart..f.end]
    requires more == AddFenced(body, found) && |more| < 8 && all == FencePass(text, from, found)
    ensures more <= all
  {
    FencePassGoesOn(text, from, found, f, body, more);
    FencePassExtends(text, f.end + 3, more, all);
  }

  lemma FencedAlone(gap: string, v: Json, after: string)
    requires Legal(v) && v.Object? && Gap(gap) && Gap(after)
    ensures AddFenced(gap + Print(v) + after, []) == [Print(v)]
  {
    var o := Print(v);
    PrintedObject(v);
    TrimAround(gap, o, after);
    ExtractUndoesPrint("", v, "");
    assert "" + o + "" == o;
    TrimOfTrimmed(o);
    assert Add([], o) == [o];
  }

  // ------------------------------------------------------------- decoding

  /** What the caller's decoder says of a text. */
  datatype Decoded = Accepted | Rejected(error: nat)

  /** Tries the reply itself, then the candidates in order; `target` is the text that was accepted. */
  method DecodeEmbeddedJSON(raw: string, decode: string -> Decoded) returns (r: Decoded, target: string)
    ensures r == Accepted ==> decode(target) == Accepted && (target == Trim(raw) || target in Candidates(raw))
    ensures r == Accepted && target != Trim(raw) ==> exists i ::
      && 0 <= i < |Candidates(raw)| && Candidates(raw)[i] == target
      && forall j :: 0 <= j < i ==> decode(Candidates(raw)[j]) != Accepted
    ensures r != Accepted ==> r == decode(Trim(raw)) && forall c :: c in Candidates(raw) ==> decode(c) != Accepted
  {
    target := Trim(raw);
    r := decode(target);
    if r == Accepted { return; }
    var candidates := JsonObjectCandidates(raw);
    for i := 0 to |candidates|
      invariant forall j :: 0 <= j < i ==> decode(candidates[j]) != Accepted
    {
      if decode(candidates[i]) == Accepted { return Accepted, candidates[i]; }
    }
  }
}
