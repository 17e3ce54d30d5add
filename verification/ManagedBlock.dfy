/** The marked block that `tagteam` keeps in a text configuration file: planning and uninstalling it. */
module ManagedBlock {
  import opened Text

  const BEGIN_TEXT := " BEGIN tagteam managed integration"
  const END_TEXT := " END tagteam managed integration"
  const BEGIN := "#" + BEGIN_TEXT
  const END := "#" + END_TEXT
  const VERSION := "# version: 1"
  const SERVER := "# Tagteam MCP server: tagteam mcp"
  const BLOCK := BEGIN + "\n" + (VERSION + "\n" + (SERVER + "\n" + (END + "\n")))

  datatype Markers = Corrupt | Missing | Span(begin: nat, end: nat)

  function FindMarkers(data: string): (m: Markers)
    ensures m.Span? ==> m.begin < m.end <= |data|
  {
    var begin, end := Index(data, BEGIN), Index(data, END);
    if (begin < 0) != (end < 0) || (begin >= 0 && end < begin) then Corrupt
    else if begin < 0 then Missing
    else
      var past := end + |END|;
      Span(begin, if past < |data| && data[past] == '\n' then past + 1 else past)
  }

  datatype Edit =
    | Failed | Planned(content: string, changed: bool) | Absent(content: string) | Uninstalled(content: string)

  function Terminated(text: string): string {
    if text != "" && text[|text| - 1] != '\n' then text + "\n" else text
  }

  function Plan(existing: string): Edit {
    match FindMarkers(existing)
    case Corrupt => Failed
    case Missing => Planned(Terminated(existing) + BLOCK, true)
    case Span(begin, end) =>
      var content := existing[..begin] + BLOCK + existing[end..];
      Planned(content, content != existing)
  }

  function Uninstall(existing: string): Edit {
    match FindMarkers(existing)
    case Corrupt => Failed
    case Missing => Absent(existing)
    case Span(begin, end) => Uninstalled(existing[..begin] + existing[end..])
  }

  datatype Health = CorruptMarkers | NotInstalled | Installed

  function Doctor(existing: string): Health {
    match FindMarkers(existing)
    case Corrupt => CorruptMarkers
    case Missing => NotInstalled
    case Span(_, _) => Installed
  }

  // ------------------------------------------------------------- where markers can be

  /** The marker is nowhere in the text. */
  predicate Free(text: string, marker: string) {
    forall i: nat {:trigger OccursAt(text, marker, i)} | i <= |text| :: !OccursAt(text, marker, i)
  }

  /** A hash sign opens a marker and occurs nowhere else in it; a marker stays on its line. */
  predicate IsMarker(m: string) {
    && |m| > 2 && m[0] == '#'
    && (forall k :: 0 < k < |m| ==> m[k] != '#') && forall k :: 0 <= k < |m| ==> m[k] != '\n'
  }

  lemma MarkersAreMarkers()
    ensures IsMarker(BEGIN) && IsMarker(END)
  {
    BeginIsMarker();
    EndIsMarker();
  }

  lemma BeginIsMarker()
    ensures IsMarker(BEGIN)
  {
    HashThen(BEGIN, BEGIN_TEXT);
  }

  lemma EndIsMarker()
    ensures IsMarker(END)
  {
    HashThen(END, END_TEXT);
  }

  lemma HashThen(m: string, text: string)
    requires m == "#" + text && |text| >= 2 && '#' !in text && '\n' !in text
    ensures IsMarker(m)
  {
    assert forall k :: 0 < k < |m| ==> m[k] == text[k - 1] && m[k] in text;
  }

  lemma CharsAround(t: string, m: string, i: nat, n: nat)
    requires OccursAt(t, m, i) && i < n < i + |m|
    ensures t[n - 1] == m[n - 1 - i] && t[n] == m[n - i]
  {}

  lemma FirstChars(t: string, m: string, i: nat)
    requires OccursAt(t, m, i) && |m| > 2
    ensures t[i] == m[0] && t[i + 1] == m[1] && t[i + 2] == m[2]
  {}

  /** No marker reaches across a hash sign from before it, nor across the end of a line. */
  lemma NoMarkerAcross(a: string, b: string, m: string, i: nat)
    requires IsMarker(m) && OccursAt(a + b, m, i) && i < |a|
    requires b == "" || b[0] in {'#', '\n'} || a[|a| - 1] == '\n'
    ensures OccursAt(a, m, i)
  {
    var t := a + b;
    if i + |m| > |a| {
      CharsAround(t, m, i, |a|);
    } else {
      forall k | 0 <= k < |m| ensures m[k] == a[i + k] { assert t[i + k] == a[i + k]; }
    }
  }

  lemma FreeTogether(a: string, b: string, m: string)
    requires IsMarker(m) && Free(a, m) && Free(b, m)
    requires a == "" || b == "" || b[0] in {'#', '\n'} || a[|a| - 1] == '\n'
    ensures Free(a + b, m)
  {
    forall i: nat | i <= |a + b| ensures !OccursAt(a + b, m, i) {
      if OccursAt(a + b, m, i) {
        if i < |a| { NoMarkerAcross(a, b, m, i); } else { assert OccursAt(b, m, i - |a|); }
      }
    }
  }

  lemma IndexOfFree(text: string, m: string)
    ensures Index(text, m) == -1 <==> Free(text, m)
  {
    IndexIsFirst(text, m, 0);
  }

  /** The first marker after text that is free of it. */
  lemma IndexAfter(a: string, m: string, b: string)
    requires IsMarker(m) && Free(a, m)
    ensures Index(a + (m + b), m) == |a|
  {
    var t := a + (m + b);
    IndexIsFirst(t, m, 0);
    assert OccursAt(t, m, |a|);
    var i := Index(t, m);
    if i < |a| { NoMarkerAcross(a, m + b, m, i); }
  }

  lemma ShortIsFree(line: string, m: string)
    requires IsMarker(m) && 3 <= |line| < |m| + 3 && line[1] != '#' && line[2] != '#' && line[2] != m[2]
    ensures Free(line, m)
  {
    forall i: nat | i <= |line| ensures !OccursAt(line, m, i) {
      if OccursAt(line, m, i) { FirstChars(line, m, i); }
    }
  }

  lemma NewlineIsFree(m: string)
    requires IsMarker(m)
    ensures Free("\n", m)
  {}

  /** The block's lines before the end marker. */
  const HEAD := BEGIN + "\n" + (VERSION + "\n" + (SERVER + "\n"))

  lemma HeadIsFree()
    ensures Free(HEAD, END)
  {
    MarkersAreMarkers();
    NewlineIsFree(END);
    LineIsFree(BEGIN);
    LineIsFree(VERSION);
    LineIsFree(SERVER);
    FreeTogether(VERSION + "\n", SERVER + "\n", END);
    FreeTogether(BEGIN + "\n", VERSION + "\n" + (SERVER + "\n"), END);
  }

  lemma LineIsFree(line: string)
    requires line in [BEGIN, VERSION, SERVER]
    ensures Free(line + "\n", END)
  {
    MarkersAreMarkers();
    ShortIsFree(line, END);
    NewlineIsFree(END);
    FreeTogether(line, "\n", END);
  }

  // ------------------------------------------------------------- the block is found again

  /** A block written after text without markers is found where it was written, whatever follows it. */
  lemma BlockIsFound(pre: string, post: string)
    requires Free(pre, BEGIN) && Free(pre, END)
    ensures FindMarkers(pre + BLOCK + post) == Span(|pre|, |pre| + |BLOCK|)
  {
    MarkersAreMarkers();
    HeadIsFree();
    FreeTogether(pre, HEAD, END);
    var text := pre + BLOCK + post;
    var afterBegin, afterEnd := BlockParts(pre, post);
    IndexAfter(pre, BEGIN, afterBegin);
    IndexAfter(pre + HEAD, END, afterEnd);
    assert text[|pre| + |HEAD| + |END|] == '\n';
  }

  lemma BlockParts(pre: string, post: string) returns (afterBegin: string, afterEnd: string)
    ensures pre + BLOCK + post == pre + (BEGIN + afterBegin)
    ensures pre + BLOCK + post == (pre + HEAD) + (END + afterEnd)
    ensures afterEnd != "" && afterEnd[0] == '\n' && |BLOCK| == |HEAD| + |END| + 1
  {
    afterBegin, afterEnd := Regrouped(pre, BEGIN, VERSION + "\n", SERVER + "\n", END, post);
  }

  lemma Regrouped(pre: string, b: string, v: string, s: string, e: string, post: string)
    returns (afterBegin: string, afterEnd: string)
    ensures pre + (b + "\n" + (v + (s + (e + "\n")))) + post == pre + (b + afterBegin)
    ensures pre + (b + "\n" + (v + (s + (e + "\n")))) + post == (pre + (b + "\n" + (v + s))) + (e + afterEnd)
    ensures afterEnd == "\n" + post
  {
    afterBegin := "\n" + (v + (s + (e + "\n"))) + post;
    afterEnd := "\n" + post;
  }

  lemma SpanMeaning(data: string)
    requires FindMarkers(data).Span?
    ensures
      var m := FindMarkers(data);
      Free(data[..m.begin], BEGIN) && Free(data[..m.begin], END)
  {
    var pre := data[..FindMarkers(data).begin];
    IndexIsFirst(data, BEGIN, 0);
    IndexIsFirst(data, END, 0);
    forall i: nat | i <= |pre| ensures !OccursAt(pre, BEGIN, i) && !OccursAt(pre, END, i) {
      assert OccursAt(pre, BEGIN, i) ==> OccursAt(data, BEGIN, i);
      assert OccursAt(pre, END, i) ==> OccursAt(data, END, i);
    }
  }

  lemma MissingMeaning(data: string)
    ensures FindMarkers(data) == Missing <==> Free(data, BEGIN) && Free(data, END)
  {
    IndexOfFree(data, BEGIN);
    IndexOfFree(data, END);
  }

  lemma TerminatedIsFree(text: string, m: string)
    requires IsMarker(m) && Free(text, m)
    ensures Free(Terminated(text), m)
  {
    NewlineIsFree(m);
    if Terminated(text) != text { FreeTogether(text, "\n", m); }
  }

  /** The first marker of the text. */
  predicate FirstAt(text: string, m: string, i: nat) {
    OccursAt(text, m, i) && forall k: nat {:trigger OccursAt(text, m, k)} | k < i :: !OccursAt(text, m, k)
  }

  /** A block is seen exactly where the first begin marker comes before the first end marker; it reaches to the end
      of that marker's line, or of the marker if more is on the line. */
  lemma SpanExactly(data: string, begin: nat, end: nat)
    ensures FindMarkers(data) == Span(begin, end) <==>
      FirstAt(data, BEGIN, begin) && exists e: nat :: FirstAt(data, END, e) && begin <= e && EndsAt(data, e, end)
  {
    IndexIsFirst(data, BEGIN, 0);
    IndexIsFirst(data, END, 0);
    var b, e := Index(data, BEGIN), Index(data, END);
    forall x: nat | FirstAt(data, BEGIN, x) ensures b == x { assert b >= 0; assert x >= b; }
    forall x: nat | FirstAt(data, END, x) ensures e == x { assert e >= 0; assert x >= e; }
    if b >= 0 { assert FirstAt(data, BEGIN, b); }
    if e >= 0 { assert FirstAt(data, END, e); }
  }

  predicate EndsAt(data: string, e: nat, end: nat) {
    && e + |END| <= |data|
    && end == e + |END| + if e + |END| < |data| && data[e + |END|] == '\n' then 1 else 0
  }

  /** Markers are corrupt exactly if there is a marker and no block is seen. */
  lemma CorruptExactly(data: string)
    ensures FindMarkers(data) == Corrupt <==>
      (!Free(data, BEGIN) || !Free(data, END))
      && !exists b: nat, e: nat :: FirstAt(data, BEGIN, b) && FirstAt(data, END, e) && b <= e
  {
    MissingMeaning(data);
    if FindMarkers(data).Span? {
      SpanExactly(data, FindMarkers(data).begin, FindMarkers(data).end);
    }
    if b: nat, e: nat :| FirstAt(data, BEGIN, b) && FirstAt(data, END, e) && b <= e {
      var end := e + |END| + if e + |END| < |data| && data[e + |END|] == '\n' then 1 else 0;
      assert EndsAt(data, e, end);
      SpanExactly(data, b, end);
    }
  }

  /** A first plan ends an unfinished last line, and only that, before the block; a plan counts as a change exactly
      if the text differs. */
  lemma PlanChanges(existing: string)
    requires Plan(existing) != Failed
    ensures Plan(existing).changed <==> Plan(existing).content != existing
    ensures Free(existing, BEGIN) && Free(existing, END) ==>
      Plan(existing) == Planned(existing
        + (if existing == "" || existing[|existing| - 1] == '\n' then "" else "\n") + BLOCK, true)
  {
    MissingMeaning(existing);
    assert existing + "" == existing;
    if FindMarkers(existing) == Missing { assert |Plan(existing).content| > |existing|; }
  }

  /** Where a plan puts the block, and what it keeps around it. */
  lemma PlanKeepsTheRest(existing: string) returns (pre: string, post: string)
    requires Plan(existing) != Failed
    ensures Plan(existing).content == pre + BLOCK + post
    ensures FindMarkers(Plan(existing).content) == Span(|pre|, |pre| + |BLOCK|)
    ensures
      match FindMarkers(existing)
      case Span(begin, end) => pre == existing[..begin] && post == existing[end..]
      case _ => pre == Terminated(existing) && post == ""
  {
    MarkersAreMarkers();
    var m := FindMarkers(existing);
    if m.Span? {
      pre, post := existing[..m.begin], existing[m.end..];
      SpanMeaning(existing);
    } else {
      pre, post := Terminated(existing), "";
      MissingMeaning(existing);
      TerminatedIsFree(existing, BEGIN);
      TerminatedIsFree(existing, END);
    }
    BlockIsFound(pre, post);
    assert pre + BLOCK + "" == pre + BLOCK;
  }

  /** Planning what was planned changes nothing, and the file is seen as installed; a plan fails only on
      corrupt markers, and then so does uninstalling. */
  lemma PlanTwice(existing: string)
    ensures Plan(existing) == Failed <==> Doctor(existing) == CorruptMarkers
    ensures Uninstall(existing) == Failed <==> Doctor(existing) == CorruptMarkers
    ensures Plan(existing) != Failed ==>
      var planned := Plan(existing).content;
      Plan(planned) == Planned(planned, false) && Doctor(planned) == Installed
  {
    if Plan(existing) != Failed {
      var pre, post := PlanKeepsTheRest(existing);
      var planned := Plan(existing).content;
      assert planned[..|pre|] == pre && planned[|pre| + |BLOCK|..] == post;
    }
  }

  /** Uninstalling undoes planning, up to the newline that planning may have had to add; and where a
      block was already there, planning makes no difference to it. */
  lemma UninstallUndoesPlan(existing: string)
    requires Plan(existing) != Failed
    ensures
      Uninstall(Plan(existing).content) ==
      match FindMarkers(existing)
      case Span(_, _) => Uninstall(existing)
      case _ => Uninstalled(Terminated(existing))
  {
    var pre, post := PlanKeepsTheRest(existing);
    var planned := Plan(existing).content;
    assert planned[..|pre|] == pre && planned[|pre| + |BLOCK|..] == post;
    assert pre + "" == pre;
  }

  /** A marker comes together where the two texts meet. */
  predicate Bridges(pre: string, post: string, m: string) {
    exists k :: 0 < k < |m| && BridgesAt(pre, post, m, k)
  }

  predicate BridgesAt(pre: string, post: string, m: string, k: nat)
    requires k <= |m|
  {
    && k <= |pre| && |m| - k <= |post|
    && (forall i :: 0 <= i < k ==> pre[|pre| - k + i] == m[i])
    && forall i :: 0 <= i < |m| - k ==> post[i] == m[k + i]
  }

  lemma JoinIsFree(pre: string, post: string, m: string)
    requires IsMarker(m)
    ensures Free(pre + post, m) <==> Free(pre, m) && Free(post, m) && !Bridges(pre, post, m)
  {
    var t := pre + post;
    forall i: nat | i <= |pre| && OccursAt(pre, m, i) ensures !Free(t, m) { OccursLeft(pre, post, m, i); }
    forall i: nat | i <= |post| && OccursAt(post, m, i) ensures !Free(t, m) { OccursRight(pre, post, m, i); }
    forall k | 0 < k < |m| && BridgesAt(pre, post, m, k) ensures !Free(t, m) { OccursBetween(pre, post, m, k); }
    forall i: nat | i <= |t| && OccursAt(t, m, i) ensures !Free(pre, m) || !Free(post, m) || Bridges(pre, post, m) {
      Somewhere(pre, post, m, i);
    }
  }

  lemma OccursLeft(pre: string, post: string, m: string, i: nat)
    requires OccursAt(pre, m, i)
    ensures OccursAt(pre + post, m, i)
  {
    assert forall k :: 0 <= k < |m| ==> m[k] == pre[i + k] == (pre + post)[i + k];
  }

  lemma OccursRight(pre: string, post: string, m: string, i: nat)
    requires OccursAt(post, m, i)
    ensures OccursAt(pre + post, m, |pre| + i)
  {
    assert forall k :: 0 <= k < |m| ==> m[k] == post[i + k] == (pre + post)[|pre| + i + k];
  }

  lemma OccursBetween(pre: string, post: string, m: string, k: nat)
    requires 0 < k < |m| && BridgesAt(pre, post, m, k)
    ensures OccursAt(pre + post, m, |pre| - k)
  {
    var t, i := pre + post, |pre| - k;
    forall n | 0 <= n < |m| ensures m[n] == t[i + n] {
      if n < k { assert t[i + n] == pre[|pre| - k + n]; } else { assert t[i + n] == post[n - k] == m[k + (n - k)]; }
    }
  }

  lemma Somewhere(pre: string, post: string, m: string, i: nat)
    requires IsMarker(m) && OccursAt(pre + post, m, i)
    ensures !Free(pre, m) || !Free(post, m) || Bridges(pre, post, m)
  {
    var t := pre + post;
    assert forall k :: 0 <= k < |m| ==> m[k] == t[i + k];
    if i + |m| <= |pre| {
      assert OccursAt(pre, m, i);
    } else if i >= |pre| {
      assert OccursAt(post, m, i - |pre|);
    } else {
      var k := |pre| - i;
      assert forall n :: 0 <= n < |m| - k ==> post[n] == t[|pre| + n] == m[k + n];
      assert BridgesAt(pre, post, m, k);
    }
  }

  /** After uninstalling, the file counts as not installed exactly when no marker followed the block, and
      none comes together from what was on its two sides. */
  lemma UninstallCleans(existing: string)
    requires FindMarkers(existing).Span?
    ensures
      var m := FindMarkers(existing);
      var pre, post := existing[..m.begin], existing[m.end..];
      Doctor(Uninstall(existing).content) == NotInstalled <==>
        && Free(post, BEGIN) && Free(post, END)
        && !Bridges(pre, post, BEGIN) && !Bridges(pre, post, END)
  {
    MarkersAreMarkers();
    var m := FindMarkers(existing);
    var pre, post := existing[..m.begin], existing[m.end..];
    SpanMeaning(existing);
    MissingMeaning(pre + post);
    JoinIsFree(pre, post, BEGIN);
    JoinIsFree(pre, post, END);
  }

  /** Nothing comes together around a block that started its line. */
  lemma LineStartNeverBridges(pre: string, post: string, m: string)
    requires IsMarker(m) && (pre == "" || pre[|pre| - 1] == '\n')
    ensures !Bridges(pre, post, m)
  {
    forall k | 0 < k < |m| ensures !BridgesAt(pre, post, m, k) {
      if BridgesAt(pre, post, m, k) { LastOfBridge(pre, post, m, k); }
    }
  }

  lemma LastOfBridge(pre: string, post: string, m: string, k: nat)
    requires 0 < k < |m| && BridgesAt(pre, post, m, k)
    ensures pre != "" && pre[|pre| - 1] == m[k - 1]
  {
    assert pre[|pre| - k + (k - 1)] == m[k - 1];
  }
}
