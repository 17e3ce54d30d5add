/** `unifiedDiff`: a longest-common-subsequence table, a walk through it, and the text it prints. */
module Diff {
  import opened Text

  // -------------------------------------------------------- edit scripts

  datatype Edit = Keep(line: string) | Insert(line: string) | Delete(line: string)

  /** What the script starts from, and what it arrives at. */
  function Before(script: seq<Edit>): seq<string> {
    if script == [] then []
    else
      var init, e := Before(script[..|script| - 1]), script[|script| - 1];
      if e.Insert? then init else init + [e.line]
  }

  function After(script: seq<Edit>): seq<string> {
    if script == [] then []
    else
      var init, e := After(script[..|script| - 1]), script[|script| - 1];
      if e.Delete? then init else init + [e.line]
  }

  function Kept(script: seq<Edit>): seq<string> {
    if script == [] then []
    else
      var init, e := Kept(script[..|script| - 1]), script[|script| - 1];
      if e.Keep? then init + [e.line] else init
  }

  function Render(script: seq<Edit>): string {
    if script == [] then "" else Render(script[..|script| - 1]) + RenderLine(script[|script| - 1])
  }

  function Tagged(e: Edit): string {
    match e case Keep(l) => " " + l case Insert(l) => "+" + l case Delete(l) => "-" + l
  }

  function RenderLine(e: Edit): string {
    Tagged(e) + "\n"
  }

  lemma Append(script: seq<Edit>, e: Edit)
    ensures Before(script + [e]) == if e.Insert? then Before(script) else Before(script) + [e.line]
    ensures After(script + [e]) == if e.Delete? then After(script) else After(script) + [e.line]
    ensures Kept(script + [e]) == if e.Keep? then Kept(script) + [e.line] else Kept(script)
    ensures Render(script + [e]) == Render(script) + RenderLine(e)
  {
    assert (script + [e])[..|script|] == script;
  }

  lemma {:induction false} ScriptLength(script: seq<Edit>)
    ensures |script| + |Kept(script)| == |Before(script)| + |After(script)|
  {
    if script != [] {
      ScriptLength(script[..|script| - 1]);
    }
  }

  // ------------------------------------------- longest common subsequences

  /** From its `k`-th line on, `c` is a subsequence of `a` from the `i`-th line on. */
  ghost predicate Embeds(c: seq<string>, k: nat, a: seq<string>, i: nat)
    decreases |a| - i
  {
    k >= |c| || (i < |a| && ((c[k] == a[i] && Embeds(c, k + 1, a, i + 1)) || Embeds(c, k, a, i + 1)))
  }

  ghost predicate Subsequence(c: seq<string>, a: seq<string>) {
    Embeds(c, 0, a, 0)
  }

  /** The length of a longest common subsequence of the suffixes of `a` and `b`. */
  function Lcs(a: seq<string>, b: seq<string>, i: nat, j: nat): nat
    decreases |a| - i + |b| - j
  {
    if i >= |a| || j >= |b| then 0
    else if a[i] == b[j] then Lcs(a, b, i + 1, j + 1) + 1
    else if Lcs(a, b, i + 1, j) >= Lcs(a, b, i, j + 1) then Lcs(a, b, i + 1, j)
    else Lcs(a, b, i, j + 1)
  }

  lemma {:induction false} LcsStep(a: seq<string>, b: seq<string>, i: nat, j: nat)
    requires i <= |a| && j <= |b|
    ensures i < |a| ==> Lcs(a, b, i + 1, j) <= Lcs(a, b, i, j) <= Lcs(a, b, i + 1, j) + 1
    ensures j < |b| ==> Lcs(a, b, i, j + 1) <= Lcs(a, b, i, j) <= Lcs(a, b, i, j + 1) + 1
    decreases |a| - i + |b| - j
  {
    if i < |a| && j < |b| {
      LcsStep(a, b, i + 1, j);
      LcsStep(a, b, i, j + 1);
      LcsStep(a, b, i + 1, j + 1);
    }
  }

  /** No common subsequence is longer. */
  lemma {:induction false} LcsBoundsAll(c: seq<string>, k: nat, a: seq<string>, b: seq<string>, i: nat, j: nat)
    requires i <= |a| && j <= |b| && Embeds(c, k, a, i) && Embeds(c, k, b, j)
    ensures |c| - k <= Lcs(a, b, i, j)
    decreases |a| - i + |b| - j
  {
    if k < |c| {
      LcsStep(a, b, i, j);
      if Embeds(c, k, a, i + 1) {
        LcsBoundsAll(c, k, a, b, i + 1, j);
      } else if Embeds(c, k, b, j + 1) {
        LcsBoundsAll(c, k, a, b, i, j + 1);
      } else {
        LcsBoundsAll(c, k + 1, a, b, i + 1, j + 1);
      }
    }
  }

  lemma {:induction false} EmbeddingGrows(c: seq<string>, k: nat, a: seq<string>, i: nat, x: string)
    requires k <= |c| && i <= |a| && Embeds(c, k, a, i)
    ensures Embeds(c, k, a + [x], i) && Embeds(c + [x], k, a + [x], i)
    decreases |a| - i
  {
    var a', c' := a + [x], c + [x];
    if i == |a| {
      assert a'[i] == x && c'[k] == x;
    } else {
      assert a'[i] == a[i] && (k < |c| ==> c'[k] == c[k]);
      if k < |c| && c[k] == a[i] && Embeds(c, k + 1, a, i + 1) { EmbeddingGrows(c, k + 1, a, i + 1, x); }
      if k >= |c| || Embeds(c, k, a, i + 1) { EmbeddingGrows(c, k, a, i + 1, x); }
    }
  }

  /** What a script keeps is common to both sides. */
  lemma {:induction false} KeptIsCommon(script: seq<Edit>)
    ensures Subsequence(Kept(script), Before(script)) && Subsequence(Kept(script), After(script))
  {
    if script != [] {
      var init, e := script[..|script| - 1], script[|script| - 1];
      KeptIsCommon(init);
      if !e.Insert? { EmbeddingGrows(Kept(init), 0, Before(init), 0, e.line); }
      if !e.Delete? { EmbeddingGrows(Kept(init), 0, After(init), 0, e.line); }
    }
  }

  /** No script between the same two texts is shorter than the walk's. */
  lemma NoShorterScript(other: seq<Edit>)
    ensures |Script(Before(other), After(other), 0, 0)| <= |other|
  {
    var a, b := Before(other), After(other);
    ScriptIsFaithful(a, b, 0, 0);
    ScriptLength(Script(a, b, 0, 0));
    ScriptLength(other);
    KeptIsCommon(other);
    LcsBoundsAll(Kept(other), 0, a, b, 0, 0);
  }

  // ------------------------------------------------------------- splitting

  /** Text cut at its newlines: the lines that end in one, and what follows the last. */
  datatype Cut = Cut(done: seq<string>, last: string)

  function CutLines(text: string): Cut {
    if text == "" then Cut([], "")
    else
      var r, c := CutLines(text[..|text| - 1]), text[|text| - 1];
      if c == '\n' then Cut(r.done + [r.last], "") else Cut(r.done, r.last + [c])
  }

  lemma CutOneMore(x: string, c: char)
    ensures CutLines(x + [c]) ==
      var r := CutLines(x); if c == '\n' then Cut(r.done + [r.last], "") else Cut(r.done, r.last + [c])
  {
    assert (x + [c])[..|x|] == x;
  }

  lemma {:induction false} CutLinesJoin(text: string)
    ensures var r := CutLines(text); text == Terminated(r.done) + r.last
    decreases |text|
  {
    if text != "" {
      var init, c := text[..|text| - 1], text[|text| - 1];
      assert text == init + [c];
      CutLinesJoin(init);
      CutOneMore(init, c);
      TerminatedNext(CutLines(init).done, CutLines(init).last);
    }
  }

  predicate OneLine(l: string) { '\n' !in l }

  lemma {:induction false} CutLinesAreLines(text: string)
    ensures var r := CutLines(text); OneLine(r.last) && forall k :: 0 <= k < |r.done| ==> OneLine(r.done[k])
    decreases |text|
  {
    if text != "" {
      CutLinesAreLines(text[..|text| - 1]);
    }
  }

  /** Each line followed by a newline. */
  function Terminated(lines: seq<string>): string {
    if lines == [] then "" else Terminated(lines[..|lines| - 1]) + lines[|lines| - 1] + "\n"
  }

  lemma TerminatedNext(lines: seq<string>, l: string)
    ensures Terminated(lines + [l]) == Terminated(lines) + l + "\n"
  {
    assert (lines + [l])[..|lines|] == lines;
  }

  /** The lines with a newline between each two of them: the inverse of `strings.Split`. */
  function Join(lines: seq<string>): string {
    if lines == [] then "" else Terminated(lines[..|lines| - 1]) + lines[|lines| - 1]
  }

  lemma JoinOfCut(c: Cut)
    ensures Join(c.done + [c.last]) == Terminated(c.done) + c.last
  {
    var lines := c.done + [c.last];
    assert lines[..|lines| - 1] == c.done;
  }

  predicate EndsWithNewline(data: string) {
    data != "" && data[|data| - 1] == '\n'
  }

  function SplitDiffLines(data: string): seq<string> {
    var text := Chomp(data);
    var c := CutLines(text);
    if text == "" then [] else c.done + [c.last]
  }

  function Chomp(data: string): string {
    if EndsWithNewline(data) then data[..|data| - 1] else data
  }

  /** Splitting loses nothing but the final newline, and no line has one inside. */
  lemma SplitLosesNothing(data: string)
    ensures data == Join(SplitDiffLines(data)) + (if EndsWithNewline(data) then "\n" else "")
    ensures forall k :: 0 <= k < |SplitDiffLines(data)| ==> OneLine(SplitDiffLines(data)[k])
  {
    SplitIntoLines(data, SplitDiffLines(data));
    LinesJoin(Chomp(data));
    ChompedOff(data);
  }

  lemma ChompedOff(data: string)
    ensures data == Chomp(data) + if EndsWithNewline(data) then "\n" else ""
  {}

  lemma SplitIntoLines(data: string, lines: seq<string>)
    requires lines == SplitDiffLines(data)
    ensures forall k :: 0 <= k < |lines| ==> OneLine(lines[k])
  {
    CutLinesAreLines(Chomp(data));
  }

  lemma LinesJoin(text: string)
    ensures Join(CutLines(text).done + [CutLines(text).last]) == text
  {
    CutLinesJoin(text);
    JoinOfCut(CutLines(text));
  }

  function Newlines(text: string): nat {
    if text == "" then 0 else Newlines(text[..|text| - 1]) + if text[|text| - 1] == '\n' then 1 else 0
  }

  lemma {:induction false} CutAtEachNewline(text: string)
    ensures |CutLines(text).done| == Newlines(text)
    decreases |text|
  {
    if text != "" { CutAtEachNewline(text[..|text| - 1]); }
  }

  /** How many lines there are: none in empty text and in a lone newline, otherwise one for each newline and one
      for what follows the last. */
  lemma LineCount(data: string)
    ensures
      |SplitDiffLines(data)| ==
      if data == "" || data == "\n" then 0 else Newlines(data) + if EndsWithNewline(data) then 0 else 1
  {
    CutAtEachNewline(Chomp(data));
    if EndsWithNewline(data) { assert Chomp(data) == "" ==> data == [data[0]]; }
  }

  // --------------------------------------------------------------- the walk

  /** The bottom-up table: every cell is the true length for the two suffixes. */
  method LcsTable(a: seq<string>, b: seq<string>) returns (lengths: array2<nat>)
    ensures fresh(lengths) && lengths.Length0 == |a| + 1 && lengths.Length1 == |b| + 1
    ensures forall i, j {:trigger lengths[i, j]} :: 0 <= i <= |a| && 0 <= j <= |b| ==> lengths[i, j] == Lcs(a, b, i, j)
  {
    lengths := new nat[|a| + 1, |b| + 1]((_, _) => 0);
    for i := |a| downto 0
      invariant forall k, j {:trigger lengths[k, j]} ::
        i <= k <= |a| && 0 <= j <= |b| ==> lengths[k, j] == Lcs(a, b, k, j)
      invariant forall k :: 0 <= k <= |a| ==> lengths[k, |b|] == 0
    {
      for j := |b| downto 0
        invariant forall k, l {:trigger lengths[k, l]} ::
          i < k <= |a| && 0 <= l <= |b| ==> lengths[k, l] == Lcs(a, b, k, l)
        invariant forall l {:trigger lengths[i, l]} :: j <= l <= |b| ==> lengths[i, l] == Lcs(a, b, i, l)
        invariant forall k :: 0 <= k <= |a| ==> lengths[k, |b|] == 0
      {
        if a[i] == b[j] {
          lengths[i, j] := lengths[i + 1, j + 1] + 1;
        } else if lengths[i + 1, j] >= lengths[i, j + 1] {
          lengths[i, j] := lengths[i + 1, j];
        } else {
          lengths[i, j] := lengths[i, j + 1];
        }
      }
    }
  }

  /** The script of the walk from (i, j) on; at equal lengths it inserts before it deletes. */
  function Script(a: seq<string>, b: seq<string>, i: nat, j: nat): seq<Edit>
    requires i <= |a| && j <= |b|
    decreases |a| - i + |b| - j
  {
    if i == |a| && j == |b| then []
    else if i < |a| && j < |b| && a[i] == b[j] then [Keep(a[i])] + Script(a, b, i + 1, j + 1)
    else if j < |b| && (i == |a| || Lcs(a, b, i, j + 1) >= Lcs(a, b, i + 1, j)) then
      [Insert(b[j])] + Script(a, b, i, j + 1)
    else [Delete(a[i])] + Script(a, b, i + 1, j)
  }

  lemma {:induction false} Prepend(e: Edit, script: seq<Edit>)
    ensures Before([e] + script) == (if e.Insert? then [] else [e.line]) + Before(script)
    ensures After([e] + script) == (if e.Delete? then [] else [e.line]) + After(script)
    ensures |Kept([e] + script)| == (if e.Keep? then 1 else 0) + |Kept(script)|
    decreases |script|
  {
    if script == [] {
      assert [e] + script == [] + [e];
      Append([], e);
    } else {
      var init, last := script[..|script| - 1], script[|script| - 1];
      Prepend(e, init);
      PrependAcross(e, init, last, script);
      Regroup(if e.Insert? then [] else [e.line], Before(init), [last.line]);
      Regroup(if e.Delete? then [] else [e.line], After(init), [last.line]);
    }
  }

  lemma PrependAcross(e: Edit, init: seq<Edit>, last: Edit, script: seq<Edit>)
    requires script == init + [last]
    ensures Before([e] + script) == if last.Insert? then Before([e] + init) else Before([e] + init) + [last.line]
    ensures After([e] + script) == if last.Delete? then After([e] + init) else After([e] + init) + [last.line]
    ensures Kept([e] + script) == if last.Keep? then Kept([e] + init) + [last.line] else Kept([e] + init)
  {
    assert [e] + script == ([e] + init) + [last];
    Append([e] + init, last);
  }

  /** The walk's script turns `a` into `b` and keeps as many lines as any common subsequence has. */
  lemma {:induction false} ScriptIsFaithful(a: seq<string>, b: seq<string>, i: nat, j: nat)
    requires i <= |a| && j <= |b|
    ensures Before(Script(a, b, i, j)) == a[i..] && After(Script(a, b, i, j)) == b[j..]
    ensures |Kept(Script(a, b, i, j))| == Lcs(a, b, i, j)
    decreases |a| - i + |b| - j
  {
    if i == |a| && j == |b| {
    } else if i < |a| && j < |b| && a[i] == b[j] {
      ScriptIsFaithful(a, b, i + 1, j + 1);
      Prepend(Keep(a[i]), Script(a, b, i + 1, j + 1));
      Uncons(a, i);
      Uncons(b, j);
    } else if j < |b| && (i == |a| || Lcs(a, b, i, j + 1) >= Lcs(a, b, i + 1, j)) {
      ScriptIsFaithful(a, b, i, j + 1);
      Prepend(Insert(b[j]), Script(a, b, i, j + 1));
      Uncons(b, j);
    } else {
      ScriptIsFaithful(a, b, i + 1, j);
      Prepend(Delete(a[i]), Script(a, b, i + 1, j));
      Uncons(a, i);
    }
  }

  /** From nothing, and to nothing. */
  lemma {:induction false} OneSided(a: seq<string>, b: seq<string>, i: nat, j: nat)
    requires i <= |a| && j <= |b|
    ensures i == |a| ==> forall e :: e in Script(a, b, i, j) ==> e.Insert?
    ensures j == |b| ==> forall e :: e in Script(a, b, i, j) ==> e.Delete?
    decreases |a| - i + |b| - j
  {
    if i == |a| && j < |b| { OneSided(a, b, i, j + 1); }
    if i < |a| && j == |b| { OneSided(a, b, i + 1, j); }
  }

  /** No insertion directly behind a deletion: where lines are replaced, the new ones are printed first. */
  ghost predicate NewLinesFirst(script: seq<Edit>) {
    forall k :: 0 < k < |script| && script[k].Insert? ==> !script[k - 1].Delete?
  }

  lemma {:induction false} InsertsComeFirst(a: seq<string>, b: seq<string>, i: nat, j: nat)
    requires i <= |a| && j <= |b|
    ensures NewLinesFirst(Script(a, b, i, j))
    decreases |a| - i + |b| - j
  {
    if i == |a| && j == |b| {
    } else if i < |a| && j < |b| && a[i] == b[j] {
      InsertsComeFirst(a, b, i + 1, j + 1);
      FirstBehind(Keep(a[i]), Script(a, b, i + 1, j + 1));
    } else if j < |b| && (i == |a| || Lcs(a, b, i, j + 1) >= Lcs(a, b, i + 1, j)) {
      InsertsComeFirst(a, b, i, j + 1);
      FirstBehind(Insert(b[j]), Script(a, b, i, j + 1));
    } else {
      InsertsComeFirst(a, b, i + 1, j);
      NoInsertNext(a, b, i, j);
      FirstBehind(Delete(a[i]), Script(a, b, i + 1, j));
    }
  }

  lemma FirstBehind(e: Edit, script: seq<Edit>)
    requires NewLinesFirst(script) && (e.Delete? && script != [] ==> !script[0].Insert?)
    ensures NewLinesFirst([e] + script)
  {
    var whole := [e] + script;
    forall k | 0 < k < |whole| && whole[k].Insert? ensures !whole[k - 1].Delete? { assert whole[k] == script[k - 1]; }
  }

  /** Where the walk deletes, an insertion is no better choice at the next line either. */
  lemma NoInsertNext(a: seq<string>, b: seq<string>, i: nat, j: nat)
    requires i < |a| && j <= |b| && (j < |b| ==> a[i] != b[j] && Lcs(a, b, i, j + 1) < Lcs(a, b, i + 1, j))
    ensures var rest := Script(a, b, i + 1, j); rest != [] ==> !rest[0].Insert?
  {
    if j < |b| && i + 1 < |a| {
      LcsStep(a, b, i, j + 1);
      LcsStep(a, b, i + 1, j);
    }
  }

  /** Lines that both texts start with are kept. */
  lemma {:induction false} CommonStartIsKept(a: seq<string>, b: seq<string>, i: nat, n: nat)
    requires i + n <= |a| && i + n <= |b| && forall k :: i <= k < i + n ==> a[k] == b[k]
    ensures KeepsFrom(Script(a, b, i, i), a, i, n)
    decreases n
  {
    if n > 0 {
      CommonStartIsKept(a, b, i + 1, n - 1);
      KeepsOneMore(Script(a, b, i + 1, i + 1), a, i, n);
    }
  }

  predicate KeepsFrom(script: seq<Edit>, a: seq<string>, i: nat, n: nat)
    requires i + n <= |a|
  {
    |script| >= n && forall k :: 0 <= k < n ==> script[k] == Keep(a[i + k])
  }

  lemma KeepsOneMore(rest: seq<Edit>, a: seq<string>, i: nat, n: nat)
    requires n > 0 && i + n <= |a| && KeepsFrom(rest, a, i + 1, n - 1)
    ensures KeepsFrom([Keep(a[i])] + rest, a, i, n)
  {
    var script := [Keep(a[i])] + rest;
    forall k | 0 < k < n ensures script[k] == Keep(a[i + k]) { assert rest[k - 1] == Keep(a[i + 1 + (k - 1)]); }
  }

  lemma Uncons(a: seq<string>, i: nat)
    requires i < |a|
    ensures a[i..] == [a[i]] + a[i + 1..]
  {}

  /** The walk from (0, 0) prints the script. */
  method Walk(a: seq<string>, b: seq<string>, lengths: array2<nat>) returns (out: string)
    requires lengths.Length0 == |a| + 1 && lengths.Length1 == |b| + 1
    requires forall i, j {:trigger lengths[i, j]} :: 0 <= i <= |a| && 0 <= j <= |b| ==> lengths[i, j] == Lcs(a, b, i, j)
    ensures out == Render(Script(a, b, 0, 0))
  {
    out := "";
    ghost var todo := Script(a, b, 0, 0);
    ghost var whole := Render(todo);
    var i, j := 0, 0;
    while i < |a| || j < |b|
      invariant 0 <= i <= |a| && 0 <= j <= |b| && todo == Script(a, b, i, j)
      invariant whole == out + Render(todo)
      decreases |a| - i + |b| - j
    {
      var line;
      ghost var e;
      ghost var before := todo;
      line, i, j, e, todo := NextLine(a, b, lengths, i, j);
      Printed(out, e, todo, before, line);
      out := out + line;
    }
    NothingToPrint(todo);
  }

  /** One round of the walk's loop. */
  method NextLine(a: seq<string>, b: seq<string>, lengths: array2<nat>, i0: nat, j0: nat)
    returns (line: string, i: nat, j: nat, ghost e: Edit, ghost rest: seq<Edit>)
    requires lengths.Length0 == |a| + 1 && lengths.Length1 == |b| + 1
    requires forall i, j {:trigger lengths[i, j]} :: 0 <= i <= |a| && 0 <= j <= |b| ==> lengths[i, j] == Lcs(a, b, i, j)
    requires i0 <= |a| && j0 <= |b| && (i0 < |a| || j0 < |b|)
    ensures i0 <= i <= |a| && j0 <= j <= |b| && i0 + j0 < i + j
    ensures Script(a, b, i0, j0) == [e] + rest && rest == Script(a, b, i, j) && line == RenderLine(e)
  {
    i, j := i0, j0;
    if i < |a| && j < |b| && a[i] == b[j] {
      e, line := Keep(a[i]), " " + a[i] + "\n";
      i, j := i + 1, j + 1;
    } else if j < |b| && (i == |a| || lengths[i, j + 1] >= lengths[i + 1, j]) {
      e, line := Insert(b[j]), "+" + b[j] + "\n";
      j := j + 1;
    } else {
      e, line := Delete(a[i]), "-" + a[i] + "\n";
      i := i + 1;
    }
    rest := Script(a, b, i, j);
  }

  lemma NothingToPrint(todo: seq<Edit>)
    requires todo == []
    ensures Render(todo) == ""
  {}

  lemma Printed(out: string, e: Edit, rest: seq<Edit>, todo: seq<Edit>, line: string)
    requires line == RenderLine(e) && todo == [e] + rest
    ensures out + Render(todo) == (out + line) + Render(rest)
  {
    RenderFirst(e, rest, todo);
    Regroup(out, line, Render(rest));
  }

  lemma {:induction false} RenderFirst(e: Edit, script: seq<Edit>, whole: seq<Edit>)
    requires whole == [e] + script
    ensures Render(whole) == RenderLine(e) + Render(script)
    decreases |script|
  {
    if script == [] {
      RenderOne(e, whole, script);
    } else {
      var init, start := LastApart(e, script, whole);
      RenderFirst(e, init, start);
      LastMoves(e, init, script[|script| - 1], start, script, whole);
    }
  }

  lemma LastApart(e: Edit, script: seq<Edit>, whole: seq<Edit>) returns (init: seq<Edit>, start: seq<Edit>)
    requires whole == [e] + script && script != []
    ensures |init| < |script| && start == [e] + init
    ensures script == init + [script[|script| - 1]] && whole == start + [script[|script| - 1]]
  {
    init := script[..|script| - 1];
    start := [e] + init;
  }

  lemma RenderOne(e: Edit, whole: seq<Edit>, nothing: seq<Edit>)
    requires whole == [e] && nothing == []
    ensures Render(whole) == RenderLine(e) + Render(nothing)
  {
    RenderLast(nothing, e, whole);
  }

  lemma LastMoves(e: Edit, init: seq<Edit>, last: Edit, start: seq<Edit>, script: seq<Edit>, whole: seq<Edit>)
    requires Render(start) == RenderLine(e) + Render(init)
    requires whole == start + [last] && script == init + [last]
    ensures Render(whole) == RenderLine(e) + Render(script)
  {
    RenderLast(start, last, whole);
    RenderLast(init, last, script);
    Chain(Render(whole), RenderLine(e), Render(init), RenderLine(last), Render(script));
  }

  lemma RenderLast(init: seq<Edit>, last: Edit, script: seq<Edit>)
    requires script == init + [last]
    ensures Render(script) == Render(init) + RenderLine(last)
  {
    Append(init, last);
  }

  lemma Chain(whole: string, first: string, middle: string, last: string, rest: string)
    requires whole == (first + middle) + last && rest == middle + last
    ensures whole == first + rest
  {}

  lemma Regroup<T>(x: seq<T>, y: seq<T>, z: seq<T>)
    ensures x + (y + z) == (x + y) + z
  {}

  const NO_CHANGES := "(no changes)"
  const HEADER := "--- existing\n+++ planned\n"
  const TRAILER := "\\ No newline at end of file\n"

  function ScriptOf(before: string, after: string): seq<Edit> {
    Script(SplitDiffLines(before), SplitDiffLines(after), 0, 0)
  }

  /** Exactly one side lacks the final newline. */
  predicate EndsDiffer(before: string, after: string) {
    EndsWithNewline(before) != EndsWithNewline(after)
  }

  /** The whole output. */
  function DiffText(before: string, after: string): string {
    if before == after then NO_CHANGES
    else HEADER + (Render(ScriptOf(before, after)) + if EndsDiffer(before, after) then TRAILER else "")
  }

  /** The diff as the source computes it. */
  method UnifiedDiff(before: string, after: string) returns (out: string)
    ensures out == DiffText(before, after)
  {
    if before == after {
      return NO_CHANGES;
    }
    var a, b := SplitDiffLines(before), SplitDiffLines(after);
    var lengths := LcsTable(a, b);
    var body := Walk(a, b, lengths);
    DiffTextOf(before, after, body, HEADER, TRAILER);
    out := HEADER + body;
    if EndsWithNewline(before) != EndsWithNewline(after) {
      out := out + TRAILER;
    }
  }

  lemma DiffTextOf(before: string, after: string, body: string, header: string, trailer: string)
    requires before != after && body == Render(ScriptOf(before, after)) && header == HEADER && trailer == TRAILER
    ensures DiffText(before, after) == if EndsDiffer(before, after) then header + body + trailer else header + body
  {
    Regroup(header, body, trailer);
    assert body + "" == body;
  }

  // -------------------------------------------------- reading the diff back

  /** The script that a printed one stands for, line by line. */
  function Read(body: string): seq<Edit> {
    ReadLines(CutLines(body).done)
  }

  function ReadLine(l: string): Edit {
    if l == "" then Keep(l)
    else if l[0] == '+' then Insert(l[1..])
    else if l[0] == '-' then Delete(l[1..])
    else Keep(l[1..])
  }

  function ReadLines(lines: seq<string>): seq<Edit> {
    if lines == [] then [] else ReadLines(lines[..|lines| - 1]) + [ReadLine(lines[|lines| - 1])]
  }

  lemma {:induction false} CutAppend(x: string, l: string)
    requires OneLine(l)
    ensures CutLines(x + l) == Cut(CutLines(x).done, CutLines(x).last + l)
    decreases |l|
  {
    var r := CutLines(x);
    if l == "" {
      assert x + l == x && r.last + l == r.last;
    } else {
      var init, c := l[..|l| - 1], l[|l| - 1];
      CutAppend(x, init);
      CutOneMore(x + init, c);
      assert x + init + [c] == x + l && r.last + init + [c] == r.last + l;
    }
  }

  lemma CutLine(x: string, l: string)
    requires OneLine(l) && CutLines(x).last == ""
    ensures CutLines(x + (l + "\n")) == Cut(CutLines(x).done + [l], "")
  {
    CutAppend(x, l);
    CutOneMore(x + l, '\n');
    assert "" + l == l;
    assert (x + l) + "\n" == x + (l + "\n");
  }

  lemma TaggedIsLine(e: Edit)
    requires OneLine(e.line)
    ensures OneLine(Tagged(e))
  {}

  lemma ReadTagged(e: Edit)
    ensures ReadLine(Tagged(e)) == e
  {
    assert Tagged(e)[1..] == e.line;
  }

  lemma ReadOneMore(lines: seq<string>, l: string, more: seq<string>)
    requires more == lines + [l]
    ensures ReadLines(more) == ReadLines(lines) + [ReadLine(l)]
  {
    assert more[..|lines|] == lines;
  }

  function TaggedLines(script: seq<Edit>): seq<string> {
    if script == [] then [] else TaggedLines(script[..|script| - 1]) + [Tagged(script[|script| - 1])]
  }

  lemma {:induction false} RenderCuts(script: seq<Edit>)
    requires forall k :: 0 <= k < |script| ==> OneLine(script[k].line)
    ensures CutLines(Render(script)) == Cut(TaggedLines(script), "")
    decreases |script|
  {
    if script != [] {
      var init, e := script[..|script| - 1], script[|script| - 1];
      RenderCuts(init);
      TaggedIsLine(e);
      CutLine(Render(init), Tagged(e));
    }
  }

  lemma {:induction false} TaggedLinesRead(script: seq<Edit>, lines: seq<string>)
    requires lines == TaggedLines(script)
    ensures ReadLines(lines) == script
    decreases |script|
  {
    if script != [] {
      var init, e := LastEdit(script);
      var before := TaggedOneMore(init, e, script);
      TaggedLinesRead(init, before);
      ReadOneMore(before, Tagged(e), lines);
      ReadTagged(e);
    }
  }

  lemma LastEdit(script: seq<Edit>) returns (init: seq<Edit>, last: Edit)
    requires script != []
    ensures |init| < |script| && script == init + [last]
  {
    init, last := script[..|script| - 1], script[|script| - 1];
  }

  lemma TaggedOneMore(init: seq<Edit>, last: Edit, script: seq<Edit>) returns (before: seq<string>)
    requires script == init + [last]
    ensures before == TaggedLines(init) && TaggedLines(script) == before + [Tagged(last)]
  {
    before := TaggedLines(init);
    assert script[..|script| - 1] == init;
  }

  /** A printed script reads back as itself when no line holds a newline, as no split line does. */
  lemma ReadUndoesRender(script: seq<Edit>)
    requires forall k :: 0 <= k < |script| ==> OneLine(script[k].line)
    ensures Read(Render(script)) == script
  {
    RenderCuts(script);
    TaggedLinesRead(script, TaggedLines(script));
  }

  lemma {:induction false} LinesOfScript(script: seq<Edit>)
    requires forall k :: 0 <= k < |Before(script)| ==> OneLine(Before(script)[k])
    requires forall k :: 0 <= k < |After(script)| ==> OneLine(After(script)[k])
    ensures forall k :: 0 <= k < |script| ==> OneLine(script[k].line)
  {
    if script != [] {
      var init, e := script[..|script| - 1], script[|script| - 1];
      assert script == init + [e];
      Append(init, e);
      assert forall k :: 0 <= k < |Before(init)| ==> Before(init)[k] == Before(script)[k];
      assert forall k :: 0 <= k < |After(init)| ==> After(init)[k] == After(script)[k];
      LinesOfScript(init);
      if !e.Insert? {
        assert Before(script)[|Before(init)|] == e.line;
      } else {
        assert After(script)[|After(init)|] == e.line;
      }
    }
  }

  /** A diff of unequal inputs always shows a difference: an inserted or deleted line, or the trailer. */
  lemma NothingHidden(before: string, after: string)
    requires before != after && EndsWithNewline(before) == EndsWithNewline(after)
    ensures exists e :: e in ScriptOf(before, after) && !e.Keep?
  {
    var script := ScriptOf(before, after);
    ScriptIsFaithful(SplitDiffLines(before), SplitDiffLines(after), 0, 0);
    SameLines(before, after);
    if forall e :: e in script ==> e.Keep? {
      AllKept(script);
    }
  }

  lemma SameLines(before: string, after: string)
    requires EndsWithNewline(before) == EndsWithNewline(after)
    ensures SplitDiffLines(before) == SplitDiffLines(after) ==> before == after
  {
    SplitLosesNothing(before);
    SplitLosesNothing(after);
  }

  lemma {:induction false} AllKept(script: seq<Edit>)
    requires forall k :: 0 <= k < |script| ==> script[k].Keep?
    ensures Before(script) == After(script)
  {
    if script != [] { AllKept(script[..|script| - 1]); }
  }

  // -------------------------------------------------- what the whole output says

  /** The two pairs of inputs differ at most in their final newlines. */
  predicate SameUpToEnds(before: string, after: string, before': string, after': string) {
    && SplitDiffLines(before) == SplitDiffLines(before') && SplitDiffLines(after) == SplitDiffLines(after')
    && EndsDiffer(before, after) == EndsDiffer(before', after')
  }

  /** The output, header and trailer included, tells apart all pairs of inputs but those with the same
      lines and the same answer to whether exactly one side lacks the final newline. */
  lemma DiffTextDetermines(before: string, after: string, before': string, after': string)
    ensures DiffText(before, after) == DiffText(before', after') <==>
      if before == after || before' == after' then before == after && before' == after'
      else SameUpToEnds(before, after, before', after')
  {
    if before == after || before' == after' {
      HeaderIsNotNotice(before, after);
      HeaderIsNotNotice(before', after');
    } else {
      var x := Render(ScriptOf(before, after)) + if EndsDiffer(before, after) then TRAILER else "";
      var y := Render(ScriptOf(before', after')) + if EndsDiffer(before', after') then TRAILER else "";
      SameBehind(HEADER, x, y);
      if x == y { BodyDetermines(before, after, before', after'); }
    }
  }

  lemma HeaderIsNotNotice(before: string, after: string)
    ensures DiffText(before, after) == NO_CHANGES <==> before == after
  {
    if before != after {
      assert DiffText(before, after)[0] == HEADER[0] == '-';
      assert NO_CHANGES[0] == '(';
    }
  }

  lemma SameBehind(head: string, x: string, y: string)
    ensures head + x == head + y <==> x == y
  {
    assert (head + x)[|head|..] == x && (head + y)[|head|..] == y;
  }

  lemma BodyDetermines(before: string, after: string, before': string, after': string)
    requires Render(ScriptOf(before, after)) + (if EndsDiffer(before, after) then TRAILER else "")
      == Render(ScriptOf(before', after')) + (if EndsDiffer(before', after') then TRAILER else "")
    ensures SameUpToEnds(before, after, before', after')
  {
    var s, s' := ScriptOf(before, after), ScriptOf(before', after');
    ScriptIsFaithful(SplitDiffLines(before), SplitDiffLines(after), 0, 0);
    ScriptIsFaithful(SplitDiffLines(before'), SplitDiffLines(after'), 0, 0);
    BodyLines(before, after);
    BodyLines(before', after');
    var lines := TaggedLines(s);
    var lines' := TaggedLines(s');
    SameLast(s, lines, EndsDiffer(before, after), s', lines', EndsDiffer(before', after'));
    TaggedLinesRead(s, lines);
    TaggedLinesRead(s', lines');
  }

  const NOTE := "\\ No newline at end of file"

  /** The body cut into lines: the script's, and the note. */
  lemma BodyLines(before: string, after: string)
    ensures
      var s, differ := ScriptOf(before, after), EndsDiffer(before, after);
      CutLines(Render(s) + if differ then TRAILER else "").done == TaggedLines(s) + if differ then [NOTE] else []
  {
    var s := ScriptOf(before, after);
    SplitLosesNothing(before);
    SplitLosesNothing(after);
    ScriptIsFaithful(SplitDiffLines(before), SplitDiffLines(after), 0, 0);
    LinesOfScript(s);
    RenderCuts(s);
    if EndsDiffer(before, after) {
      NoteIsLine();
      CutLine(Render(s), NOTE);
    } else {
      assert Render(s) + "" == Render(s) && TaggedLines(s) + [] == TaggedLines(s);
    }
  }

  lemma NoteIsLine()
    ensures OneLine(NOTE) && TRAILER == NOTE + "\n" && NOTE[0] == '\\'
  {}

  /** No line of a script is the note, so the note is seen at the end or is not there. */
  lemma SameLast(s: seq<Edit>, lines: seq<string>, differ: bool, s': seq<Edit>, lines': seq<string>, differ': bool)
    requires lines == TaggedLines(s) && lines' == TaggedLines(s')
    requires lines + (if differ then [NOTE] else []) == lines' + (if differ' then [NOTE] else [])
    ensures differ == differ' && lines == lines'
  {
    NoteIsLine();
    NoneIsNote(s, lines);
    NoneIsNote(s', lines');
    var all := lines + (if differ then [NOTE] else []);
    assert differ ==> all[|all| - 1] == NOTE;
    assert differ' ==> all[|all| - 1] == NOTE;
    assert !differ ==> all == lines;
    assert !differ' ==> all == lines';
    assert differ && differ' ==> lines == all[..|all| - 1] == lines';
  }

  lemma {:induction false} NoneIsNote(script: seq<Edit>, lines: seq<string>)
    requires lines == TaggedLines(script)
    ensures forall k :: 0 <= k < |lines| ==> lines[k] != NOTE
    decreases |script|
  {
    if script != [] {
      var init, e := LastEdit(script);
      var before := TaggedOneMore(init, e, script);
      NoneIsNote(init, before);
      NoteIsLine();
      assert Tagged(e)[0] in {' ', '+', '-'};
    }
  }

  /** A printed diff, read without its header and its note. */
  function ReadDiff(out: string): seq<Edit> {
    if |out| < |HEADER| then [] else ReadLines(WithoutNote(CutLines(out[|HEADER|..]).done))
  }

  function WithoutNote(lines: seq<string>): seq<string> {
    if lines != [] && lines[|lines| - 1] == NOTE then lines[..|lines| - 1] else lines
  }

  lemma ReadsAsScript(before: string, after: string)
    requires before != after
    ensures ReadDiff(DiffText(before, after)) == ScriptOf(before, after)
  {
    var s, differ := ScriptOf(before, after), EndsDiffer(before, after);
    var body := Render(s) + if differ then TRAILER else "";
    var lines := TaggedLines(s);
    BehindHeader(HEADER, body, DiffText(before, after));
    BodyLines(before, after);
    NoneIsNote(s, lines);
    NoteTaken(lines, differ, CutLines(body).done);
    TaggedLinesRead(s, lines);
  }

  lemma BehindHeader(head: string, body: string, out: string)
    requires out == head + body
    ensures |out| >= |head| && out[|head|..] == body
  {}

  lemma NoteTaken(lines: seq<string>, differ: bool, all: seq<string>)
    requires all == lines + (if differ then [NOTE] else []) && forall k :: 0 <= k < |lines| ==> lines[k] != NOTE
    ensures WithoutNote(all) == lines
  {
    if differ { assert all[..|lines|] == lines; } else { assert all == lines; }
  }

  /** The note is the last line of a diff exactly if one input ends in a newline and the other does not. */
  lemma NoteExactly(before: string, after: string)
    requires before != after
    ensures
      var lines := CutLines(DiffText(before, after)[|HEADER|..]).done;
      lines != [] && lines[|lines| - 1] == NOTE <==> EndsWithNewline(before) != EndsWithNewline(after)
  {
    BodyOf(before, after);
    NoneIsNote(ScriptOf(before, after), TaggedLines(ScriptOf(before, after)));
  }

  /** Each line with the sign in front. */
  function Signed(sign: char, lines: seq<string>): seq<string> {
    if lines == [] then [] else Signed(sign, lines[..|lines| - 1]) + [[sign] + lines[|lines| - 1]]
  }

  lemma SignedNext(sign: char, lines: seq<string>, l: string)
    ensures Signed(sign, lines + [l]) == Signed(sign, lines) + [[sign] + l]
  {
    assert (lines + [l])[..|lines|] == lines;
  }

  lemma {:induction false} AllOneSign(script: seq<Edit>)
    ensures (forall e :: e in script ==> e.Insert?) ==> TaggedLines(script) == Signed('+', After(script))
    ensures (forall e :: e in script ==> e.Delete?) ==> TaggedLines(script) == Signed('-', Before(script))
    decreases |script|
  {
    if script != [] {
      var init, e := LastEdit(script);
      AllOneSign(init);
      Append(init, e);
      var _ := TaggedOneMore(init, e, script);
      assert e in script && forall x :: x in init ==> x in script;
      SignedNext('+', After(init), e.line);
      SignedNext('-', Before(init), e.line);
    }
  }

  /** Against empty text, or a lone newline, every line of the other input is shown as new, or as gone. */
  lemma AgainstNothing(nothing: string, text: string)
    requires (nothing == "" || nothing == "\n") && text != nothing
    ensures
      var lines, note := SplitDiffLines(text), if EndsDiffer(nothing, text) then [NOTE] else [];
      && CutLines(DiffText(nothing, text)[|HEADER|..]).done == Signed('+', lines) + note
      && CutLines(DiffText(text, nothing)[|HEADER|..]).done == Signed('-', lines) + note
  {
    LineCount(nothing);
    var lines := SplitDiffLines(text);
    OnlySigned([], lines);
    OnlySigned(lines, []);
    BodyOf(nothing, text);
    BodyOf(text, nothing);
  }

  lemma OnlySigned(a: seq<string>, b: seq<string>)
    ensures a == [] ==> TaggedLines(Script(a, b, 0, 0)) == Signed('+', b)
    ensures b == [] ==> TaggedLines(Script(a, b, 0, 0)) == Signed('-', a)
  {
    OneSided(a, b, 0, 0);
    AllOneSign(Script(a, b, 0, 0));
    ScriptIsFaithful(a, b, 0, 0);
    assert a[0..] == a && b[0..] == b;
  }

  lemma BodyOf(before: string, after: string)
    requires before != after
    ensures CutLines(DiffText(before, after)[|HEADER|..]).done ==
      TaggedLines(ScriptOf(before, after)) + if EndsDiffer(before, after) then [NOTE] else []
  {
    var body := Render(ScriptOf(before, after)) + if EndsDiffer(before, after) then TRAILER else "";
    BehindHeader(HEADER, body, DiffText(before, after));
    BodyLines(before, after);
  }

  /** Both inputs can be rebuilt from a diff, up to their final newlines. */
  lemma DiffReadsBack(before: string, after: string)
    ensures DiffText(before, after) == NO_CHANGES <==> before == after
    ensures var s := ReadDiff(DiffText(before, after)); before != after ==>
      && before == Join(Before(s)) + (if EndsWithNewline(before) then "\n" else "")
      && after == Join(After(s)) + (if EndsWithNewline(after) then "\n" else "")
  {
    HeaderIsNotNotice(before, after);
    SplitLosesNothing(before);
    SplitLosesNothing(after);
    ScriptIsFaithful(SplitDiffLines(before), SplitDiffLines(after), 0, 0);
    if before != after { ReadsAsScript(before, after); }
  }
}
