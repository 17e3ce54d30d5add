/** What the entries of a write scope mean, in terms of the names between the slashes. */
module ScopeMeaning {
  import opened Options
  import opened Text
  import opened Ordering
  import opened Scope

  /** The text cut at its slashes. */
  function Segments(s: string): (r: seq<string>)
    ensures r != []
  {
    if s == "" then [""]
    else
      var rest := Segments(s[1..]);
      if s[0] == '/' then [""] + rest else [[s[0]] + rest[0]] + rest[1..]
  }

  /** The segments that name something. */
  function Names(segments: seq<string>): seq<string> {
    if segments == [] then []
    else (if segments[0] == "" || segments[0] == "." then [] else [segments[0]]) + Names(segments[1..])
  }

  function JoinSlash(names: seq<string>): string {
    if names == [] then "" else if |names| == 1 then names[0] else names[0] + "/" + JoinSlash(names[1..])
  }

  lemma {:induction false} SegmentsAfterFirst(s: string)
    ensures var n := FirstSegment(s);
      Segments(s) == [s[..n]] + if n < |s| then Segments(s[n + 1..]) else []
    decreases |s|
  {
    if s == "" {
    } else if s[0] == '/' {
      assert s[..0] == "";
    } else {
      var t, n := s[1..], FirstSegment(s);
      SegmentsAfterFirst(t);
      assert s[..n] == [s[0]] + t[..n - 1];
      assert n < |s| ==> t[n..] == s[n + 1..];
    }
  }

  /** Cleaning keeps the names, in order, with single slashes between them. */
  lemma {:induction false} NamedIsJoined(s: string)
    ensures Named(s) == JoinSlash(Names(Segments(s)))
    decreases |s|
  {
    if s == "" {
      assert [""][1..] == [];
    } else if s[0] == '/' {
      NamedIsJoined(s[1..]);
      assert ([""] + Segments(s[1..]))[1..] == Segments(s[1..]);
      assert Names(Segments(s)) == Names(Segments(s[1..]));
    } else {
      var n := FirstSegment(s);
      SegmentsAfterFirst(s);
      var rest := if n < |s| then Segments(s[n + 1..]) else [];
      assert ([s[..n]] + rest)[1..] == rest;
      if n < |s| {
        assert s[n..][0] == '/' && s[n..][1..] == s[n + 1..];
        NamedIsJoined(s[n + 1..]);
      }
      JoinedNames(s[..n], rest, Named(s[n..]));
    }
  }

  lemma JoinedNames(segment: string, rest: seq<string>, cleaned: string)
    requires segment != "" && cleaned == JoinSlash(Names(rest))
    ensures Joined(segment, cleaned) == JoinSlash(Names([segment] + rest))
  {
    var all := [segment] + rest;
    assert all[1..] == rest;
    if segment == "." {
      assert Names(all) == Names(rest);
    } else {
      assert ([segment] + Names(rest))[1..] == Names(rest);
      NamesAreSome(rest);
    }
  }

  lemma {:induction false} NamesAreSome(segments: seq<string>)
    ensures forall k :: 0 <= k < |Names(segments)| ==> Names(segments)[k] != ""
    ensures JoinSlash(Names(segments)) == "" ==> Names(segments) == []
    decreases |segments|
  {
    if segments != [] { NamesAreSome(segments[1..]); }
  }

  /** An entry is dropped exactly if, without its outer white space, it is empty or absolute, or has two dots in
      a row or a character of a pattern; otherwise it becomes its names with single slashes between them, a dot if
      it has none, and keeps a final slash. */
  lemma NormalExactly(raw: string)
    ensures
      var item := Trim(raw);
      var names := Names(Segments(item));
      Normal(raw) ==
        if item == "" || item[0] == '/' || Within("..", item)
           || (exists i :: 0 <= i < |item| && item[i] in {'*', '?', '[', ']', '{', '}'}) then None
        else Some((if names == [] then "." else JoinSlash(names)) +
                  if item[|item| - 1] == '/' then "/" else "")
  {
    var item := Trim(raw);
    DotsWithin(item);
    NamedIsJoined(item);
    NamesAreSome(Segments(item));
    if Normal(raw).Some? {
      NormalShape(raw);
      if item == "." { DotHasNoNames(item); }
      assert Clean(item) + "" == Clean(item);
    }
  }

  lemma DotHasNoNames(dot: string)
    requires dot == "."
    ensures Names(Segments(dot)) == []
  {
    assert dot[1..] == "" && [dot[0]] + "" == dot;
    assert [dot] + [""][1..] == [dot] && [dot][1..] == [];
  }

  lemma {:induction false} DotsWithin(s: string)
    ensures HasDots(s) <==> Within("..", s)
    decreases |s|
  {
    if |s| >= 2 {
      DotsWithin(s[1..]);
      if s[0] == '.' && s[1] == '.' { assert OccursAt(s, "..", 0); }
      if i: nat :| OccursAt(s[1..], "..", i) { assert OccursAt(s, "..", i + 1); }
      if i: nat :| OccursAt(s, "..", i) {
        TwoDots(s, i);
        if i > 0 { assert OccursAt(s[1..], "..", i - 1); }
      }
    }
  }

  lemma TwoDots(s: string, i: nat)
    requires OccursAt(s, "..", i)
    ensures i + 1 < |s| && s[i] == '.' && s[i + 1] == '.'
  {
    assert ".."[0] == s[i] && ".."[1] == s[i + 1];
  }

  // ------------------------------------------------------------- admission by names

  predicate AreNames(names: seq<string>) {
    forall k :: 0 <= k < |names| ==> names[k] != "" && '/' !in names[k]
  }

  lemma JoinSlashSteps(names: seq<string>)
    requires names != [] && AreNames(names)
    ensures JoinSlash(names) == names[0] + (if |names| == 1 then "" else "/" + JoinSlash(names[1..]))
    ensures FirstSegment(JoinSlash(names)) == |names[0]|
    ensures AreNames(names[1..])
  {
    var tail := if |names| == 1 then "" else "/" + JoinSlash(names[1..]);
    assert names[0] + tail == JoinSlash(names);
    FirstSegmentOf(names[0], tail);
  }

  /** A path below a directory starts with all the directory's names: containment is by names, not by letters. */
  lemma {:induction false} BelowByNames(dir: seq<string>, path: seq<string>)
    requires dir != [] && AreNames(dir) && AreNames(path)
    ensures JoinSlash(dir) + "/" <= JoinSlash(path) <==> dir < path
    decreases |dir|
  {
    if path != [] {
      var d, p := JoinSlash(dir) + "/", JoinSlash(path);
      JoinSlashSteps(dir);
      JoinSlashSteps(path);
      var dTail := if |dir| == 1 then "" else JoinSlash(dir[1..]) + "/";
      assert d == dir[0] + ("/" + dTail);
      FirstSegmentOf(dir[0], "/" + dTail);
      if |path| == 1 {
        SlashInPrefix(d, p);
      } else {
        assert p == path[0] + ("/" + JoinSlash(path[1..]));
        SameFirst(dir[0], dTail, path[0], JoinSlash(path[1..]));
        if |dir| > 1 { BelowByNames(dir[1..], path[1..]); }
        PrefixByHead(dir, path);
      }
    }
  }

  lemma SlashInPrefix(d: string, p: string)
    requires IsDir(d)
    ensures d <= p ==> '/' in p
  {
    if d <= p { assert p[|d| - 1] == '/'; }
  }

  lemma PrefixByHead(a: seq<string>, b: seq<string>)
    requires a != [] && |b| > 1
    ensures a < b <==> a[0] == b[0] && (|a| == 1 || a[1..] < b[1..])
  {
    if a[0] == b[0] && |a| > 1 && a[1..] < b[1..] {
      forall k | 0 <= k < |a| ensures a[k] == b[k] { if k > 0 { assert a[1..][k - 1] == b[1..][k - 1]; } }
    }
  }

  lemma SameFirst(x: string, r: string, y: string, q: string)
    requires '/' !in x && '/' !in y
    ensures x + ("/" + r) <= y + ("/" + q) <==> x == y && r <= q
  {
    var s, t := x + ("/" + r), y + ("/" + q);
    FirstSegmentOf(y, "/" + q);
    if s <= t {
      assert s[|x|] == '/' == t[|x|] && x == s[..|x|] == t[..|x|];
      assert t == x + t[|x|..];
      FirstSegmentOf(x, t[|x|..]);
      assert r == s[|x| + 1..] && q == t[|y| + 1..] && y == t[..|y|];
    }
  }

  lemma {:induction false} SameByNames(a: seq<string>, b: seq<string>)
    requires AreNames(a) && AreNames(b)
    ensures JoinSlash(a) == JoinSlash(b) <==> a == b
    decreases |a|
  {
    if a != [] { JoinSlashSteps(a); }
    if b != [] { JoinSlashSteps(b); }
    if a != [] && b != [] && JoinSlash(a) == JoinSlash(b) {
      assert a[0] == JoinSlash(a)[..|a[0]|] && b[0] == JoinSlash(b)[..|b[0]|];
      if |a| > 1 && |b| > 1 {
        assert JoinSlash(a)[|a[0]| + 1..] == JoinSlash(a[1..]) && JoinSlash(b)[|b[0]| + 1..] == JoinSlash(b[1..]);
        SameByNames(a[1..], b[1..]);
        assert a == [a[0]] + a[1..] && b == [b[0]] + b[1..];
      }
    }
  }

  /** A file entry admits its own path, a directory entry its own path and everything below it. */
  lemma AdmitsExactly(names: seq<string>, path: seq<string>)
    requires names != [] && AreNames(names) && AreNames(path) && names != ["."]
    ensures Admits(JoinSlash(names), JoinSlash(path)) <==> path == names
    ensures Admits(JoinSlash(names) + "/", JoinSlash(path)) <==> names <= path
    ensures Admits(".", JoinSlash(path))
  {
    var file, dir := JoinSlash(names), JoinSlash(names) + "/";
    SameByNames(names, path);
    SameByNames(names, ["."]);
    BelowByNames(names, path);
    NotADirectory(names);
    assert TrimSlash(dir) == file;
    assert names <= path <==> names < path || names == path;
  }

  lemma {:induction false} NotADirectory(names: seq<string>)
    requires names != [] && AreNames(names)
    ensures JoinSlash(names) != "" && !IsDir(JoinSlash(names))
    decreases |names|
  {
    if |names| == 1 {
      assert names[0][|names[0]| - 1] in names[0];
    } else {
      NotADirectory(names[1..]);
      var s := names[0] + "/" + JoinSlash(names[1..]);
      assert s[|s| - 1] == JoinSlash(names[1..])[|JoinSlash(names[1..])| - 1];
    }
  }

  // ------------------------------------------------------------- the scope of a round

  /** What a round may write: with neither scope everything, with one of them that one, and with both exactly the
      paths that an entry of each admits, the two not being a file and the directory of its name. */
  lemma RoundAllows(operator: seq<string>, selected: Option<seq<string>>, path: string)
    ensures
      var o := Normals(Elements(operator));
      var p := if selected.Some? then Normals(Elements(selected.value)) else {};
      Allowed(path, RoundItems(operator, selected)) <==>
        if o == {} && p == {} then true
        else if p == {} then Allowed(path, o)
        else if o == {} then Allowed(path, p)
        else exists a, b ::
          a in Normals(o) && b in Normals(p) && Admits(a, path) && Admits(b, path) && !FileAgainstDir(a, b)
  {
    var o := Normals(Elements(operator));
    var p := if selected.Some? then Normals(Elements(selected.value)) else {};
    if o == {} && p == {} {
      assert Admits(".", path);
    } else if o != {} && p != {} {
      IntersectionIsExact(Normals(o), Normals(p), path);
    }
  }
}
