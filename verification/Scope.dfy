/** Write scopes: normalising allow-lists of paths, admitting a path, and intersecting two scopes. */
module Scope {
  import opened Options
  import opened Text
  import opened Ordering

  // ------------------------------------------------------------- paths

  function FirstSegment(s: string): (n: nat)
    ensures n <= |s| && '/' !in s[..n] && (n < |s| ==> s[n] == '/')
  {
    if s == "" || s[0] == '/' then 0
    else
      var n := FirstSegment(s[1..]);
      assert s[..n + 1] == [s[0]] + s[1..][..n];
      n + 1
  }

  /** The segments of a relative path that name something, joined by single slashes. */
  function Named(s: string): string
    decreases |s|
  {
    if s == "" then ""
    else if s[0] == '/' then Named(s[1..])
    else
      var n := FirstSegment(s);
      Joined(s[..n], Named(s[n..]))
  }

  function Joined(segment: string, rest: string): string {
    if segment == "." then rest
    else if rest == "" then segment
    else segment + "/" + rest
  }

  /** `filepath.Clean` on a relative path without "..". */
  function Clean(s: string): string {
    if Named(s) == "" then "." else Named(s)
  }

  predicate HasDots(s: string) {
    |s| >= 2 && ((s[0] == '.' && s[1] == '.') || HasDots(s[1..]))
  }

  predicate HasGlob(s: string) {
    exists i :: 0 <= i < |s| && s[i] in {'*', '?', '[', ']', '{', '}'}
  }

  predicate IsDir(s: string) { s != "" && s[|s| - 1] == '/' }

  function TrimSlash(s: string): string {
    if IsDir(s) then s[..|s| - 1] else s
  }

  predicate HasPrefix(s: string, prefix: string) { prefix <= s }

  function TrimPrefix(s: string, prefix: string): string {
    if HasPrefix(s, prefix) then s[|prefix|..] else s
  }

  predicate Refused(item: string) {
    item == "" || item[0] == '/' || HasDots(item) || HasGlob(item)
  }

  /** What one entry of an allow-list becomes, if anything. */
  function Normal(raw: string): Option<string> {
    var item := Trim(raw);
    if Refused(item) then None
    else if item == "." then Some(item)
    else
      var cleaned := TrimPrefix(Clean(item), "./");
      Some(if IsDir(item) then cleaned + "/" else cleaned)
  }

  function Normals(raw: set<string>): set<string> {
    set x | x in raw && Normal(x).Some? :: Normal(x).value
  }

  /** The listing does not depend on the order of the entries, and has no duplicates. */
  ghost predicate ListingOf(out: seq<string>, items: set<string>) {
    StrictlySorted(out) && Elements(out) == items
  }

  method NormalizeAllowedScope(raw: seq<string>) returns (out: seq<string>)
    ensures ListingOf(out, Normals(Elements(raw)))
  {
    var seen: set<string> := {};
    for i := 0 to |raw|
      invariant seen == Normals(Elements(raw[..i]))
    {
      assert Elements(raw[..i + 1]) == Elements(raw[..i]) + {raw[i]};
      var item := Normal(raw[i]);
      if item.None? { continue; }
      if item.value !in seen { seen := seen + {item.value}; }
    }
    assert raw[..|raw|] == raw;
    out := SortedListing(seen);
  }

  // ------------------------------------------------------------- admission

  predicate Admits(item: string, path: string) {
    item == "." || path == TrimSlash(item) || (IsDir(item) && HasPrefix(path, item))
  }

  predicate Allowed(path: string, items: set<string>) {
    exists x :: x in items && Admits(x, path)
  }

  method PathAllowed(path: string, allowed: seq<string>) returns (ok: bool)
    ensures ok == Allowed(path, Elements(allowed))
  {
    for i := 0 to |allowed|
      invariant forall j :: 0 <= j < i ==> !Admits(allowed[j], path)
    {
      var item := allowed[i];
      assert item in Elements(allowed);
      if item == "." || path == TrimSlash(item) { return true; }
      if IsDir(item) && HasPrefix(path, item) { return true; }
    }
    return false;
  }

  // ------------------------------------------------------------- intersection

  function Overlap(a: string, b: string): Option<string> {
    if a == "." then Some(b)
    else if b == "." then Some(a)
    else if !IsDir(a) && !IsDir(b) then (if a == b then Some(a) else None)
    else if IsDir(a) && IsDir(b) then
      (if HasPrefix(a, b) then Some(a) else if HasPrefix(b, a) then Some(b) else None)
    else if IsDir(a) then (if HasPrefix(b, a) then Some(b) else None)
    else (if HasPrefix(a, b) then Some(a) else None)
  }

  function Overlaps(left: set<string>, right: set<string>): set<string> {
    set a, b | a in left && b in right && Overlap(a, b).Some? :: Overlap(a, b).value
  }

  method IntersectAllowedScopes(left: seq<string>, right: seq<string>) returns (out: seq<string>)
    ensures ListingOf(out, Overlaps(Normals(Elements(left)), Normals(Elements(right))))
  {
    var result: set<string> := {};
    var ls := NormalizeAllowedScope(left);
    var rs := NormalizeAllowedScope(right);
    for i := 0 to |ls|
      invariant result == Overlaps(Elements(ls[..i]), Elements(rs))
    {
      for j := 0 to |rs|
        invariant result == Overlaps(Elements(ls[..i]), Elements(rs)) + Overlaps({ls[i]}, Elements(rs[..j]))
      {
        assert Elements(rs[..j + 1]) == Elements(rs[..j]) + {rs[j]};
        var overlap := Overlap(ls[i], rs[j]);
        if overlap.Some? { result := result + {overlap.value}; }
      }
      assert rs[..|rs|] == rs;
      assert Elements(ls[..i + 1]) == Elements(ls[..i]) + {ls[i]};
    }
    assert ls[..|ls|] == ls;
    out := SortedListing(result);
  }

  /** One names a file and the other the directory of that name. */
  predicate FileAgainstDir(a: string, b: string) {
    (a != "." && !IsDir(a) && b == a + "/") || (b != "." && !IsDir(b) && a == b + "/")
  }

  /** Both entries admit a path exactly when their overlap does, but for a file against its directory,
      which have no overlap. */
  lemma OverlapIsExact(a: string, b: string, path: string)
    ensures
      (Overlap(a, b).Some? && Admits(Overlap(a, b).value, path))
      <==> (Admits(a, path) && Admits(b, path) && !FileAgainstDir(a, b))
  {
    if a != "." && b != "." {
      if IsDir(a) && IsDir(b) {
        BothDirs(a, b, path);
      } else if IsDir(a) {
        DirAndFile(a, b, path);
      } else if IsDir(b) {
        DirAndFile(b, a, path);
      }
    } else {
      assert (a + "/")[|a|] == '/' && (b + "/")[|b|] == '/';
    }
  }

  lemma BothDirs(a: string, b: string, path: string)
    requires IsDir(a) && IsDir(b)
    ensures HasPrefix(a, b) ==> (Admits(a, path) <==> Admits(a, path) && Admits(b, path))
    ensures Admits(a, path) && Admits(b, path) ==> HasPrefix(a, b) || HasPrefix(b, a)
    ensures HasPrefix(b, a) ==> (Admits(b, path) <==> Admits(a, path) && Admits(b, path))
    ensures HasPrefix(a, b) && HasPrefix(b, a) ==> a == b
  {
    DirAdmits(a, path);
    DirAdmits(b, path);
  }

  lemma DirAndFile(dir: string, file: string, path: string)
    requires IsDir(dir) && !IsDir(file) && file != "."
    ensures Admits(dir, path) && Admits(file, path) && dir != file + "/" <==> HasPrefix(file, dir) && Admits(file, path)
    ensures !FileAgainstDir(dir, file) <==> dir != file + "/"
    ensures !FileAgainstDir(file, dir) <==> dir != file + "/"
  {
    DirAdmits(dir, path);
    assert HasPrefix(file, dir) ==> |dir| <= |file|;
  }

  lemma DirAdmits(dir: string, path: string)
    requires IsDir(dir)
    ensures Admits(dir, path) <==> HasPrefix(path + "/", dir)
    ensures HasPrefix(path + "/", dir) <==> HasPrefix(path, dir) || dir == path + "/"
  {
    assert dir == TrimSlash(dir) + "/";
  }

  /** The intersection admits a path exactly when an entry of each side does, the two not being a file
      and the directory of its name.  In particular it never admits more than either side. */
  lemma IntersectionIsExact(left: set<string>, right: set<string>, path: string)
    ensures Allowed(path, Overlaps(left, right)) <==>
      exists a, b :: a in left && b in right && Admits(a, path) && Admits(b, path) && !FileAgainstDir(a, b)
  {
    var both := Overlaps(left, right);
    if Allowed(path, both) {
      var x :| x in both && Admits(x, path);
      var a, b :| a in left && b in right && Overlap(a, b).Some? && Overlap(a, b).value == x;
      OverlapIsExact(a, b, path);
    }
    if a, b :| a in left && b in right && Admits(a, path) && Admits(b, path) && !FileAgainstDir(a, b) {
      OverlapIsExact(a, b, path);
      assert Overlap(a, b).value in both;
    }
  }

  // ------------------------------------------------------------- the scope of a round

  function RoundItems(operator: seq<string>, selected: Option<seq<string>>): set<string> {
    var o := Normals(Elements(operator));
    var p := if selected.Some? then Normals(Elements(selected.value)) else {};
    if o != {} && p != {} then Overlaps(Normals(o), Normals(p))
    else if o != {} then o
    else if p != {} then p
    else {"."}
  }

  lemma EmptyListing(s: seq<string>)
    ensures s == [] <==> Elements(s) == {}
  {
    assert s != [] ==> s[0] in Elements(s);
  }

  method AllowedScopeForRound(operator: seq<string>, selected: Option<seq<string>>) returns (out: seq<string>)
    ensures ListingOf(out, RoundItems(operator, selected))
  {
    var operatorScope := NormalizeAllowedScope(operator);
    var packageScope := [];
    if selected.Some? { packageScope := NormalizeAllowedScope(selected.value); }
    EmptyListing(operatorScope);
    EmptyListing(packageScope);
    if operatorScope != [] && packageScope != [] {
      out := IntersectAllowedScopes(operatorScope, packageScope);
    } else if operatorScope != [] {
      out := operatorScope;
    } else if packageScope != [] {
      out := packageScope;
    } else {
      out := ["."];
      assert Elements(out) == {"."};
    }
  }

  // ------------------------------------------------------------- normal forms

  lemma {:induction false} FirstSegmentOf(segment: string, rest: string)
    requires '/' !in segment && (rest == "" || rest[0] == '/')
    ensures FirstSegment(segment + rest) == |segment|
    decreases |segment|
  {
    if segment == "" {
      assert segment + rest == rest;
    } else {
      assert (segment + rest)[1..] == segment[1..] + rest;
      FirstSegmentOf(segment[1..], rest);
    }
  }

  /** A cleaned path: what it is made of. */
  predicate Cleaned(c: string) {
    c == "" || (c[0] != '/' && !IsDir(c) && c != "." && !HasPrefix(c, "./"))
  }

  lemma {:induction false} NamedIsCleaned(s: string)
    ensures Cleaned(Named(s))
    decreases |s|
  {
    if s == "" {
    } else if s[0] == '/' {
      NamedIsCleaned(s[1..]);
    } else {
      var n := FirstSegment(s);
      NamedIsCleaned(s[n..]);
      JoinedIsCleaned(s[..n], Named(s[n..]));
    }
  }

  lemma JoinedIsCleaned(segment: string, rest: string)
    requires segment != "" && '/' !in segment && Cleaned(rest)
    ensures Cleaned(Joined(segment, rest))
  {
    assert segment[0] in segment && segment[|segment| - 1] in segment && (|segment| > 1 ==> segment[1] in segment);
    var c := segment + "/" + rest;
    assert c[|segment|] == '/' && c[0] == segment[0] && (|segment| > 1 ==> c[1] == segment[1]);
    assert rest != "" ==> c[|c| - 1] == rest[|rest| - 1];
  }

  lemma {:induction false} NamedShrinks(s: string)
    ensures |Named(s)| <= |s| && (IsDir(s) ==> |Named(s)| < |s|)
    ensures s != "" && s[0] == '/' && Named(s) != "" ==> |Named(s)| + (if IsDir(s) then 2 else 1) <= |s|
    decreases |s|
  {
    if s == "" {
    } else if s[0] == '/' {
      NamedShrinks(s[1..]);
    } else {
      var n := FirstSegment(s);
      NamedShrinks(s[n..]);
      assert n < |s| ==> s[n..][|s| - n - 1] == s[|s| - 1];
      assert n == |s| ==> s[..n] == s && s[|s| - 1] in s;
    }
  }

  lemma {:induction false} NamedAddsNothing(s: string)
    ensures HasGlob(Named(s)) ==> HasGlob(s)
    ensures HasDots(Named(s)) ==> HasDots(s)
    decreases |s|
  {
    if s == "" {
    } else if s[0] == '/' {
      NamedAddsNothing(s[1..]);
      assert HasGlob(s[1..]) ==> HasGlob(s);
    } else {
      var n := FirstSegment(s);
      NamedAddsNothing(s[n..]);
      PartsOf(s[..n], s[n..]);
      assert s[..n] + s[n..] == s;
      AcrossSlash(s[..n], Named(s[n..]));
    }
  }

  lemma PartsOf(a: string, b: string)
    ensures HasDots(a) || HasDots(b) ==> HasDots(a + b)
    ensures HasGlob(a) || HasGlob(b) ==> HasGlob(a + b)
  {
    DotsOfParts(a, b);
    var c := a + b;
    if i :| 0 <= i < |a| && a[i] in {'*', '?', '[', ']', '{', '}'} { assert c[i] == a[i]; }
    if i :| 0 <= i < |b| && b[i] in {'*', '?', '[', ']', '{', '}'} { assert c[|a| + i] == b[i]; }
  }

  lemma AcrossSlash(a: string, b: string)
    ensures HasDots(a + "/" + b) ==> HasDots(a) || HasDots(b)
    ensures HasGlob(a + "/" + b) ==> HasGlob(a) || HasGlob(b)
  {
    DotsAcrossSlash(a, b);
    var c := a + "/" + b;
    if i :| 0 <= i < |c| && c[i] in {'*', '?', '[', ']', '{', '}'} {
      assert if i < |a| then c[i] == a[i] else if i == |a| then c[i] == '/' else c[i] == b[i - |a| - 1];
    }
  }

  lemma {:induction false} DotsOfParts(a: string, b: string)
    ensures HasDots(a) || HasDots(b) ==> HasDots(a + b)
    decreases |a|
  {
    if a == "" {
      assert a + b == b;
    } else {
      assert (a + b)[1..] == a[1..] + b;
      DotsOfParts(a[1..], b);
    }
  }

  lemma {:induction false} DotsAcrossSlash(a: string, b: string)
    ensures HasDots(a + "/" + b) ==> HasDots(a) || HasDots(b)
    decreases |a|
  {
    var s := a + "/" + b;
    if a == "" {
      assert s[0] == '/' && s[1..] == b;
    } else {
      assert s[1..] == a[1..] + "/" + b && s[0] == a[0] && (|a| == 1 ==> s[1] == '/') && (|a| > 1 ==> s[1] == a[1]);
      DotsAcrossSlash(a[1..], b);
    }
  }

  /** Cleaning a cleaned path, also as a directory, changes nothing. */
  lemma {:induction false} NamedTwice(s: string)
    ensures Named(Named(s)) == Named(s) && Named(Named(s) + "/") == Named(s)
    decreases |s|
  {
    if s == "" {
      assert Named("/") == Named("/"[1..]);
    } else if s[0] == '/' {
      NamedTwice(s[1..]);
    } else {
      var n := FirstSegment(s);
      NamedTwice(s[n..]);
      NamedIsCleaned(s[n..]);
      NamedOfJoined(s[..n], Named(s[n..]));
    }
  }

  lemma NamedOfJoined(segment: string, rest: string)
    requires segment != "" && '/' !in segment && Named(rest) == rest && Named(rest + "/") == rest
    ensures Named(Joined(segment, rest)) == Joined(segment, rest)
    ensures Named(Joined(segment, rest) + "/") == Joined(segment, rest)
  {
    if segment != "." {
      if rest == "" {
        NamedSplits(segment, "", segment);
        NamedSplits(segment, "/", segment + "/");
        assert "/"[1..] == "";
      } else {
        LongerJoined(segment, rest, rest);
        LongerJoined(segment, rest, rest + "/");
        assert segment + "/" + (rest + "/") == segment + "/" + rest + "/";
      }
    }
  }

  lemma LongerJoined(segment: string, rest: string, s: string)
    requires segment != "" && segment != "." && '/' !in segment && rest != "" && Named(s) == rest
    ensures Named(segment + "/" + s) == segment + "/" + rest
  {
    var tail := "/" + s;
    assert tail[1..] == s;
    NamedSplits(segment, tail, segment + "/" + s);
  }

  lemma NamedSplits(segment: string, tail: string, s: string)
    requires segment != "" && '/' !in segment && (tail == "" || tail[0] == '/') && s == segment + tail
    ensures Named(s) == Joined(segment, if tail == "" then "" else Named(tail[1..]))
  {
    FirstSegmentOf(segment, tail);
    assert s[0] == segment[0] && s[..|segment|] == segment && s[|segment|..] == tail;
  }

  /** What a kept entry becomes: a dot, or cleaned names, with a slash for a directory. */
  lemma NormalShape(raw: string)
    requires Normal(raw).Some?
    ensures
      var item := Trim(raw);
      var c := Clean(item);
      Normal(raw).value == if item != "." && IsDir(item) then c + "/" else c
    ensures Clean(Trim(raw)) == "." || (Cleaned(Clean(Trim(raw))) && Clean(Trim(raw)) != "")
  {
    NamedIsCleaned(Trim(raw));
    NamedSplits(".", "", ".");
  }

  lemma NormalIsShort(raw: string)
    requires Normal(raw).Some?
    ensures 0 < |Normal(raw).value| <= |Trim(raw)|
  {
    NormalShape(raw);
    NamedShrinks(Trim(raw));
  }

  /** Normalising twice undoes nothing, except where cleaning uncovered white space. */
  lemma NormalTwice(raw: string)
    requires Normal(raw).Some?
    ensures
      var x := Normal(raw).value;
      if Trim(x) == x then Normal(x) == Some(x) else Normal(x).Some? ==> |Normal(x).value| < |x|
  {
    var x := Normal(raw).value;
    if Trim(x) == x {
      NormalShape(raw);
      NotRefused(raw);
      var c := Clean(Trim(raw));
      if c == "." {
        assert Named("./") == "" by { assert "./"[1..] == "/" && "./"[..1] == "." && "/"[1..] == ""; }
      } else {
        NamedTwice(Trim(raw));
        if x == c + "/" { assert TrimPrefix(Clean(x), "./") == c; }
      }
    } else {
      TrimShrinks(x);
      if Normal(x).Some? { NormalIsShort(x); }
    }
  }

  lemma NotRefused(raw: string)
    requires Normal(raw).Some?
    ensures !Refused(Normal(raw).value)
  {
    NormalShape(raw);
    var item := Trim(raw);
    NamedAddsNothing(item);
    AcrossSlash(Clean(item), "");
    assert Clean(item) + "/" + "" == Clean(item) + "/";
  }

  /** No entry has outer white space. */
  predicate Steady(items: set<string>) {
    forall x :: x in items ==> Trim(x) == x
  }

  /** Normalisation is idempotent exactly when it leaves no outer white space. */
  lemma IdempotentExactly(raw: set<string>)
    ensures Normals(Normals(raw)) == Normals(raw) <==> Steady(Normals(raw))
  {
    var n := Normals(raw);
    if Steady(n) {
      forall x | x in n ensures Normal(x) == Some(x) {
        var r :| r in raw && Normal(r) == Some(x);
        NormalTwice(r);
      }
    } else {
      var x :| x in n && Trim(x) != x;
      UnsteadyChanges(raw, x, n);
    }
  }

  /** A longest entry with outer white space is not the normal form of any entry; `longer` has all the
      entries longer than `x`. */
  lemma {:induction false} UnsteadyChanges(raw: set<string>, x: string, longer: set<string>)
    requires x in Normals(raw) && Trim(x) != x
    requires forall z :: z in Normals(raw) && |z| > |x| ==> z in longer
    ensures Normals(Normals(raw)) != Normals(raw)
    decreases |longer|
  {
    var n := Normals(raw);
    if x in Normals(n) {
      var y :| y in n && Normal(y) == Some(x);
      var r :| r in raw && Normal(r) == Some(y);
      NormalTwice(r);
      UnsteadyChanges(raw, y, longer - {y});
    }
  }

  // ------------------------------------------------------------- the operator's bound

  /** Everything the entry admits, one of the items admits. */
  predicate Covered(y: string, items: set<string>) {
    || "." in items
    || y in items
    || (y != "." && !IsDir(y) && y + "/" in items)
    || exists z :: z in items && IsDir(z) && HasPrefix(y, z)
  }

  predicate Covers(items: set<string>, others: set<string>) {
    forall y :: y in others ==> Covered(y, items)
  }

  lemma CoveredAdmits(y: string, items: set<string>, path: string)
    requires Covered(y, items) && Admits(y, path)
    ensures Allowed(path, items)
  {
    if "." in items {
      assert Admits(".", path);
    } else if y in items {
    } else if y != "." && !IsDir(y) && y + "/" in items {
      assert TrimSlash(y + "/") == y;
    } else {
      var z :| z in items && IsDir(z) && HasPrefix(y, z);
      assert y != ".";
      if IsDir(y) {
        DirAdmits(y, path);
        DirAdmits(z, path);
      }
    }
  }

  /** A path that only a covering item can admit. */
  lemma FreshPath(y: string, items: set<string>) returns (path: string)
    ensures Admits(y, path)
    ensures Allowed(path, items) ==> Covered(y, items)
  {
    var tail := LongTail(items);
    if y == "." {
      path := tail;
    } else if IsDir(y) {
      path := y + tail;
    } else {
      path := y;
    }
    if Allowed(path, items) {
      var z :| z in items && Admits(z, path);
      assert IsDir(z) ==> z == TrimSlash(z) + "/";
      DirBeforeTail(y, tail, z);
      DirBeforeTail("", tail, z);
      assert "" + tail == tail;
    }
  }

  lemma DirBeforeTail(y: string, tail: string, z: string)
    requires '/' !in tail
    ensures IsDir(z) && HasPrefix(y + tail, z) ==> HasPrefix(y, z)
  {
    var path := y + tail;
    assert forall k :: |y| <= k < |path| ==> path[k] in tail;
  }

  /** Longer than every item, and without a slash. */
  lemma {:induction false} LongTail(items: set<string>) returns (tail: string)
    ensures '/' !in tail && tail != "" && forall z :: z in items ==> |z| < |tail|
    decreases |items|
  {
    if items == {} { return "x"; }
    var x :| x in items;
    tail := LongTail(items - {x});
    if |x| >= |tail| { tail := seq(|x| + 1, _ => 'x'); }
  }

  /** Whatever the plan of a package allows, the round stays within a non-empty operator scope, exactly
      when normalising that scope again leaves everything covered. */
  lemma OperatorBoundsExactly(operator: seq<string>)
    requires Normals(Elements(operator)) != {}
    ensures
      var o := Normals(Elements(operator));
      (forall selected, path :: Allowed(path, RoundItems(operator, selected)) ==> Allowed(path, o))
      <==> Covers(o, Normals(o))
  {
    var o := Normals(Elements(operator));
    if Covers(o, Normals(o)) {
      forall selected, path | Allowed(path, RoundItems(operator, selected)) ensures Allowed(path, o) {
        RoundIsBounded(operator, selected, path);
      }
    } else {
      var y :| y in Normals(o) && !Covered(y, o);
      var path := FreshPath(y, o);
      AnyPackage(operator, y, path);
    }
  }

  lemma RoundIsBounded(operator: seq<string>, selected: Option<seq<string>>, path: string)
    requires var o := Normals(Elements(operator)); o != {} && Covers(o, Normals(o))
    requires Allowed(path, RoundItems(operator, selected))
    ensures Allowed(path, Normals(Elements(operator)))
  {
    var o := Normals(Elements(operator));
    if RoundItems(operator, selected) != o {
      IntersectionIsExact(Normals(o), Normals(Normals(Elements(selected.value))), path);
      var a :| a in Normals(o) && Admits(a, path);
      CoveredAdmits(a, o, path);
    }
  }

  /** A package that allows everything exposes every entry of the operator's scope, normalised twice. */
  lemma AnyPackage(operator: seq<string>, y: string, path: string)
    requires var o := Normals(Elements(operator)); o != {} && y in Normals(o) && Admits(y, path)
    ensures Allowed(path, RoundItems(operator, Some(["."])))
  {
    DotIsNormal();
    assert Elements(["."]) == {"."};
    assert Normals({"."}) == {"."};
    assert Overlap(y, ".") == Some(y);
    assert y in RoundItems(operator, Some(["."]));
  }

  lemma DotIsNormal()
    ensures Normal(".") == Some(".")
  {}

  /** Where normalisation leaves no outer white space, the operator's scope bounds the round. */
  lemma SteadyOperatorBounds(operator: seq<string>)
    requires Steady(Normals(Elements(operator)))
    ensures var o := Normals(Elements(operator)); Covers(o, Normals(o))
  {
    IdempotentExactly(Elements(operator));
  }

  /** Not every operator scope bounds the round: the entry "./ a" names the file " a", but limits a
      package that allows everything to "a". */
  lemma OperatorBoundCanFail()
    ensures
      var operator := ["./ a"];
      && Normals(Elements(operator)) == {" a"}
      && Allowed("a", RoundItems(operator, Some(["."])))
      && !Allowed("a", Normals(Elements(operator)))
  {
    var raw := "./ a";
    NamedSplits(" a", "", " a");
    NamedSplits(".", "/ a", raw);
    assert "/ a"[1..] == " a";
    assert Elements([raw]) == {raw};
    assert Normal(raw) == Some(" a");
    assert Normals({raw}) == {" a"};
    assert " a"[1..] == "a";
    NamedSplits("a", "", "a");
    assert Normal(" a") == Some("a");
    AnyPackage([raw], "a", "a");
    assert !Admits(" a", "a");
  }
}
