/** The byte-wise order of strings, sorted listings, and zero-padded decimal names. */
module Ordering {

  predicate Less(a: string, b: string) {
    b != "" && (a == "" || a[0] < b[0] || (a[0] == b[0] && Less(a[1..], b[1..])))
  }

  predicate StrictlySorted(s: seq<string>) {
    forall i, j :: 0 <= i < j < |s| ==> Less(s[i], s[j])
  }

  lemma {:induction false} LessIsTotal(a: string, b: string)
    ensures a == b || Less(a, b) || Less(b, a)
    decreases |a|
  {
    if a != "" && b != "" && a[0] == b[0] {
      LessIsTotal(a[1..], b[1..]);
      assert a == [a[0]] + a[1..] && b == [b[0]] + b[1..];
    }
  }

  lemma {:induction false} LessIsTransitive(a: string, b: string, c: string)
    requires Less(a, b) && Less(b, c)
    ensures Less(a, c)
    decreases |a|
  {
    if a != "" && a[0] == b[0] == c[0] {
      LessIsTransitive(a[1..], b[1..], c[1..]);
    }
  }

  lemma {:induction false} LessIsIrreflexive(a: string)
    ensures !Less(a, a)
    decreases |a|
  {
    if a != "" { LessIsIrreflexive(a[1..]); }
  }

  function Elements(s: seq<string>): set<string> {
    set x | x in s
  }

  lemma ElementsAppend(s: seq<string>, x: string)
    ensures Elements(s + [x]) == Elements(s) + {x}
  {}

  /** Puts `x` in its place. */
  function Insert(s: seq<string>, x: string): seq<string> {
    if s == [] then [x]
    else if Less(x, s[0]) then [x] + s
    else [s[0]] + Insert(s[1..], x)
  }

  lemma {:induction false} InsertKeepsOrder(s: seq<string>, x: string)
    requires StrictlySorted(s) && x !in s
    ensures StrictlySorted(Insert(s, x)) && Elements(Insert(s, x)) == Elements(s) + {x}
    decreases |s|
  {
    if s == [] {
    } else if Less(x, s[0]) {
      forall j | 0 < j < |s| ensures Less(x, s[j]) { LessIsTransitive(x, s[0], s[j]); }
    } else {
      var rest := Insert(s[1..], x);
      assert x !in s[1..];
      InsertKeepsOrder(s[1..], x);
      LessIsTotal(x, s[0]);
      forall j | 0 <= j < |rest| ensures Less(s[0], rest[j]) {
        assert rest[j] in Elements(rest);
      }
      assert Elements(s) == {s[0]} + Elements(s[1..]);
      assert Elements([s[0]] + rest) == {s[0]} + Elements(rest);
    }
  }

  /** `sort.Strings` on a listing without duplicates. */
  method SortedListing(names: set<string>) returns (out: seq<string>)
    ensures StrictlySorted(out) && Elements(out) == names
  {
    out := [];
    var left := names;
    while left != {}
      invariant StrictlySorted(out) && Elements(out) + left == names && Elements(out) !! left
      decreases |left|
    {
      var x :| x in left;
      assert x !in out by { assert x !in Elements(out); }
      InsertKeepsOrder(out, x);
      out := Insert(out, x);
      left := left - {x};
    }
  }

  /** Only one sorted listing has given elements: sorting is independent of the order of arrival. */
  lemma {:induction false} SortedIsUnique(a: seq<string>, b: seq<string>)
    requires StrictlySorted(a) && StrictlySorted(b) && Elements(a) == Elements(b)
    ensures a == b
    decreases |a|
  {
    assert a == [] <==> Elements(a) == {} by { assert a != [] ==> a[0] in Elements(a); }
    assert b == [] <==> Elements(b) == {} by { assert b != [] ==> b[0] in Elements(b); }
    if a != [] {
      FirstIsLeast(a, b);
      FirstIsLeast(b, a);
      LessIsIrreflexive(a[0]);
      if Less(a[0], b[0]) && Less(b[0], a[0]) { LessIsTransitive(a[0], b[0], a[0]); }
      RestElements(a);
      RestElements(b);
      SortedIsUnique(a[1..], b[1..]);
      assert a == [a[0]] + a[1..] && b == [b[0]] + b[1..];
    }
  }

  lemma FirstIsLeast(a: seq<string>, b: seq<string>)
    requires a != [] && b != [] && StrictlySorted(a) && Elements(a) == Elements(b)
    ensures a[0] == b[0] || Less(a[0], b[0])
  {
    assert b[0] in Elements(a);
  }

  lemma RestElements(a: seq<string>)
    requires a != [] && StrictlySorted(a)
    ensures Elements(a[1..]) == Elements(a) - {a[0]}
  {
    LessIsIrreflexive(a[0]);
    assert a == [a[0]] + a[1..];
    assert forall k :: 0 <= k < |a| - 1 ==> Less(a[0], a[1..][k]);
  }

  // --------------------------------------------------------- padded numbers

  function Digit(d: nat): char
    requires d < 10
  {
    "0123456789"[d]
  }

  function Pow10(w: nat): nat {
    if w == 0 then 1 else 10 * Pow10(w - 1)
  }

  /** The last `w` decimal digits of `n`, zero-padded: `%020d` is `Padded(n, 20)` below 10^20. */
  function Padded(n: nat, w: nat): (s: string)
    ensures |s| == w
    decreases w, n
  {
    if w == 0 then "" else Padded(n / 10, w - 1) + [Digit(n % 10)]
  }

  lemma {:induction false} LessExtends(x: string, y: string, u: string, v: string)
    requires |x| == |y| && Less(x, y)
    ensures Less(x + u, y + v)
    decreases |x|
  {
    assert (x + u)[1..] == x[1..] + u && (y + v)[1..] == y[1..] + v;
    if x[0] == y[0] {
      LessExtends(x[1..], y[1..], u, v);
    }
  }

  lemma {:induction false} LessAfter(x: string, u: string, v: string)
    requires Less(u, v)
    ensures Less(x + u, x + v)
    decreases |x|
  {
    if x == "" {
      assert x + u == u && x + v == v;
    } else {
      assert (x + u)[1..] == x[1..] + u && (x + v)[1..] == x[1..] + v;
      LessAfter(x[1..], u, v);
    }
  }

  /** Zero-padded numbers sort as text in numeric order. */
  lemma {:induction false} PaddedIsMonotone(a: nat, b: nat, w: nat, suffix: string)
    requires a < b < Pow10(w)
    ensures Less(Padded(a, w) + suffix, Padded(b, w) + suffix)
    decreases w
  {
    var u, v := [Digit(a % 10)], [Digit(b % 10)];
    if a / 10 < b / 10 {
      PaddedIsMonotone(a / 10, b / 10, w - 1, "");
      var x, y := Padded(a / 10, w - 1), Padded(b / 10, w - 1);
      assert x + "" == x && y + "" == y;
      LessExtends(x, y, u, v);
    } else {
      LessAfter(Padded(a / 10, w - 1), u, v);
    }
    LessExtends(Padded(a, w), Padded(b, w), suffix, suffix);
  }
}
