/** Sums over the values of a finite map, and sizes of sets. */
module Sums {

  ghost function Total<K, V>(m: map<K, V>, f: V -> int): int {
    if m == map[] then 0 else var k :| k in m; f(m[k]) + Total(m - {k}, f)
  }

  lemma {:induction false} TotalWithout<K, V>(m: map<K, V>, f: V -> int, k: K)
    requires k in m
    ensures Total(m, f) == f(m[k]) + Total(m - {k}, f)
    decreases |m|
  {
    var j :| j in m && Total(m, f) == f(m[j]) + Total(m - {j}, f);
    if j != k {
      TotalWithout(m - {j}, f, k);
      TotalWithout(m - {k}, f, j);
      assert m - {j} - {k} == m - {k} - {j};
    }
  }

  lemma TotalUpdate<K, V>(m: map<K, V>, f: V -> int, k: K, r: V)
    ensures Total(m[k := r], f) == Total(m, f) + f(r) - (if k in m then f(m[k]) else 0)
  {
    TotalWithout(m[k := r], f, k);
    if k in m {
      TotalWithout(m, f, k);
      assert m[k := r] - {k} == m - {k};
    } else {
      assert m[k := r] - {k} == m;
    }
  }

  lemma {:induction false} TotalAtLeast<K, V>(m: map<K, V>, f: V -> int, k: K)
    requires forall j :: j in m ==> f(m[j]) >= 0
    ensures Total(m, f) >= 0 && (k in m ==> Total(m, f) >= f(m[k]))
    decreases |m|
  {
    if m != map[] {
      var j := if k in m then k else var j :| j in m; j;
      TotalWithout(m, f, j);
      TotalAtLeast(m - {j}, f, k);
    }
  }

  lemma {:induction false} SomePositive<K, V>(m: map<K, V>, f: V -> int) returns (k: K)
    requires Total(m, f) > 0
    ensures k in m && f(m[k]) > 0
    decreases |m|
  {
    k :| k in m;
    TotalWithout(m, f, k);
    if f(m[k]) <= 0 {
      k := SomePositive(m - {k}, f);
    }
  }

  lemma {:induction false} SubsetIsSmaller<T>(a: set<T>, b: set<T>)
    requires a <= b
    ensures |a| <= |b|
  {
    if a != {} {
      var x :| x in a;
      SubsetIsSmaller(a - {x}, b - {x});
    }
  }
}
