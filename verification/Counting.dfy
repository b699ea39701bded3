/** Counting list members and summing counters, for the conservation laws of the dashboards. */
module Counting {

  function Count<T>(s: seq<T>, p: T -> bool): nat {
    if s == [] then 0 else Count(s[..|s|-1], p) + if p(s[|s|-1]) then 1 else 0
  }

  lemma {:induction false} CountSame<T>(s: seq<T>, p: T -> bool, q: T -> bool)
    requires forall x | x in s :: p(x) <==> q(x)
    ensures Count(s, p) == Count(s, q)
  {
    if s != [] { CountSame(s[..|s|-1], p, q); }
  }

  lemma {:induction false} CountSplit<T>(s: seq<T>, p: T -> bool, q: T -> bool, r: T -> bool)
    requires forall x | x in s :: (p(x) <==> q(x) || r(x)) && !(q(x) && r(x))
    ensures Count(s, p) == Count(s, q) + Count(s, r)
  {
    if s != [] { CountSplit(s[..|s|-1], p, q, r); }
  }

  lemma {:induction false} CountAll<T>(s: seq<T>, p: T -> bool)
    requires forall x | x in s :: p(x)
    ensures Count(s, p) == |s|
  {
    if s != [] { CountAll(s[..|s|-1], p); }
  }

  lemma {:induction false} CountAtMost<T>(s: seq<T>, p: T -> bool, q: T -> bool)
    requires forall x | x in s :: p(x) ==> q(x)
    ensures Count(s, p) <= Count(s, q) <= |s|
  {
    if s != [] { CountAtMost(s[..|s|-1], p, q); }
  }

  lemma {:induction false} CountConcat<T>(a: seq<T>, b: seq<T>, p: T -> bool)
    ensures Count(a + b, p) == Count(a, p) + Count(b, p)
  {
    if b == [] {
      assert a + b == a;
    } else {
      CountConcat(a, b[..|b|-1], p);
      assert (a + b)[..|a + b|-1] == a + b[..|b|-1];
    }
  }

  lemma CountSingle<T>(x: T, p: T -> bool)
    ensures Count([x], p) == if p(x) then 1 else 0
  {
    assert [x][..0] == [];
  }

  lemma {:induction false} CountNone<T>(s: seq<T>, p: T -> bool)
    requires forall x | x in s :: !p(x)
    ensures Count(s, p) == 0
  {
    if s != [] { CountNone(s[..|s|-1], p); }
  }

  /** Members up to k that all count, and members from k on that do not. */
  lemma {:induction false} CountAround<T>(s: seq<T>, k: nat, p: T -> bool)
    requires k <= |s|
    ensures (forall i | 0 <= i < k :: p(s[i])) ==> Count(s, p) >= k
    ensures (forall i | k <= i < |s| :: !p(s[i])) ==> Count(s, p) <= k
  {
    if |s| > k {
      CountAround(s[..|s|-1], k, p);
    } else if s != [] {
      CountAround(s[..|s|-1], k - 1, p);
    }
  }

  /** The sum of a table of counters. */
  ghost function Total(m: map<string, nat>): nat
    decreases |m|
  {
    if m == map[] then 0 else
    var k :| k in m;
    m[k] + Total(m - {k})
  }

  lemma {:induction false} TotalRemove(m: map<string, nat>, k: string)
    requires k in m
    ensures Total(m) == m[k] + Total(m - {k})
    decreases |m|
  {
    var first :| first in m && Total(m) == m[first] + Total(m - {first});
    if first != k {
      TotalRemove(m - {first}, k);
      TotalRemove(m - {k}, first);
      assert m - {first} - {k} == m - {k} - {first};
    }
  }

  lemma TotalUpdate(m: map<string, nat>, k: string, n: nat)
    ensures Total(m[k := n]) == Total(m) - (if k in m then m[k] else 0) + n
  {
    TotalRemove(m[k := n], k);
    assert m[k := n] - {k} == m - {k};
    if k in m { TotalRemove(m, k); } else { assert m - {k} == m; }
  }
}
