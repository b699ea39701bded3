/**
 SELECT ... ORDER BY ... LIMIT over a finite set of row keys, for any strict total order.

 Every bounded cleanup, eviction and page of the stores goes through `OrderBy`, so its contract
 (the rows, each once, in order) and `FirstRows` (the set a LIMIT picks) are stated once here.
 */
module SqlOrder {
  import opened Basics

  /** `before` orders the members of `rows` strictly and totally. */
  ghost predicate TotalOn<K(!new)>(rows: set<K>, before: (K, K) -> bool) {
    && (forall a, b | a in rows && b in rows && before(a, b) :: !before(b, a))
    && (forall a, b | a in rows && b in rows && a != b :: before(a, b) || before(b, a))
    && (forall a, b, c | a in rows && b in rows && c in rows && before(a, b) && before(b, c) :: before(a, c))
  }

  lemma TotalOnSubset<K(!new)>(rows: set<K>, some: set<K>, before: (K, K) -> bool)
    requires TotalOn(rows, before) && some <= rows
    ensures TotalOn(some, before)
  {
  }

  predicate IsFirst<K(!new, ==)>(m: K, rows: set<K>, before: (K, K) -> bool) {
    m in rows && forall x | x in rows :: x == m || (before(m, x) && !before(x, m))
  }

  lemma FirstExists<K(!new)>(rows: set<K>, before: (K, K) -> bool)
    requires rows != {} && TotalOn(rows, before)
    ensures exists m :: m in rows && IsFirst(m, rows, before)
    decreases |rows|
  {
    var k :| k in rows;
    var rest := rows - {k};
    if rest == {} {
      assert rows == {k};
      assert IsFirst(k, rows, before);
    } else {
      FirstExists(rest, before);
      var m :| m in rest && IsFirst(m, rest, before);
      var least := if before(k, m) then k else m;
      forall x | x in rows ensures x == least || before(least, x) {
        assert x == k || x == m || (x in rest && before(m, x) && !before(x, m));
      }
      assert IsFirst(least, rows, before);
    }
  }

  /** `keys` lists the members of `rows`, each once, in ascending order. */
  ghost predicate Lists<K(!new)>(keys: seq<K>, rows: set<K>, before: (K, K) -> bool) {
    && |keys| == |rows|
    && (forall k | k in rows :: k in keys)
    && (forall i | 0 <= i < |keys| :: keys[i] in rows)
    && (forall i, j | 0 <= i < j < |keys| :: before(keys[i], keys[j]))
  }

  /** ORDER BY: repeatedly the row before all others (every row, when the order is total on them). */
  function OrderBy<K(!new, ==)>(rows: set<K>, before: (K, K) -> bool): (keys: seq<K>)
    ensures forall i | 0 <= i < |keys| :: keys[i] in rows
    decreases |rows|
  {
    if exists m :: m in rows && IsFirst(m, rows, before) then
      var m :| m in rows && IsFirst(m, rows, before);
      [m] + OrderBy(rows - {m}, before)
    else []
  }

  /** Every row once, in ascending order. */
  lemma {:induction false} OrderByLists<K(!new)>(rows: set<K>, before: (K, K) -> bool)
    requires TotalOn(rows, before)
    ensures Lists(OrderBy(rows, before), rows, before)
    decreases |rows|
  {
    if rows != {} {
      FirstExists(rows, before);
      var m: K :| m in rows && IsFirst(m, rows, before) && OrderBy(rows, before) == [m] + OrderBy(rows - {m}, before);
      OrderByLists(rows - {m}, before);
      PrependFirst(rows, before, m, OrderBy(rows - {m}, before));
    }
  }

  lemma PrependFirst<K(!new)>(rows: set<K>, before: (K, K) -> bool, m: K, rest: seq<K>)
    requires IsFirst(m, rows, before) && Lists(rest, rows - {m}, before)
    ensures Lists([m] + rest, rows, before)
  {
    var keys := [m] + rest;
    forall k | k in rows ensures k in keys {
      assert k == m || k in rows - {m};
    }
    forall i, j | 0 <= i < j < |keys| ensures before(keys[i], keys[j]) {
      assert keys[j] == rest[j - 1];
      assert i == 0 || keys[i] == rest[i - 1];
    }
  }

  lemma DropFirst<K(!new)>(rows: set<K>, before: (K, K) -> bool, keys: seq<K>)
    requires rows != {} && TotalOn(rows, before) && Lists(keys, rows, before)
    ensures IsFirst(keys[0], rows, before)
    ensures Lists(keys[1..], rows - {keys[0]}, before)
  {
    forall k | k in rows ensures k == keys[0] || (k in keys[1..] && before(keys[0], k)) {
      var i :| 0 <= i < |keys| && keys[i] == k;
      assert i == 0 || keys[1..][i - 1] == k;
    }
  }

  /** The order leaves no choice: any ascending listing of the rows is the ORDER BY result. */
  lemma OrderByUnique<K(!new)>(rows: set<K>, before: (K, K) -> bool, keys: seq<K>)
    requires TotalOn(rows, before) && Lists(keys, rows, before)
    ensures keys == OrderBy(rows, before)
  {
    OrderByLists(rows, before);
    ListsUnique(rows, before, keys, OrderBy(rows, before));
  }

  lemma {:induction false} ListsUnique<K(!new)>(rows: set<K>, before: (K, K) -> bool, a: seq<K>, b: seq<K>)
    requires TotalOn(rows, before) && Lists(a, rows, before) && Lists(b, rows, before)
    ensures a == b
    decreases |rows|
  {
    if rows != {} {
      DropFirst(rows, before, a);
      DropFirst(rows, before, b);
      assert a[0] == b[0];
      ListsUnique(rows - {a[0]}, before, a[1..], b[1..]);
      assert a == [a[0]] + a[1..] && b == [b[0]] + b[1..];
    }
  }

  /** ORDER BY ... LIMIT n, as a set. */
  function FirstRows<K(!new, ==)>(rows: set<K>, before: (K, K) -> bool, n: nat): (first: set<K>)
    ensures first <= rows
  {
    var keys := OrderBy(rows, before);
    Members(keys[..Min(n, |keys|)])
  }

  /** A LIMIT picks min(n, |rows|) rows, all of them before the rows it leaves. */
  lemma FirstRowsAreLeast<K(!new)>(rows: set<K>, before: (K, K) -> bool, n: nat)
    requires TotalOn(rows, before)
    ensures var first := FirstRows(rows, before, n);
            |first| == Min(n, |rows|) && forall a, b | a in first && b in rows && b !in first :: before(a, b)
  {
    OrderByLists(rows, before);
    PrefixSplits(rows, before, OrderBy(rows, before), Min(n, |rows|));
  }

  /** DELETE ... WHERE key IN (SELECT ... ORDER BY ... LIMIT n): what goes, what stays, and in which order. */
  lemma LimitedDelete<K(!new), V>(table: map<K, V>, rows: set<K>, before: (K, K) -> bool, n: nat)
    requires rows <= table.Keys && TotalOn(rows, before)
    ensures var kept := table - FirstRows(rows, before, n);
      && (forall k | k in kept :: k in table && kept[k] == table[k])
      && (forall k | k in table && k !in rows :: k in kept)
      && |table.Keys - kept.Keys| == Min(n, |rows|)
      && (forall gone, left | gone in table && gone !in kept && left in kept && left in rows :: before(gone, left))
  {
    hide FirstRows, TotalOn;
    FirstRowsAreLeast(rows, before, n);
    var first := FirstRows(rows, before, n);
    assert table.Keys - (table - first).Keys == first;
  }

  function Members<K(!new, ==)>(keys: seq<K>): set<K> {
    set k | k in keys
  }

  lemma PrefixSplits<K(!new)>(rows: set<K>, before: (K, K) -> bool, keys: seq<K>, n: nat)
    requires TotalOn(rows, before) && Lists(keys, rows, before) && n <= |keys|
    ensures var first := Members(keys[..n]);
            first <= rows && |first| == n && forall a, b | a in first && b in rows && b !in first :: before(a, b)
  {
    DistinctPrefix(rows, before, keys, n);
    var first := Members(keys[..n]);
    assert forall j | 0 <= j < n :: keys[..n][j] in first;
    forall a, b | a in first && b in rows && b !in first ensures before(a, b) {
      var i :| 0 <= i < n && keys[i] == a;
      var j :| 0 <= j < |keys| && keys[j] == b;
    }
  }

  lemma MembersAppend<K(!new)>(keys: seq<K>, last: K)
    requires last !in keys
    ensures |Members(keys + [last])| == |Members(keys)| + 1
  {
    assert Members(keys + [last]) == Members(keys) + {last};
  }

  lemma {:induction false} DistinctPrefix<K(!new)>(rows: set<K>, before: (K, K) -> bool, keys: seq<K>, n: nat)
    requires TotalOn(rows, before) && Lists(keys, rows, before) && n <= |keys|
    ensures |Members(keys[..n])| == n
  {
    hide Members;
    if n == 0 {
      NoMembers(keys[..0]);
    } else {
      DistinctPrefix(rows, before, keys, n - 1);
      forall i | 0 <= i < n - 1 ensures keys[i] != keys[n-1] {
        assert before(keys[i], keys[n-1]);
      }
      MembersAppend(keys[..n-1], keys[n-1]);
      assert keys[..n] == keys[..n-1] + [keys[n-1]];
    }
  }

  lemma NoMembers<K(!new)>(keys: seq<K>)
    requires keys == []
    ensures Members(keys) == {}
  {
  }

  // ------------------------------------------------------------------ MIN

  lemma LeastExists(values: set<int>)
    requires values != {}
    ensures exists m | m in values :: forall x | x in values :: m <= x
  {
    var less := (a: int, b: int) => a < b;
    FirstExists(values, less);
    var m :| m in values && IsFirst(m, values, less);
    assert forall x | x in values :: m <= x;
  }

  /** MIN(...) over a set of values; null over none. */
  function Least(values: set<int>): (least: Option<int>)
    ensures least.None? <==> values == {}
    ensures least.Some? ==> least.value in values && forall x | x in values :: least.value <= x
  {
    if values == {} then None else
    LeastExists(values);
    var m :| m in values && forall x | x in values :: m <= x;
    Some(m)
  }

  // ------------------------------------------------------------------ text order

  /** SQLite's BINARY collation on text. */
  predicate TextBefore(a: string, b: string) {
    b != [] && (a == [] || a[0] < b[0] || (a[0] == b[0] && TextBefore(a[1..], b[1..])))
  }

  /** A text is before another where it ends first, or has the lesser character, at the first difference. */
  lemma {:induction false} TextBeforeExactly(a: string, b: string)
    ensures TextBefore(a, b) <==> exists n: nat :: FirstDifference(a, b, n)
    decreases |a|
  {
    forall n: nat | n > 0 && FirstDifference(a, b, n) ensures a != [] && a[0] == b[0] {
      assert a[..n][0] == b[..n][0];
    }
    if FirstDifference(a, b, 0) {
      assert TextBefore(a, b);
    } else if a != [] && b != [] && a[0] == b[0] {
      var s, t := a[1..], b[1..];
      TextBeforeExactly(s, t);
      if n: nat :| FirstDifference(s, t, n) {
        assert a[..n+1] == [a[0]] + s[..n] && b[..n+1] == [b[0]] + t[..n];
        assert FirstDifference(a, b, n + 1);
      }
      if n: nat :| FirstDifference(a, b, n) {
        assert s[..n-1] == a[..n][1..] && t[..n-1] == b[..n][1..];
        assert FirstDifference(s, t, n - 1);
      }
    }
  }

  /** The texts agree up to n, where the first ends or is less. */
  predicate FirstDifference(a: string, b: string, n: nat) {
    n <= |a| && n < |b| && a[..n] == b[..n] && (n == |a| || a[n] < b[n])
  }

  lemma TextTrichotomy(a: string, b: string)
    ensures TextBefore(a, b) ==> !TextBefore(b, a)
    ensures a != b ==> TextBefore(a, b) || TextBefore(b, a)
    ensures !TextBefore(a, a)
  {
    if a != [] && b != [] && a[0] == b[0] {
      TextTrichotomy(a[1..], b[1..]);
      assert a == [a[0]] + a[1..] && b == [b[0]] + b[1..];
    }
  }

  lemma TextTransitive(a: string, b: string, c: string)
    requires TextBefore(a, b) && TextBefore(b, c)
    ensures TextBefore(a, c)
  {
    if a != [] && a[0] == b[0] == c[0] {
      TextTransitive(a[1..], b[1..], c[1..]);
    }
  }

  lemma TextOrderTotal()
    ensures forall a, b :: TextBefore(a, b) ==> !TextBefore(b, a)
    ensures forall a, b | a != b :: TextBefore(a, b) || TextBefore(b, a)
    ensures forall a, b, c | TextBefore(a, b) && TextBefore(b, c) :: TextBefore(a, c)
  {
    forall a, b ensures TextBefore(a, b) ==> !TextBefore(b, a)
                ensures a != b ==> TextBefore(a, b) || TextBefore(b, a) { TextTrichotomy(a, b); }
    forall a, b, c | TextBefore(a, b) && TextBefore(b, c) ensures TextBefore(a, c) { TextTransitive(a, b, c); }
  }

  /** ORDER BY time, key */
  function ByTimeThenKey(at: map<string, int>): (string, string) -> bool {
    (a: string, b: string) => a in at && b in at && (at[a] < at[b] || (at[a] == at[b] && TextBefore(a, b)))
  }

  lemma ByTimeThenKeyTotal(at: map<string, int>)
    ensures TotalOn(at.Keys, ByTimeThenKey(at))
  {
    TextOrderTotal();
  }
}
