/**
 * The steps of the store's query builder that the data layer chains, as pure
 * functions over the rows a table holds: `filter`, `.single()`, `.order()`,
 * `.range()` and `.limit()`, and the text order `.order()` sorts by.
 */
module QueryBuilder {
  import opened Wrappers

  // ---------------------------------------------------------------------------
  // Filtering

  /** The rows that satisfy `keep`, in table order. */
  function Filter<T(!new)>(rows: seq<T>, keep: T -> bool): (r: seq<T>)
    ensures |r| <= |rows|
    ensures forall x :: x in r <==> x in rows && keep(x)
  {
    if |rows| == 0 then []
    else (if keep(rows[0]) then [rows[0]] else []) + Filter(rows[1..], keep)
  }

  lemma {:induction false} FilterKeepsAll<T(!new)>(rows: seq<T>, keep: T -> bool)
    requires forall x :: x in rows ==> keep(x)
    ensures Filter(rows, keep) == rows
  {
    if |rows| > 0 {
      FilterKeepsAll(rows[1..], keep);
      assert rows == [rows[0]] + rows[1..];
    }
  }

  /** Filtering a concatenation filters each part: the kept rows stay in table order. */
  lemma {:induction false} FilterConcat<T(!new)>(a: seq<T>, b: seq<T>, keep: T -> bool)
    ensures Filter(a + b, keep) == Filter(a, keep) + Filter(b, keep)
  {
    if |a| > 0 {
      assert (a + b)[1..] == a[1..] + b;
      FilterConcat(a[1..], b, keep);
    } else {
      assert a + b == b;
    }
  }

  /**
   * `.single()`: the row when exactly one row matches; with none or several
   * the store reports an error and returns no data.
   */
  function Single<T(!new)>(rows: seq<T>, matches: T -> bool): (r: Option<T>)
    ensures r.Some? <==> |Filter(rows, matches)| == 1
    ensures r.Some? ==> r.value in rows && matches(r.value)
  {
    var found := Filter(rows, matches);
    if |found| == 1 then Some(found[0]) else None
  }

  /** The first row that satisfies `matches`, in table order. */
  function First<T(==,!new)>(rows: seq<T>, matches: T -> bool): (r: Option<T>)
    ensures r.Some? <==> exists x :: x in rows && matches(x)
    ensures r.Some? ==> r.value in rows && matches(r.value)
    ensures r.Some? ==> exists i :: 0 <= i < |rows| && rows[i] == r.value
                                && forall j :: 0 <= j < i ==> !matches(rows[j])
  {
    if |rows| == 0 then None
    else if matches(rows[0]) then Some(rows[0])
    else
      var rest := First(rows[1..], matches);
      assert forall x :: x in rows && x != rows[0] ==> x in rows[1..];
      if rest.Some? then
        var i :| 0 <= i < |rows[1..]| && rows[1..][i] == rest.value
                 && forall j :: 0 <= j < i ==> !matches(rows[1..][j]);
        assert rows[i + 1] == rest.value;
        assert forall j :: 0 <= j < i + 1 ==> !matches(rows[j]) by {
          forall j | 0 <= j < i + 1 ensures !matches(rows[j]) {
            if j > 0 { assert rows[j] == rows[1..][j - 1]; }
          }
        }
        rest
      else rest
  }

  // ---------------------------------------------------------------------------
  // Windows

  function Min(a: int, b: int): int { if a <= b then a else b }

  /** `.limit(n)`: the first `n` rows. */
  function Limit<T>(rows: seq<T>, n: nat): (r: seq<T>)
    ensures |r| == Min(n, |rows|)
    ensures r == rows[..|r|]
  {
    rows[..Min(n, |rows|)]
  }

  /** `.range(from, to)`: the rows at positions `from` through `to`, both included. */
  function Range<T>(rows: seq<T>, from: nat, to: int): (r: seq<T>)
    ensures |r| <= if to < from then 0 else to - from + 1
    ensures forall k :: 0 <= k < |r| ==> from + k < |rows| && r[k] == rows[from + k]
    ensures from < |rows| && from <= to ==> |r| == Min(to + 1, |rows|) - from
  {
    if from >= |rows| || to < from then [] else rows[from..Min(to + 1, |rows|)]
  }

  // ---------------------------------------------------------------------------
  // Ordering

  /** Text order, character by character (a prefix comes first). */
  predicate LexLeq(a: string, b: string)
    decreases |a|
  {
    |a| == 0 || (|b| > 0 && (a[0] < b[0] || (a[0] == b[0] && LexLeq(a[1..], b[1..]))))
  }

  lemma {:induction false} LexLeqTotal(a: string, b: string)
    ensures LexLeq(a, b) || LexLeq(b, a)
    decreases |a|
  {
    if |a| > 0 && |b| > 0 && a[0] == b[0] {
      LexLeqTotal(a[1..], b[1..]);
    }
  }

  lemma {:induction false} LexLeqTransitive(a: string, b: string, c: string)
    requires LexLeq(a, b) && LexLeq(b, c)
    ensures LexLeq(a, c)
    decreases |a|
  {
    if |a| > 0 && a[0] == b[0] && b[0] == c[0] {
      LexLeqTransitive(a[1..], b[1..], c[1..]);
    }
  }

  /** `x` may come before `y` under `.order(key, { ascending: !descending })`. */
  predicate InOrder(x: string, y: string, descending: bool) {
    if descending then LexLeq(y, x) else LexLeq(x, y)
  }

  ghost predicate SortedBy<T>(rows: seq<T>, key: T -> string, descending: bool) {
    forall i, j :: 0 <= i < j < |rows| ==> InOrder(key(rows[i]), key(rows[j]), descending)
  }

  lemma InOrderTransitive(a: string, b: string, c: string, descending: bool)
    requires InOrder(a, b, descending) && InOrder(b, c, descending)
    ensures InOrder(a, c, descending)
  {
    if descending { LexLeqTransitive(c, b, a); } else { LexLeqTransitive(a, b, c); }
  }

  /** Every row of `rows` may follow a row whose key is `k`. */
  ghost predicate AllFollow<T>(k: string, rows: seq<T>, key: T -> string, descending: bool) {
    forall j :: 0 <= j < |rows| ==> InOrder(k, key(rows[j]), descending)
  }

  lemma ConsSorted<T>(h: T, rows: seq<T>, key: T -> string, descending: bool)
    requires SortedBy(rows, key, descending) && AllFollow(key(h), rows, key, descending)
    ensures SortedBy([h] + rows, key, descending)
  {
    var r := [h] + rows;
    forall i, j | 0 <= i < j < |r| ensures InOrder(key(r[i]), key(r[j]), descending) {
      if i == 0 {
        assert r[j] == rows[j - 1];
      } else {
        assert r[i] == rows[i - 1] && r[j] == rows[j - 1];
      }
    }
  }

  function Insert<T>(x: T, sorted: seq<T>, key: T -> string, descending: bool): (r: seq<T>)
    ensures multiset(r) == multiset(sorted) + multiset{x}
  {
    if |sorted| == 0 then [x]
    else if InOrder(key(x), key(sorted[0]), descending) then
      assert sorted == [sorted[0]] + sorted[1..];
      [x] + sorted
    else
      assert sorted == [sorted[0]] + sorted[1..];
      [sorted[0]] + Insert(x, sorted[1..], key, descending)
  }

  lemma {:induction false} InsertAllFollow<T>(k: string, x: T, sorted: seq<T>, key: T -> string, descending: bool)
    requires AllFollow(k, sorted, key, descending) && InOrder(k, key(x), descending)
    ensures AllFollow(k, Insert(x, sorted, key, descending), key, descending)
  {
    if |sorted| > 0 && !InOrder(key(x), key(sorted[0]), descending) {
      InsertAllFollow(k, x, sorted[1..], key, descending);
    }
  }

  /** Inserting into a sorted list keeps it sorted. */
  lemma {:induction false} InsertSorted<T>(x: T, sorted: seq<T>, key: T -> string, descending: bool)
    requires SortedBy(sorted, key, descending)
    ensures SortedBy(Insert(x, sorted, key, descending), key, descending)
  {
    if |sorted| == 0 {
    } else if InOrder(key(x), key(sorted[0]), descending) {
      forall j | 0 <= j < |sorted| ensures InOrder(key(x), key(sorted[j]), descending) {
        if j > 0 { InOrderTransitive(key(x), key(sorted[0]), key(sorted[j]), descending); }
      }
      ConsSorted(x, sorted, key, descending);
    } else {
      var tail := sorted[1..];
      InsertSorted(x, tail, key, descending);
      LexLeqTotal(key(x), key(sorted[0]));
      assert forall j :: 0 <= j < |tail| ==> tail[j] == sorted[j + 1];
      InsertAllFollow(key(sorted[0]), x, tail, key, descending);
      ConsSorted(sorted[0], Insert(x, tail, key, descending), key, descending);
    }
  }

  /** `.order(key, ...)`: the rows sorted by `key`, a permutation of the input. */
  function SortBy<T>(rows: seq<T>, key: T -> string, descending: bool): (r: seq<T>)
    ensures multiset(r) == multiset(rows) && |r| == |rows|
    ensures SortedBy(r, key, descending)
  {
    if |rows| == 0 then []
    else
      assert rows == [rows[0]] + rows[1..];
      InsertSorted(rows[0], SortBy(rows[1..], key, descending), key, descending);
      Insert(rows[0], SortBy(rows[1..], key, descending), key, descending)
  }
}
