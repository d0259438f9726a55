/** How a `SELECT` over one table produces its rows: a scan of the table
    filtered by the WHERE clause, then `ORDER BY created_at DESC LIMIT n`
    over TEXT values. SQLite's default BINARY collation compares the UTF-8
    bytes, which orders strings as their code points do. Rows with equal
    keys come out in an order SQLite does not fix, so the result is
    specified up to that order (TopRows) and one concrete ordering is
    proved to meet it. */
module Ranking {

  predicate Distinct<T(==)>(s: seq<T>)
  {
    forall i, j :: 0 <= i < j < |s| ==> s[i] != s[j]
  }

  /** `scan` visits each key of a table exactly once, in the order the
      table scan happens to take. */
  ghost predicate Enumerates(scan: seq<string>, keys: set<string>)
  {
    Distinct(scan) && forall id :: id in keys <==> id in scan
  }

  /** Distinct keys give distinct rows. */
  ghost predicate Injective<V(!new), R>(row: (string, V) -> R)
  {
    forall a, b, v, w :: row(a, v) == row(b, w) ==> a == b
  }

  /** The rows of the scan that satisfy the WHERE clause `keep`. */
  function Select<V, R>(m: map<string, V>, scan: seq<string>, keep: V -> bool,
                        row: (string, V) -> R): seq<R>
  {
    if scan == [] then []
    else
      var rest := Select(m, scan[1..], keep, row);
      if scan[0] in m && keep(m[scan[0]]) then [row(scan[0], m[scan[0]])] + rest else rest
  }

  /** The rows the WHERE clause selects, in no particular order. */
  ghost function Selected<V, R>(m: map<string, V>, keep: V -> bool, row: (string, V) -> R): multiset<R>
  {
    multiset(set id | id in m && keep(m[id]) :: row(id, m[id]))
  }

  lemma DistinctTail<T>(s: seq<T>)
    requires Distinct(s) && s != []
    ensures Distinct(s[1..]) && s[0] !in s[1..]
  {
    var rest := s[1..];
    forall i, j | 0 <= i < j < |rest| ensures rest[i] != rest[j] {
      assert rest[i] == s[i + 1] && rest[j] == s[j + 1];
    }
    forall k | 0 <= k < |rest| ensures rest[k] != s[0] {
      assert rest[k] == s[k + 1];
    }
  }

  /** Scanning the table in any order selects each selected row once. */
  lemma SelectAll<V(!new), R>(m: map<string, V>, scan: seq<string>, keep: V -> bool, row: (string, V) -> R)
    requires Enumerates(scan, m.Keys) && Injective(row)
    ensures multiset(Select(m, scan, keep, row)) == Selected(m, keep, row)
  {
    SelectScanned(m, scan, keep, row);
    assert Scanned(m, scan, keep, row) == (set id | id in m && keep(m[id]) :: row(id, m[id]));
  }

  /** The rows selected from the keys the scan visits. */
  ghost function Scanned<V, R>(m: map<string, V>, scan: seq<string>, keep: V -> bool, row: (string, V) -> R): set<R>
  {
    set id | id in m && id in scan && keep(m[id]) :: row(id, m[id])
  }

  lemma {:induction false} SelectScanned<V(!new), R>(m: map<string, V>, scan: seq<string>, keep: V -> bool,
                                                     row: (string, V) -> R)
    requires Distinct(scan) && Injective(row)
    ensures multiset(Select(m, scan, keep, row)) == multiset(Scanned(m, scan, keep, row))
  {
    if scan != [] {
      DistinctTail(scan);
      SelectScanned(m, scan[1..], keep, row);
      ScannedStep(m, scan, keep, row);
    }
  }

  /** Visiting one more key adds its row, which no other key yields. */
  lemma ScannedStep<V(!new), R>(m: map<string, V>, scan: seq<string>, keep: V -> bool, row: (string, V) -> R)
    requires scan != [] && scan[0] !in scan[1..] && Injective(row)
    ensures var a, before := scan[0], Scanned(m, scan[1..], keep, row);
      if a in m && keep(m[a])
      then multiset(Scanned(m, scan, keep, row)) == multiset(before) + multiset{row(a, m[a])}
      else Scanned(m, scan, keep, row) == before
  {
    var a, before, after := scan[0], Scanned(m, scan[1..], keep, row), Scanned(m, scan, keep, row);
    if a in m && keep(m[a]) {
      var x := row(a, m[a]);
      assert x !in before;
      assert after == before + {x};
    } else {
      assert after == before;
    }
  }

  /** `a <= b` under the BINARY collation. */
  predicate LexLe(a: string, b: string)
  {
    a == [] || (b != [] && (a[0] < b[0] || (a[0] == b[0] && LexLe(a[1..], b[1..]))))
  }

  lemma {:induction false} LexLeTotal(a: string, b: string)
    ensures LexLe(a, b) || LexLe(b, a)
  {
    if a != [] && b != [] && a[0] == b[0] {
      LexLeTotal(a[1..], b[1..]);
    }
  }

  lemma {:induction false} LexLeTrans(a: string, b: string, c: string)
    requires LexLe(a, b) && LexLe(b, c)
    ensures LexLe(a, c)
  {
    if a != [] && b != [] && c != [] && a[0] == b[0] == c[0] {
      LexLeTrans(a[1..], b[1..], c[1..]);
    }
  }

  lemma {:induction false} LexLeAntisymmetric(a: string, b: string)
    requires LexLe(a, b) && LexLe(b, a)
    ensures a == b
  {
    if a != [] && b != [] {
      LexLeAntisymmetric(a[1..], b[1..]);
    }
  }

  /** Newest first: no row is followed by a row with a greater key. */
  predicate SortedDesc<T>(s: seq<T>, key: T -> string)
  {
    forall i, j :: 0 <= i < j < |s| ==> LexLe(key(s[j]), key(s[i]))
  }

  /** Places `x` before the first row whose key it is not below. */
  function InsertDesc<T>(x: T, s: seq<T>, key: T -> string): (r: seq<T>)
    ensures multiset(r) == multiset(s) + multiset{x}
  {
    if s == [] then [x]
    else if LexLe(key(s[0]), key(x)) then [x] + s
    else
      assert s == [s[0]] + s[1..];
      [s[0]] + InsertDesc(x, s[1..], key)
  }

  lemma {:induction false} InsertDescSorted<T>(x: T, s: seq<T>, key: T -> string)
    requires SortedDesc(s, key)
    ensures SortedDesc(InsertDesc(x, s, key), key)
  {
    var r := InsertDesc(x, s, key);
    if s == [] {
    } else if LexLe(key(s[0]), key(x)) {
      PrependSorted(x, s, key);
    } else {
      LexLeTotal(key(s[0]), key(x));
      var tail := InsertDesc(x, s[1..], key);
      InsertDescSorted(x, s[1..], key);
      NoneAboveHead(x, s, key);
      assert r == [s[0]] + tail;
      forall i, j | 0 <= i < j < |r| ensures LexLe(key(r[j]), key(r[i])) {
        if i == 0 {
          assert r[j] == tail[j - 1];
        } else {
          assert r[i] == tail[i - 1] && r[j] == tail[j - 1];
        }
      }
    }
  }

  /** A row at least as new as the head of a sorted sequence can go first. */
  lemma PrependSorted<T>(x: T, s: seq<T>, key: T -> string)
    requires SortedDesc(s, key) && s != []
    requires LexLe(key(s[0]), key(x))
    ensures SortedDesc([x] + s, key)
  {
    var r := [x] + s;
    forall i, j | 0 <= i < j < |r| ensures LexLe(key(r[j]), key(r[i])) {
      if i == 0 {
        if j > 1 { LexLeTrans(key(s[j - 1]), key(s[0]), key(x)); }
      } else {
        assert r[i] == s[i - 1] && r[j] == s[j - 1];
      }
    }
  }

  /** Inserting a row no newer than the head into the rest of a sorted
      sequence leaves every row no newer than the head. */
  lemma NoneAboveHead<T>(x: T, s: seq<T>, key: T -> string)
    requires SortedDesc(s, key) && s != []
    requires LexLe(key(x), key(s[0]))
    ensures forall k :: 0 <= k < |InsertDesc(x, s[1..], key)| ==>
              LexLe(key(InsertDesc(x, s[1..], key)[k]), key(s[0]))
  {
    var tail := InsertDesc(x, s[1..], key);
    forall k | 0 <= k < |tail| ensures LexLe(key(tail[k]), key(s[0])) {
      var y := tail[k];
      assert y in multiset(tail);
      if y != x {
        assert y in multiset(s[1..]);
        var m :| 0 <= m < |s[1..]| && s[1..][m] == y;
        assert s[m + 1] == y;
      }
    }
  }

  /** Insertion sort, newest first. */
  function SortDesc<T>(s: seq<T>, key: T -> string): (r: seq<T>)
    ensures multiset(r) == multiset(s)
  {
    if s == [] then []
    else
      assert s == [s[0]] + s[1..];
      InsertDesc(s[0], SortDesc(s[1..], key), key)
  }

  lemma {:induction false} SortDescSorted<T>(s: seq<T>, key: T -> string)
    ensures SortedDesc(SortDesc(s, key), key)
  {
    if s != [] {
      SortDescSorted(s[1..], key);
      InsertDescSorted(s[0], SortDesc(s[1..], key), key);
    }
  }

  /** The number of rows `LIMIT limit` keeps out of `n`: a negative limit
      means no limit. */
  function Capped(n: nat, limit: int): nat
  {
    if limit < 0 || limit >= n then n else limit
  }

  /** `LIMIT limit` */
  function Take<T>(s: seq<T>, limit: int): (r: seq<T>)
    ensures |r| == Capped(|s|, limit)
    ensures r == s[..|r|]
  {
    if limit < 0 || limit >= |s| then s else s[..limit]
  }

  /** What `SELECT … ORDER BY key DESC LIMIT limit` may return from the rows
      `pool`: as many rows as the limit allows, all drawn from the pool,
      newest first, and no row left out is newer than a row returned. */
  predicate TopRows<T(==)>(pool: multiset<T>, key: T -> string, limit: int, rows: seq<T>)
  {
    && |rows| == Capped(|pool|, limit)
    && multiset(rows) <= pool
    && SortedDesc(rows, key)
    && forall x, j :: x in pool - multiset(rows) && 0 <= j < |rows| ==> LexLe(key(x), key(rows[j]))
  }

  /** Sorting and then cutting at the limit returns the top rows. */
  lemma TopOfSorted<T>(s: seq<T>, key: T -> string, limit: int)
    ensures TopRows(multiset(s), key, limit, Take(SortDesc(s, key), limit))
  {
    SortDescSorted(s, key);
    TopOfSortedRows(SortDesc(s, key), key, limit);
  }

  lemma TopOfSortedRows<T>(sorted: seq<T>, key: T -> string, limit: int)
    requires SortedDesc(sorted, key)
    ensures TopRows(multiset(sorted), key, limit, Take(sorted, limit))
  {
    var rows := Take(sorted, limit);
    var rest := sorted[|rows|..];
    assert sorted == rows + rest;
    assert multiset(sorted) - multiset(rows) == multiset(rest);
    forall x, j | x in multiset(rest) && 0 <= j < |rows|
      ensures LexLe(key(x), key(rows[j]))
    {
      var k :| 0 <= k < |rest| && rest[k] == x;
      assert sorted[|rows| + k] == x && sorted[j] == rows[j];
    }
  }

  /** A full result is exactly the pool, in some newest-first order. */
  lemma AllRowsWhenUnderLimit<T>(pool: multiset<T>, key: T -> string, limit: int, rows: seq<T>)
    requires TopRows(pool, key, limit, rows)
    requires limit < 0 || |pool| <= limit
    ensures multiset(rows) == pool
  {
    assert |pool - multiset(rows)| == 0;
  }

  /** A pool member missing from the result was crowded out: the result is
      full and every row in it is at least as large. */
  lemma LeftOut<T>(pool: multiset<T>, key: T -> string, limit: int, rows: seq<T>, x: T)
    requires TopRows(pool, key, limit, rows)
    requires x in pool && x !in rows
    ensures |rows| == limit
    ensures forall j :: 0 <= j < |rows| ==> LexLe(key(x), key(rows[j]))
  {
    assert x in pool - multiset(rows);
    if limit < 0 || |pool| <= limit {
      AllRowsWhenUnderLimit(pool, key, limit, rows);
      assert false;
    }
  }

  /** Whichever order SQLite picks among equal keys, the keys come out the
      same: the result is determined up to rows that tie. */
  lemma {:induction false} TopRowsKeysDetermined<T>(pool: multiset<T>, key: T -> string, limit: int,
                                                     rows: seq<T>, other: seq<T>)
    requires TopRows(pool, key, limit, rows) && TopRows(pool, key, limit, other)
    ensures |rows| == |other|
    ensures forall j :: 0 <= j < |rows| ==> key(rows[j]) == key(other[j])
  {
    forall j | 0 <= j < |rows| ensures key(rows[j]) == key(other[j]) {
      KeyAt(pool, key, limit, rows, other, j);
      KeyAt(pool, key, limit, other, rows, j);
      LexLeAntisymmetric(key(rows[j]), key(other[j]));
    }
  }

  /** The key at position `j` of one valid result is no greater than the
      key at the same position of another. */
  lemma KeyAt<T>(pool: multiset<T>, key: T -> string, limit: int, rows: seq<T>, other: seq<T>, j: nat)
    requires TopRows(pool, key, limit, rows) && TopRows(pool, key, limit, other)
    requires j < |rows|
    ensures LexLe(key(rows[j]), key(other[j]))
  {
    // rows[..j + 1], all at least as new as rows[j], holds some row more
    // often than other[..j] does; `other` has that row at j or later, or
    // leaves a copy of it out.
    var head := multiset(rows[..j + 1]);
    var y := PickMore(head, multiset(other[..j]));
    NoNewerInPrefix(rows, key, j, y);
    assert rows == rows[..j + 1] + rows[j + 1..];
    assert head <= multiset(rows);
    AtOrBelow(pool, key, limit, other, j, y);
    LexLeTrans(key(rows[j]), key(y), key(other[j]));
  }

  /** Every row among the first j + 1 of a newest-first sequence is at least
      as new as row j. */
  lemma NoNewerInPrefix<T>(rows: seq<T>, key: T -> string, j: nat, y: T)
    requires SortedDesc(rows, key) && j < |rows|
    requires y in multiset(rows[..j + 1])
    ensures LexLe(key(rows[j]), key(y))
  {
    var i :| 0 <= i <= j && rows[..j + 1][i] == y;
    if i == j { LexLeRefl(key(y)); } else { assert rows[i] == y; }
  }

  /** A row that appears in the pool more often than among a result's first
      j rows is no newer than the result's row j. */
  lemma AtOrBelow<T>(pool: multiset<T>, key: T -> string, limit: int, other: seq<T>, j: nat, y: T)
    requires TopRows(pool, key, limit, other)
    requires j < |other|
    requires multiset(other[..j])[y] < pool[y]
    ensures LexLe(key(y), key(other[j]))
  {
    assert other == other[..j] + other[j..];
    if y in multiset(other[j..]) {
      var k :| 0 <= k < |other[j..]| && other[j..][k] == y;
      assert other[j + k] == y;
      if k == 0 { LexLeRefl(key(y)); }
    } else {
      assert y in pool - multiset(other);
    }
  }

  lemma {:induction false} LexLeRefl(a: string)
    ensures LexLe(a, a)
  {
    if a != [] {
      LexLeRefl(a[1..]);
    }
  }

  /** A bigger multiset holds some element more often than a smaller one. */
  lemma PickMore<T>(big: multiset<T>, small: multiset<T>) returns (y: T)
    requires |small| < |big|
    ensures big[y] > small[y]
  {
    if exists z :: big[z] > small[z] {
      y :| big[y] > small[y];
    } else {
      SubMultisetSize(big, small);
      assert false;
    }
  }

  lemma SubMultisetSize<T>(a: multiset<T>, b: multiset<T>)
    requires a <= b
    ensures |a| <= |b|
  {
    assert b == a + (b - a);
  }
}
