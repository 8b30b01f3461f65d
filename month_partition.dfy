/**
  Grouping a batch of rows by the calendar month of their start time
  (`groupby(pd.Grouper(key=..., freq="M"))`): the grouper first sorts the
  rows stably by start time, then cuts one group per month present, months
  in ascending order, so each group holds its month's rows sorted by start,
  rows starting at the same time in their batch order.
 */
module MonthPartition {
  import opened LastWriteWins
  import opened Calendar

  function MonthOf<K, D>(r: Record<K, D>): YearMonth
  {
    YearMonthOf(r.start)
  }

  predicate Before(a: YearMonth, b: YearMonth)
  {
    a.year < b.year || (a.year == b.year && a.month < b.month)
  }

  predicate Increasing(ms: seq<YearMonth>)
  {
    forall i, j :: 0 <= i < j < |ms| ==> Before(ms[i], ms[j])
  }

  /** `ms` with `m` added in its place, unless already there. */
  function InsertMonth(ms: seq<YearMonth>, m: YearMonth): (r: seq<YearMonth>)
    requires Increasing(ms)
    ensures Increasing(r)
    ensures forall x :: x in r <==> x in ms || x == m
  {
    if ms == [] then [m]
    else if m == ms[0] then ms
    else if Before(m, ms[0]) then [m] + ms
    else
      var t := InsertMonth(ms[1..], m);
      assert forall j :: 0 <= j < |t| ==> Before(ms[0], t[j]) by {
        forall j | 0 <= j < |t| ensures Before(ms[0], t[j]) {
          if t[j] != m {
            assert t[j] in t;
            var k :| 0 <= k < |ms[1..]| && ms[1..][k] == t[j];
            assert ms[k + 1] == t[j];
          }
        }
      }
      [ms[0]] + t
  }

  /** The months the rows start in, ascending, each once. */
  function Months<K, D>(rows: seq<Record<K, D>>): (ms: seq<YearMonth>)
    ensures Increasing(ms)
    ensures forall m :: m in ms <==> exists i :: 0 <= i < |rows| && MonthOf(rows[i]) == m
  {
    if rows == [] then []
    else
      var ms := InsertMonth(Months(rows[..|rows| - 1]), MonthOf(rows[|rows| - 1]));
      assert forall i :: 0 <= i < |rows| - 1 ==> rows[..|rows| - 1][i] == rows[i];
      ms
  }

  /** The rows starting in month `m`, in their original order. */
  function InMonth<K, D>(rows: seq<Record<K, D>>, m: YearMonth): seq<Record<K, D>>
  {
    if rows == [] then []
    else (if MonthOf(rows[0]) == m then [rows[0]] else []) + InMonth(rows[1..], m)
  }

  /** The rows starting in any month of `ms`, in their original order. */
  function InMonths<K, D>(rows: seq<Record<K, D>>, ms: set<YearMonth>): seq<Record<K, D>>
  {
    if rows == [] then []
    else (if MonthOf(rows[0]) in ms then [rows[0]] else []) + InMonths(rows[1..], ms)
  }

  function Groups<K, D>(rows: seq<Record<K, D>>, ms: seq<YearMonth>): (gs: seq<seq<Record<K, D>>>)
    ensures |gs| == |ms|
    ensures forall i :: 0 <= i < |ms| ==> gs[i] == InMonth(rows, ms[i])
  {
    if ms == [] then [] else [InMonth(rows, ms[0])] + Groups(rows, ms[1..])
  }

  predicate SortedByStart<K, D>(rows: seq<Record<K, D>>)
  {
    forall i, j :: 0 <= i < j < |rows| ==> rows[i].start <= rows[j].start
  }

  /** `s` with `x` placed after every row that starts no later than `x`: one step of a stable sort. */
  function InsertByStart<K, D>(s: seq<Record<K, D>>, x: Record<K, D>): seq<Record<K, D>>
  {
    if s == [] then [x]
    else if s[|s| - 1].start <= x.start then s + [x]
    else InsertByStart(s[..|s| - 1], x) + [s[|s| - 1]]
  }

  /** The rows sorted by start time, stably (pandas' mergesort on the grouping key). */
  function SortByStart<K, D>(rows: seq<Record<K, D>>): seq<Record<K, D>>
  {
    if rows == [] then [] else InsertByStart(SortByStart(rows[..|rows| - 1]), rows[|rows| - 1])
  }

  /** The rows starting at time `t`, in their original order. */
  function WithStart<K, D>(rows: seq<Record<K, D>>, t: int): seq<Record<K, D>>
  {
    if rows == [] then []
    else (if rows[0].start == t then [rows[0]] else []) + WithStart(rows[1..], t)
  }

  /** The grouper's groups: the rows sorted by start, then cut into one group per month present, in ascending month order. */
  function SplitMonths<K, D>(rows: seq<Record<K, D>>): seq<seq<Record<K, D>>>
  {
    Groups(SortByStart(rows), Months(rows))
  }

  function Flatten<T>(gs: seq<seq<T>>): seq<T>
  {
    if gs == [] then [] else gs[0] + Flatten(gs[1..])
  }

  // ---------------------------------------------------------------- helpers

  lemma {:induction false} InMonthFacts<K, D>(rows: seq<Record<K, D>>, m: YearMonth)
    ensures forall r :: r in InMonth(rows, m) ==> MonthOf(r) == m && r in rows
    ensures (exists i :: 0 <= i < |rows| && MonthOf(rows[i]) == m) ==> InMonth(rows, m) != []
  {
    if rows != [] {
      InMonthFacts(rows[1..], m);
      if MonthOf(rows[0]) != m && exists i :: 0 <= i < |rows| && MonthOf(rows[i]) == m {
        var i :| 0 <= i < |rows| && MonthOf(rows[i]) == m;
        assert rows[1..][i - 1] == rows[i];
      }
    }
  }

  lemma {:induction false} InMonthsAdd<K, D>(rows: seq<Record<K, D>>, m: YearMonth, ms: set<YearMonth>)
    requires m !in ms
    ensures multiset(InMonths(rows, {m} + ms)) == multiset(InMonth(rows, m)) + multiset(InMonths(rows, ms))
  {
    if rows != [] {
      InMonthsAdd(rows[1..], m, ms);
    }
  }

  lemma {:induction false} InMonthsAll<K, D>(rows: seq<Record<K, D>>, ms: set<YearMonth>)
    requires forall i :: 0 <= i < |rows| ==> MonthOf(rows[i]) in ms
    ensures InMonths(rows, ms) == rows
  {
    if rows != [] {
      assert forall i :: 0 <= i < |rows| - 1 ==> rows[1..][i] == rows[i + 1];
      InMonthsAll(rows[1..], ms);
      assert rows == [rows[0]] + rows[1..];
    }
  }

  lemma {:induction false} GroupsFlatten<K, D>(rows: seq<Record<K, D>>, ms: seq<YearMonth>)
    requires Increasing(ms)
    ensures multiset(Flatten(Groups(rows, ms))) == multiset(InMonths(rows, set m | m in ms))
  {
    if ms == [] {
      assert (set m | m in ms) == {};
      InMonthsEmpty(rows);
    } else {
      var rest := ms[1..];
      assert Increasing(rest);
      assert ms[0] !in rest;
      assert (set m | m in ms) == {ms[0]} + (set m | m in rest);
      GroupsFlatten(rows, rest);
      InMonthsAdd(rows, ms[0], set m | m in rest);
    }
  }

  lemma {:induction false} InMonthsEmpty<K, D>(rows: seq<Record<K, D>>)
    ensures InMonths(rows, {}) == []
  {
    if rows != [] {
      InMonthsEmpty(rows[1..]);
    }
  }

  lemma {:induction false} InMonthAppend<K, D>(a: seq<Record<K, D>>, b: seq<Record<K, D>>, m: YearMonth)
    ensures InMonth(a + b, m) == InMonth(a, m) + InMonth(b, m)
  {
    if a == [] {
      assert a + b == b;
    } else {
      assert (a + b)[1..] == a[1..] + b;
      InMonthAppend(a[1..], b, m);
    }
  }

  lemma {:induction false} WithStartAppend<K, D>(a: seq<Record<K, D>>, b: seq<Record<K, D>>, t: int)
    ensures WithStart(a + b, t) == WithStart(a, t) + WithStart(b, t)
  {
    if a == [] {
      assert a + b == b;
    } else {
      assert (a + b)[1..] == a[1..] + b;
      WithStartAppend(a[1..], b, t);
    }
  }

  lemma SortedSnoc<K, D>(q: seq<Record<K, D>>, y: Record<K, D>)
    requires SortedByStart(q) && StartsBy(q, y.start)
    ensures SortedByStart(q + [y])
  {
    var r := q + [y];
    forall i, j | 0 <= i < j < |r| ensures r[i].start <= r[j].start {
      assert r[i] == q[i];
    }
  }

  lemma SortedInit<K, D>(s: seq<Record<K, D>>)
    requires SortedByStart(s) && s != []
    ensures SortedByStart(s[..|s| - 1]) && StartsBy(s[..|s| - 1], s[|s| - 1].start)
  {
    var p := s[..|s| - 1];
    assert forall i :: 0 <= i < |p| ==> p[i] == s[i];
  }

  lemma StartsByPermutation<K, D>(q: seq<Record<K, D>>, p: seq<Record<K, D>>, x: Record<K, D>, bound: int)
    requires multiset(q) == multiset(p) + multiset{x}
    requires StartsBy(p, bound) && x.start <= bound
    ensures StartsBy(q, bound)
  {
    forall i | 0 <= i < |q| ensures q[i].start <= bound {
      assert q[i] in multiset(q);
      if q[i] != x {
        assert q[i] in multiset(p);
        var k :| 0 <= k < |p| && p[k] == q[i];
      }
    }
  }

  /** Inserting into a sorted sequence keeps it sorted and adds exactly `x`. */
  lemma {:induction false} InsertByStartSorted<K, D>(s: seq<Record<K, D>>, x: Record<K, D>)
    requires SortedByStart(s)
    ensures SortedByStart(InsertByStart(s, x))
    ensures multiset(InsertByStart(s, x)) == multiset(s) + multiset{x}
  {
    if s != [] {
      var n := |s| - 1;
      var p, y := s[..n], s[n];
      assert s == p + [y];
      SortedInit(s);
      if y.start <= x.start {
        assert StartsBy(s, x.start) by {
          assert forall i :: 0 <= i < n ==> s[i] == p[i];
        }
        SortedSnoc(s, x);
      } else {
        InsertByStartSorted(p, x);
        InsertBeforeLast(p, y, x);
        var q := InsertByStart(p, x);
        StartsByPermutation(q, p, x, y.start);
        SortedSnoc(q, y);
      }
    }
  }

  /** Inserting `x` puts it after every row that starts when it does. */
  lemma {:induction false} InsertByStartStable<K, D>(s: seq<Record<K, D>>, x: Record<K, D>, t: int)
    ensures WithStart(InsertByStart(s, x), t) == WithStart(s, t) + WithStart([x], t)
  {
    if s != [] {
      var n := |s| - 1;
      var p, y := s[..n], s[n];
      assert s == p + [y];
      if y.start <= x.start {
        WithStartAppend(s, [x], t);
      } else {
        InsertByStartStable(p, x, t);
        WithStartAppend(InsertByStart(p, x), [y], t);
        WithStartAppend(p, [y], t);
        assert WithStart([x], t) == [] || WithStart([y], t) == [];
      }
    }
  }

  predicate StartsBy<K, D>(rows: seq<Record<K, D>>, bound: int)
  {
    forall i :: 0 <= i < |rows| ==> rows[i].start <= bound
  }

  lemma InsertAtEnd<K, D>(u: seq<Record<K, D>>, x: Record<K, D>)
    requires StartsBy(u, x.start)
    ensures InsertByStart(u, x) == u + [x]
  {
    if u != [] {
      assert u[|u| - 1].start <= x.start;
    }
  }

  lemma InMonthStartsBy<K, D>(s: seq<Record<K, D>>, m: YearMonth, bound: int)
    requires StartsBy(s, bound)
    ensures StartsBy(InMonth(s, m), bound)
  {
    InMonthFacts(s, m);
    var u := InMonth(s, m);
    forall i | 0 <= i < |u| ensures u[i].start <= bound {
      assert u[i] in u;
      var k :| 0 <= k < |s| && s[k] == u[i];
    }
  }

  /** The case of `InMonthInsert` where `x` goes last. */
  lemma InMonthInsertLast<K, D>(s: seq<Record<K, D>>, x: Record<K, D>, m: YearMonth)
    requires StartsBy(s, x.start)
    ensures InMonth(InsertByStart(s, x), m)
      == if MonthOf(x) == m then InsertByStart(InMonth(s, m), x) else InMonth(s, m)
  {
    InsertAtEnd(s, x);
    InMonthAppend(s, [x], m);
    InMonthStartsBy(s, m, x.start);
    InsertAtEnd(InMonth(s, m), x);
  }

  /** Inserting before a last row that starts later leaves that row last. */
  lemma InsertBeforeLast<K, D>(u: seq<Record<K, D>>, y: Record<K, D>, x: Record<K, D>)
    requires y.start > x.start
    ensures InsertByStart(u + [y], x) == InsertByStart(u, x) + [y]
  {
    var v := u + [y];
    assert v[..|v| - 1] == u && v[|v| - 1] == y;
  }

  lemma InMonthSingle<K, D>(y: Record<K, D>, m: YearMonth)
    ensures InMonth([y], m) == if MonthOf(y) == m then [y] else []
  {
    assert [y][1..] == [];
  }

  /** The case of `InMonthInsert` where `x` goes before the last row `y`. */
  lemma InMonthInsertBefore<K, D>(p: seq<Record<K, D>>, y: Record<K, D>, x: Record<K, D>, m: YearMonth)
    requires y.start > x.start
    requires InMonth(InsertByStart(p, x), m)
      == if MonthOf(x) == m then InsertByStart(InMonth(p, m), x) else InMonth(p, m)
    ensures InMonth(InsertByStart(p + [y], x), m)
      == if MonthOf(x) == m then InsertByStart(InMonth(p + [y], m), x) else InMonth(p + [y], m)
  {
    var q, u, ys := InsertByStart(p, x), InMonth(p, m), InMonth([y], m);
    InsertBeforeLast(p, y, x);
    InMonthAppend(q, [y], m);
    InMonthAppend(p, [y], m);
    InMonthSingle(y, m);
    assert InMonth(InsertByStart(p + [y], x), m) == InMonth(q, m) + ys;
    assert InMonth(p + [y], m) == u + ys;
    if MonthOf(x) == m {
      if MonthOf(y) == m {
        InsertBeforeLast(u, y, x);
      } else {
        assert u + ys == u;
      }
    }
  }

  /** Keeping one month's rows commutes with inserting into a sorted sequence. */
  lemma {:induction false} InMonthInsert<K, D>(s: seq<Record<K, D>>, x: Record<K, D>, m: YearMonth)
    requires SortedByStart(s)
    ensures InMonth(InsertByStart(s, x), m)
      == if MonthOf(x) == m then InsertByStart(InMonth(s, m), x) else InMonth(s, m)
  {
    if s == [] {
      InMonthInsertLast(s, x, m);
    } else {
      var n := |s| - 1;
      var p, y := s[..n], s[n];
      assert s == p + [y];
      if y.start <= x.start {
        assert StartsBy(s, x.start) by {
          forall i | 0 <= i < |s| ensures s[i].start <= x.start {
            if i < n {
              assert s[i].start <= s[n].start;
            }
          }
        }
        InMonthInsertLast(s, x, m);
      } else {
        SortedInit(s);
        InMonthInsert(p, x, m);
        InMonthInsertBefore(p, y, x, m);
      }
    }
  }

  lemma GroupFacts<K, D>(rows: seq<Record<K, D>>, i: int)
    requires 0 <= i < |Months(rows)|
    ensures SplitMonths(rows)[i] != []
    ensures MonthOf(SplitMonths(rows)[i][0]) == Months(rows)[i]
    ensures forall r :: r in SplitMonths(rows)[i] ==> MonthOf(r) == Months(rows)[i]
  {
    var sorted := SortByStart(rows);
    var m := Months(rows)[i];
    var g := SplitMonths(rows)[i];
    assert m in Months(rows);
    var k :| 0 <= k < |rows| && MonthOf(rows[k]) == m;
    SortByStartProperties(rows);
    assert rows[k] in multiset(sorted);
    var j :| 0 <= j < |sorted| && sorted[j] == rows[k];
    InMonthFacts(sorted, m);
    assert g[0] in g;
  }

  // ---------------------------------------------------------------- properties

  /**
    Sorting by start is a stable sort: the result is ordered by start time,
    holds every row exactly as often as the input, and keeps the rows that
    start at the same time in their input order.
   */
  lemma {:induction false} SortByStartProperties<K, D>(rows: seq<Record<K, D>>)
    ensures SortedByStart(SortByStart(rows))
    ensures multiset(SortByStart(rows)) == multiset(rows)
    ensures forall t :: WithStart(SortByStart(rows), t) == WithStart(rows, t)
  {
    if rows != [] {
      var n := |rows| - 1;
      var p, x := rows[..n], rows[n];
      assert rows == p + [x];
      SortByStartProperties(p);
      InsertByStartSorted(SortByStart(p), x);
      forall t ensures WithStart(SortByStart(rows), t) == WithStart(rows, t) {
        InsertByStartStable(SortByStart(p), x, t);
        WithStartAppend(p, [x], t);
      }
    }
  }

  /** Sorting the batch and then keeping one month's rows gives that month's rows sorted. */
  lemma {:induction false} SortThenBin<K, D>(rows: seq<Record<K, D>>, m: YearMonth)
    ensures InMonth(SortByStart(rows), m) == SortByStart(InMonth(rows, m))
  {
    if rows != [] {
      var n := |rows| - 1;
      var p, x := rows[..n], rows[n];
      assert rows == p + [x];
      SortByStartProperties(p);
      InMonthInsert(SortByStart(p), x, m);
      SortThenBin(p, m);
      InMonthAppend(p, [x], m);
      var u := InMonth(p, m);
      if MonthOf(x) == m {
        assert (u + [x])[..|u|] == u;
      } else {
        assert u + InMonth([x], m) == u;
      }
    }
  }

  /** Together the groups hold every row exactly as often as the batch does. */
  lemma SplitMonthsPermutes<K, D>(rows: seq<Record<K, D>>)
    ensures multiset(Flatten(SplitMonths(rows))) == multiset(rows)
  {
    var ms := Months(rows);
    var sorted := SortByStart(rows);
    SortByStartProperties(rows);
    GroupsFlatten(sorted, ms);
    forall i | 0 <= i < |sorted| ensures MonthOf(sorted[i]) in (set m | m in ms) {
      assert sorted[i] in multiset(rows);
      var k :| 0 <= k < |rows| && rows[k] == sorted[i];
    }
    InMonthsAll(sorted, set m | m in ms);
  }

  /**
    The groups partition the rows: each group is non-empty and is exactly
    its month's rows sorted by start time, the groups' months strictly
    ascend (so no two groups share a month), and together the groups hold
    every row exactly as often as the batch does.
   */
  lemma SplitMonthsPartitions<K, D>(rows: seq<Record<K, D>>)
    ensures var gs := SplitMonths(rows);
      && (forall i :: 0 <= i < |gs| ==> gs[i] != [] && gs[i] == SortByStart(InMonth(rows, MonthOf(gs[i][0]))))
      && (forall i, r :: 0 <= i < |gs| && r in gs[i] ==> MonthOf(r) == MonthOf(gs[i][0]))
      && (forall i, j :: 0 <= i < j < |gs| ==> Before(MonthOf(gs[i][0]), MonthOf(gs[j][0])))
      && multiset(Flatten(gs)) == multiset(rows)
  {
    var ms := Months(rows);
    var gs := SplitMonths(rows);
    forall i | 0 <= i < |ms|
      ensures gs[i] != [] && MonthOf(gs[i][0]) == ms[i]
      ensures gs[i] == SortByStart(InMonth(rows, ms[i]))
      ensures forall r :: r in gs[i] ==> MonthOf(r) == ms[i]
    {
      GroupFacts(rows, i);
      SortThenBin(rows, ms[i]);
    }
    SplitMonthsPermutes(rows);
  }
}
