/**
  The per-month CSV files odds are kept in, and the loop that merges each
  month group of a batch into its file: a new file receives the group as it
  is, an existing one receives the stored rows merged with the group.
 */
module PeriodStore {
  import opened Wrappers
  import opened LastWriteWins
  import opened Calendar
  import opened MonthPartition
  import Text

  /** The file system as seen by the merge: file path to the rows it holds. */
  class CsvStore<K, D> {
    var files: map<string, seq<Record<K, D>>>

    constructor (files: map<string, seq<Record<K, D>>>)
      ensures this.files == files
    {
      this.files := files;
    }
  }

  /** `<Month>_<year>.csv`, the name of one month's file. */
  function FileName(ym: YearMonth): string
    requires 1 <= ym.month <= 12
  {
    MonthName(ym.month) + "_" + Text.IntToString(ym.year) + ".csv"
  }

  /** `dir + "\\" + <Month> + "_" + str(year) + ".csv"`: the file one month's rows are kept in. */
  function MonthFile(dir: string, ym: YearMonth): (path: string)
    requires 1 <= ym.month <= 12
    ensures path == dir + "\\" + FileName(ym)
  {
    dir + "\\" + MonthName(ym.month) + "_" + Text.IntToString(ym.year) + ".csv"
  }

  /** Position of the first underscore in `s`, or `|s|` when there is none. */
  function FirstUnderscore(s: string): (k: nat)
    ensures k <= |s|
  {
    if s == [] then 0 else if s[0] == '_' then 0 else 1 + FirstUnderscore(s[1..])
  }

  lemma {:induction false} FirstUnderscoreAfter(name: string, rest: string)
    requires forall k :: 0 <= k < |name| ==> name[k] != '_'
    ensures FirstUnderscore(name + "_" + rest) == |name|
  {
    if name != [] {
      assert (name + "_" + rest)[1..] == name[1..] + "_" + rest;
      FirstUnderscoreAfter(name[1..], rest);
    }
  }

  lemma FileNameInjective(a: YearMonth, b: YearMonth)
    requires 1 <= a.month <= 12 && 1 <= b.month <= 12
    ensures FileName(a) == FileName(b) ==> a == b
  {
    if FileName(a) == FileName(b) {
      var s := FileName(a);
      var na, nb := MonthName(a.month), MonthName(b.month);
      var ya, yb := Text.IntToString(a.year) + ".csv", Text.IntToString(b.year) + ".csv";
      MonthNameInjective(a.month, b.month);
      MonthNameInjective(b.month, a.month);
      assert s == na + "_" + ya == nb + "_" + yb;
      FirstUnderscoreAfter(na, ya);
      FirstUnderscoreAfter(nb, yb);
      assert na == s[..|na|] == nb;
      assert ya == s[|na| + 1..] == yb;
      assert Text.IntToString(a.year) == ya[..|ya| - 4] == Text.IntToString(b.year);
      Text.IntToStringInjective(a.year, b.year);
    }
  }

  /** Different months of one directory are kept in different files. */
  lemma MonthFileInjective(dir: string, a: YearMonth, b: YearMonth)
    requires 1 <= a.month <= 12 && 1 <= b.month <= 12
    ensures MonthFile(dir, a) == MonthFile(dir, b) ==> a == b
  {
    if MonthFile(dir, a) == MonthFile(dir, b) {
      var p := dir + "\\";
      assert FileName(a) == MonthFile(dir, a)[|p|..];
      assert FileName(b) == MonthFile(dir, b)[|p|..];
      FileNameInjective(a, b);
    }
  }

  function Lookup<K, D>(files: map<string, seq<Record<K, D>>>, path: string): Option<seq<Record<K, D>>>
  {
    if path in files then Some(files[path]) else None
  }

  /** What a file holds after one group is saved to it: the group alone for a new file, else the merge. */
  function Stored<K(==), D>(existing: Option<seq<Record<K, D>>>, group: seq<Record<K, D>>): seq<Record<K, D>>
  {
    match existing
    case None => group
    case Some(rows) => Merge(rows, group)
  }

  predicate NonEmptyGroups<K, D>(groups: seq<seq<Record<K, D>>>)
  {
    forall i :: 0 <= i < |groups| ==> groups[i] != []
  }

  /** Splitting by month never yields an empty group. */
  lemma SplitMonthsNonEmpty<K, D>(rows: seq<Record<K, D>>)
    ensures NonEmptyGroups(SplitMonths(rows))
  {
    SplitMonthsPartitions(rows);
  }

  /** The file a non-empty group is saved to, named after the month of its first row. */
  function GroupFile<K, D>(dir: string, group: seq<Record<K, D>>): string
    requires group != []
  {
    MonthFile(dir, MonthOf(group[0]))
  }

  /** The file of every group, in order. */
  function GroupPaths<K, D>(dir: string, groups: seq<seq<Record<K, D>>>): (paths: seq<string>)
    requires NonEmptyGroups(groups)
    ensures |paths| == |groups| && forall i :: 0 <= i < |groups| ==> paths[i] == GroupFile(dir, groups[i])
  {
    seq(|groups|, i requires 0 <= i < |groups| => GroupFile(dir, groups[i]))
  }

  /** The files after saving each of `groups` to the path beside it, one after another. */
  function SaveAt<K(==), D>(files: map<string, seq<Record<K, D>>>, paths: seq<string>, groups: seq<seq<Record<K, D>>>)
    : map<string, seq<Record<K, D>>>
    requires |paths| == |groups|
  {
    if groups == [] then files
    else
      var n := |groups| - 1;
      var before := SaveAt(files, paths[..n], groups[..n]);
      before[paths[n] := Stored(Lookup(before, paths[n]), groups[n])]
  }

  /** The files after saving `groups` one after another, each to its month's file. */
  function SaveAll<K(==), D>(files: map<string, seq<Record<K, D>>>, dir: string, groups: seq<seq<Record<K, D>>>)
    : map<string, seq<Record<K, D>>>
    requires NonEmptyGroups(groups)
  {
    SaveAt(files, GroupPaths(dir, groups), groups)
  }

  /**
    The month loop: for each group, the path of its month's file, then either
    a first write of the group or a read, concatenation, keep-last and write.
   */
  method MergeMonths<K(==), D>(store: CsvStore<K, D>, dir: string, groups: seq<seq<Record<K, D>>>)
    requires NonEmptyGroups(groups)
    modifies store
    ensures store.files == SaveAll(old(store.files), dir, groups)
  {
    ghost var paths := GroupPaths(dir, groups);
    for i := 0 to |groups|
      invariant store.files == SaveAt(old(store.files), paths[..i], groups[..i])
    {
      SaveAtStep(old(store.files), paths, groups, i);
      var m := groups[i];
      var ym := MonthOf(m[0]);
      var path := MonthFile(dir, ym);
      assert path == paths[i];
      if path !in store.files {
        store.files := store.files[path := m];
      } else {
        var df := store.files[path];
        df := df + m;
        df := KeepLast(df);
        store.files := store.files[path := df];
      }
    }
    assert groups[..|groups|] == groups;
    assert paths[..|groups|] == paths;
  }

  lemma SaveAtStep<K, D>(files: map<string, seq<Record<K, D>>>, paths: seq<string>, groups: seq<seq<Record<K, D>>>, i: int)
    requires |paths| == |groups| && 0 <= i < |groups|
    ensures var before := SaveAt(files, paths[..i], groups[..i]);
      SaveAt(files, paths[..i + 1], groups[..i + 1]) == before[paths[i] := Stored(Lookup(before, paths[i]), groups[i])]
  {
    assert groups[..i + 1][..i] == groups[..i];
    assert paths[..i + 1][..i] == paths[..i];
  }

  /** A file that no group is saved to keeps its content. */
  lemma {:induction false} SaveAtOtherFile<K, D>(
    files: map<string, seq<Record<K, D>>>, paths: seq<string>, groups: seq<seq<Record<K, D>>>, path: string)
    requires |paths| == |groups|
    requires forall i :: 0 <= i < |paths| ==> path != paths[i]
    ensures Lookup(SaveAt(files, paths, groups), path) == Lookup(files, path)
  {
    if groups != [] {
      var n := |groups| - 1;
      assert forall i :: 0 <= i < n ==> paths[..n][i] == paths[i];
      SaveAtOtherFile(files, paths[..n], groups[..n], path);
    }
  }

  /** A group saved to a path no other group is saved to leaves that file holding the group stored over its earlier content. */
  lemma {:induction false} SaveAtGroupFile<K, D>(
    files: map<string, seq<Record<K, D>>>, paths: seq<string>, groups: seq<seq<Record<K, D>>>, i: int)
    requires |paths| == |groups| && 0 <= i < |groups|
    requires forall j :: 0 <= j < |paths| && j != i ==> paths[j] != paths[i]
    ensures Lookup(SaveAt(files, paths, groups), paths[i]) == Some(Stored(Lookup(files, paths[i]), groups[i]))
  {
    var n := |groups| - 1;
    assert forall j :: 0 <= j < n ==> paths[..n][j] == paths[j] && groups[..n][j] == groups[j];
    if i == n {
      SaveAtOtherFile(files, paths[..n], groups[..n], paths[n]);
    } else {
      SaveAtGroupFile(files, paths[..n], groups[..n], i);
    }
  }

  /** The month groups of a batch go to pairwise different files. */
  lemma SplitPathsDistinct<K, D>(dir: string, rows: seq<Record<K, D>>, j: int)
    requires 0 <= j < |Months(rows)|
    ensures NonEmptyGroups(SplitMonths(rows))
    ensures var paths := GroupPaths(dir, SplitMonths(rows));
      forall a :: 0 <= a < |paths| && a != j ==> paths[a] != paths[j]
  {
    var gs := SplitMonths(rows);
    var ms := Months(rows);
    SplitMonthsNonEmpty(rows);
    GroupFacts(rows, j);
    forall a | 0 <= a < |gs| && a != j ensures GroupFile(dir, gs[a]) != GroupFile(dir, gs[j]) {
      GroupFacts(rows, a);
      assert ms[a] != ms[j] by {
        if a < j {
          assert Before(ms[a], ms[j]);
        } else {
          assert Before(ms[j], ms[a]);
        }
      }
      MonthFileInjective(dir, ms[a], ms[j]);
    }
  }

  /**
    Saving a batch month by month: the file of every month the batch touches
    ends up holding that month's rows, sorted by start time, stored over the
    file's earlier content.
   */
  lemma SaveMonthsTouched<K, D>(files: map<string, seq<Record<K, D>>>, dir: string, rows: seq<Record<K, D>>, i: int)
    requires 0 <= i < |rows|
    ensures NonEmptyGroups(SplitMonths(rows))
    ensures var path := MonthFile(dir, MonthOf(rows[i]));
      Lookup(SaveAll(files, dir, SplitMonths(rows)), path)
        == Some(Stored(Lookup(files, path), SortByStart(InMonth(rows, MonthOf(rows[i])))))
  {
    var gs := SplitMonths(rows);
    var ms := Months(rows);
    assert MonthOf(rows[i]) in ms;
    var j :| 0 <= j < |ms| && ms[j] == MonthOf(rows[i]);
    GroupFacts(rows, j);
    SplitPathsDistinct(dir, rows, j);
    var paths := GroupPaths(dir, gs);
    SaveAtGroupFile(files, paths, gs, j);
    SortThenBin(rows, ms[j]);
    assert paths[j] == MonthFile(dir, ms[j]);
  }

  /** A month that had no file yet ends up with a file holding exactly that month's rows of the batch, sorted by start time. */
  lemma SaveMonthsNewFile<K, D>(files: map<string, seq<Record<K, D>>>, dir: string, rows: seq<Record<K, D>>, i: int)
    requires 0 <= i < |rows| && MonthFile(dir, MonthOf(rows[i])) !in files
    ensures NonEmptyGroups(SplitMonths(rows))
    ensures var path := MonthFile(dir, MonthOf(rows[i]));
      var saved := SaveAll(files, dir, SplitMonths(rows));
      path in saved && saved[path] == SortByStart(InMonth(rows, MonthOf(rows[i])))
  {
    SaveMonthsTouched(files, dir, rows, i);
  }

  /** Saving a batch month by month leaves every file outside the batch's months as it was. */
  lemma SaveMonthsUntouched<K, D>(files: map<string, seq<Record<K, D>>>, dir: string, rows: seq<Record<K, D>>, path: string)
    requires forall i :: 0 <= i < |rows| ==> path != MonthFile(dir, MonthOf(rows[i]))
    ensures NonEmptyGroups(SplitMonths(rows))
    ensures Lookup(SaveAll(files, dir, SplitMonths(rows)), path) == Lookup(files, path)
  {
    var gs := SplitMonths(rows);
    var ms := Months(rows);
    SplitMonthsPartitions(rows);
    forall j | 0 <= j < |gs| ensures path != GroupFile(dir, gs[j]) {
      GroupFacts(rows, j);
      assert ms[j] in ms;
    }
    SaveAtOtherFile(files, GroupPaths(dir, gs), gs, path);
  }
}
