/**
  A stored table is a sequence of rows, each under an index label (its key).
  Merging a fresh batch into a stored table concatenates the stored rows and
  the batch, then drops every row whose key occurs again later, so that the
  last occurrence of each key survives (pandas' `duplicated(keep='last')`).
 */
module LastWriteWins {

  /** One row of a table: its index label, its start time (epoch seconds) and its other columns. */
  datatype Record<K, D> = Record(key: K, start: int, cols: D)

  function KeysOf<K, D>(rows: seq<Record<K, D>>): set<K>
  {
    set i | 0 <= i < |rows| :: rows[i].key
  }

  predicate UniqueKeys<K(==), D>(rows: seq<Record<K, D>>)
  {
    forall i, j :: 0 <= i < j < |rows| ==> rows[i].key != rows[j].key
  }

  /** The rows whose key does not occur again later, in their original order. */
  function KeepLast<K(==), D>(rows: seq<Record<K, D>>): seq<Record<K, D>>
  {
    if rows == [] then []
    else if rows[0].key in KeysOf(rows[1..]) then KeepLast(rows[1..])
    else [rows[0]] + KeepLast(rows[1..])
  }

  /** The last row of `rows` with key `k`. */
  function LastWith<K(==), D>(rows: seq<Record<K, D>>, k: K): Record<K, D>
    requires k in KeysOf(rows)
  {
    KeysOfCons(rows);
    if rows[0].key == k && k !in KeysOf(rows[1..]) then rows[0] else LastWith(rows[1..], k)
  }

  /** The table as a keyed mapping: each key to its last row. */
  function AsMap<K(==), D>(rows: seq<Record<K, D>>): map<K, Record<K, D>>
  {
    map k | k in KeysOf(rows) :: LastWith(rows, k)
  }

  /** The rows whose key is not in `ks`, in their original order. */
  function Without<K(==), D>(rows: seq<Record<K, D>>, ks: set<K>): seq<Record<K, D>>
  {
    if rows == [] then []
    else if rows[0].key in ks then Without(rows[1..], ks)
    else [rows[0]] + Without(rows[1..], ks)
  }

  /** The stored rows merged with a fresh batch: concatenate, then keep the last row per key. */
  function Merge<K(==), D>(stored: seq<Record<K, D>>, batch: seq<Record<K, D>>): seq<Record<K, D>>
  {
    KeepLast(stored + batch)
  }

  // ---------------------------------------------------------------- helpers

  lemma KeysOfCons<K, D>(rows: seq<Record<K, D>>)
    requires rows != []
    ensures KeysOf(rows) == {rows[0].key} + KeysOf(rows[1..])
  {
    assert rows == [rows[0]] + rows[1..];
  }

  lemma KeysOfAppend<K, D>(a: seq<Record<K, D>>, b: seq<Record<K, D>>)
    ensures KeysOf(a + b) == KeysOf(a) + KeysOf(b)
  {
    forall k | k in KeysOf(a) + KeysOf(b) ensures k in KeysOf(a + b) {
      if k in KeysOf(a) {
        var i :| 0 <= i < |a| && a[i].key == k;
        assert (a + b)[i] == a[i];
      } else {
        var i :| 0 <= i < |b| && b[i].key == k;
        assert (a + b)[|a| + i] == b[i];
      }
    }
  }

  lemma AppendCons<K, D>(a: seq<Record<K, D>>, b: seq<Record<K, D>>)
    requires a != []
    ensures (a + b)[0] == a[0] && (a + b)[1..] == a[1..] + b
  {
  }

  lemma {:induction false} KeysOfWithout<K, D>(rows: seq<Record<K, D>>, ks: set<K>)
    ensures KeysOf(Without(rows, ks)) == KeysOf(rows) - ks
  {
    if rows != [] {
      KeysOfCons(rows);
      KeysOfWithout(rows[1..], ks);
      if rows[0].key !in ks {
        KeysOfCons(Without(rows, ks));
      }
    }
  }

  lemma {:induction false} WithoutAppend<K, D>(a: seq<Record<K, D>>, b: seq<Record<K, D>>, ks: set<K>)
    ensures Without(a + b, ks) == Without(a, ks) + Without(b, ks)
  {
    if a != [] {
      AppendCons(a, b);
      WithoutAppend(a[1..], b, ks);
    } else {
      assert a + b == b;
    }
  }

  lemma {:induction false} WithoutDisjoint<K, D>(rows: seq<Record<K, D>>, ks: set<K>)
    requires KeysOf(rows) !! ks
    ensures Without(rows, ks) == rows
  {
    if rows != [] {
      KeysOfCons(rows);
      WithoutDisjoint(rows[1..], ks);
      assert rows == [rows[0]] + rows[1..];
    }
  }

  lemma {:induction false} WithoutCovered<K, D>(rows: seq<Record<K, D>>, ks: set<K>)
    requires KeysOf(rows) <= ks
    ensures Without(rows, ks) == []
  {
    if rows != [] {
      KeysOfCons(rows);
      WithoutCovered(rows[1..], ks);
    }
  }

  lemma {:induction false} UniqueKeysTail<K, D>(rows: seq<Record<K, D>>)
    requires rows != [] && UniqueKeys(rows)
    ensures UniqueKeys(rows[1..]) && rows[0].key !in KeysOf(rows[1..])
  {
  }

  /** `KeepLast` keeps every key, each exactly once, and only rows of its input. */
  lemma {:induction false} KeepLastProperties<K, D>(rows: seq<Record<K, D>>)
    ensures KeysOf(KeepLast(rows)) == KeysOf(rows)
    ensures UniqueKeys(KeepLast(rows))
    ensures forall r :: r in KeepLast(rows) ==> r in rows
  {
    if rows != [] {
      KeysOfCons(rows);
      KeepLastProperties(rows[1..]);
      if rows[0].key !in KeysOf(rows[1..]) {
        var t := KeepLast(rows[1..]);
        var r := [rows[0]] + t;
        KeysOfCons(r);
        assert r[1..] == t;
        forall i, j | 0 <= i < j < |r| ensures r[i].key != r[j].key {
          if i == 0 {
            assert r[j] in t;
          } else {
            assert r[i] == t[i - 1] && r[j] == t[j - 1];
          }
        }
      }
    }
  }

  lemma {:induction false} KeepLastOfUnique<K, D>(rows: seq<Record<K, D>>)
    requires UniqueKeys(rows)
    ensures KeepLast(rows) == rows
  {
    if rows != [] {
      UniqueKeysTail(rows);
      KeepLastOfUnique(rows[1..]);
      assert rows == [rows[0]] + rows[1..];
    }
  }

  lemma {:induction false} LastWithAppend<K, D>(a: seq<Record<K, D>>, b: seq<Record<K, D>>, k: K)
    requires k in KeysOf(a) + KeysOf(b)
    ensures KeysOf(a + b) == KeysOf(a) + KeysOf(b)
    ensures LastWith(a + b, k) == if k in KeysOf(b) then LastWith(b, k) else LastWith(a, k)
  {
    KeysOfAppend(a, b);
    if a == [] {
      assert a + b == b;
    } else {
      AppendCons(a, b);
      KeysOfCons(a);
      KeysOfAppend(a[1..], b);
      if k in KeysOf(a[1..]) + KeysOf(b) {
        LastWithAppend(a[1..], b, k);
      }
    }
  }

  lemma {:induction false} LastWithIn<K, D>(rows: seq<Record<K, D>>, k: K)
    requires k in KeysOf(rows)
    ensures LastWith(rows, k) in rows && LastWith(rows, k).key == k
  {
    KeysOfCons(rows);
    if !(rows[0].key == k && k !in KeysOf(rows[1..])) {
      LastWithIn(rows[1..], k);
    }
  }

  lemma {:induction false} LastWithUnique<K, D>(rows: seq<Record<K, D>>, r: Record<K, D>)
    requires UniqueKeys(rows) && r in rows
    ensures r.key in KeysOf(rows) && LastWith(rows, r.key) == r
  {
    KeysOfCons(rows);
    UniqueKeysTail(rows);
    if r != rows[0] {
      assert r in rows[1..];
      LastWithUnique(rows[1..], r);
    }
  }

  lemma {:induction false} LastWithKeepLast<K, D>(rows: seq<Record<K, D>>, k: K)
    requires k in KeysOf(rows)
    ensures KeysOf(KeepLast(rows)) == KeysOf(rows)
    ensures LastWith(KeepLast(rows), k) == LastWith(rows, k)
  {
    KeepLastProperties(rows);
    KeysOfCons(rows);
    var t := rows[1..];
    KeepLastProperties(t);
    if rows[0].key in KeysOf(t) {
      LastWithKeepLast(t, k);
    } else {
      var r := [rows[0]] + KeepLast(t);
      KeysOfCons(r);
      assert r[1..] == KeepLast(t);
      if rows[0].key != k {
        LastWithKeepLast(t, k);
      }
    }
  }

  // ---------------------------------------------------------------- properties

  /** The keyed view of the merged table is the stored view overridden by the batch view. */
  lemma MergeIsMapOverride<K, D>(stored: seq<Record<K, D>>, batch: seq<Record<K, D>>)
    ensures AsMap(Merge(stored, batch)) == AsMap(stored) + AsMap(batch)
  {
    var m := Merge(stored, batch);
    KeepLastProperties(stored + batch);
    KeysOfAppend(stored, batch);
    forall k | k in KeysOf(m) ensures LastWith(m, k) == (AsMap(stored) + AsMap(batch))[k] {
      LastWithKeepLast(stored + batch, k);
      LastWithAppend(stored, batch, k);
    }
  }

  /** Every key appears at most once in the merged table. */
  lemma MergeUniqueKeys<K, D>(stored: seq<Record<K, D>>, batch: seq<Record<K, D>>)
    ensures UniqueKeys(Merge(stored, batch))
  {
    KeepLastProperties(stored + batch);
  }

  /** The merged table has exactly the keys of the stored table and of the batch. */
  lemma MergeKeys<K, D>(stored: seq<Record<K, D>>, batch: seq<Record<K, D>>)
    ensures KeysOf(Merge(stored, batch)) == KeysOf(stored) + KeysOf(batch)
  {
    KeepLastProperties(stored + batch);
    KeysOfAppend(stored, batch);
  }

  /** For a key the batch holds, the merged row is the batch's last row with that key, and it is present. */
  lemma MergeBatchWins<K, D>(stored: seq<Record<K, D>>, batch: seq<Record<K, D>>, k: K)
    requires k in KeysOf(batch)
    ensures LastWith(batch, k) in Merge(stored, batch)
    ensures forall r :: r in Merge(stored, batch) && r.key == k ==> r == LastWith(batch, k)
  {
    var m := Merge(stored, batch);
    MergeIsMapOverride(stored, batch);
    MergeUniqueKeys(stored, batch);
    MergeKeys(stored, batch);
    assert AsMap(m)[k] == LastWith(batch, k);
    LastWithIn(m, k);
    forall r | r in m && r.key == k ensures r == LastWith(batch, k) {
      LastWithUnique(m, r);
    }
  }

  /** A stored row whose key the batch does not hold is kept unchanged. */
  lemma MergeKeepsStoredRows<K, D>(stored: seq<Record<K, D>>, batch: seq<Record<K, D>>, r: Record<K, D>)
    requires UniqueKeys(stored) && r in stored && r.key !in KeysOf(batch)
    ensures r in Merge(stored, batch)
  {
    var m := Merge(stored, batch);
    MergeIsMapOverride(stored, batch);
    MergeKeys(stored, batch);
    LastWithUnique(stored, r);
    assert AsMap(m)[r.key] == r;
    LastWithIn(m, r.key);
  }

  /** The merged table lists the surviving stored rows first, then the surviving batch rows. */
  lemma {:induction false} MergeOrder<K, D>(stored: seq<Record<K, D>>, batch: seq<Record<K, D>>)
    ensures Merge(stored, batch) == KeepLast(Without(stored, KeysOf(batch))) + KeepLast(batch)
  {
    var kb := KeysOf(batch);
    if stored == [] {
      assert stored + batch == batch;
    } else {
      var x, rest := stored[0], stored[1..];
      AppendCons(stored, batch);
      KeysOfAppend(rest, batch);
      KeysOfWithout(rest, kb);
      MergeOrder(rest, batch);
      if x.key !in kb {
        var w := Without(rest, kb);
        if x.key in KeysOf(rest) {
          assert KeepLast([x] + w) == KeepLast(w) by {
            assert ([x] + w)[1..] == w;
          }
        } else {
          assert KeepLast([x] + w) == [x] + KeepLast(w) by {
            assert ([x] + w)[1..] == w;
          }
        }
      }
    }
  }

  /** Merging the same batch a second time changes nothing. */
  lemma MergeIdempotent<K, D>(stored: seq<Record<K, D>>, batch: seq<Record<K, D>>)
    ensures Merge(Merge(stored, batch), batch) == Merge(stored, batch)
  {
    var kb := KeysOf(batch);
    var w := KeepLast(Without(stored, kb));
    var once := Merge(stored, batch);
    MergeOrder(stored, batch);
    MergeOrder(once, batch);
    KeepLastProperties(Without(stored, kb));
    KeysOfWithout(stored, kb);
    KeepLastProperties(batch);
    WithoutAppend(w, KeepLast(batch), kb);
    WithoutDisjoint(w, kb);
    WithoutCovered(KeepLast(batch), kb);
    assert Without(once, kb) == w;
    KeepLastOfUnique(w);
  }
}
