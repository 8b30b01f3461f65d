/**
  The shared part of the vendor scrapers: a scraper holds the rows a vendor
  scrape produced and saves them, one file per calendar month, under
  `<base>\<league>\<sportsbook>`, merging each month into what the file held.
 */
module DirectScrape {
  import opened Wrappers
  import opened LastWriteWins
  import MonthPartition
  import opened PeriodStore

  class Scraper<K(==), D> {
    const sportsbook: string
    const league: string
    const dataDirPath: string
    /** The scraped rows, set by a vendor scraper; `None` until then. */
    var data: Option<seq<Record<K, D>>>
    /** The rows grouped by month, set by `SplitMonths`. */
    var oddsByMonth: Option<seq<seq<Record<K, D>>>>

    constructor (sportsbook: string, league: string, baseDir: string)
      ensures this.sportsbook == sportsbook && this.league == league
      ensures dataDirPath == baseDir + "\\" + league + "\\" + sportsbook
      ensures data == None && oddsByMonth == None
    {
      this.sportsbook := sportsbook;
      this.league := league;
      data := None;
      dataDirPath := baseDir + "\\" + league + "\\" + sportsbook;
      oddsByMonth := None;
    }

    /** Groups the scraped rows by month, then merges every month into its file. */
    method SaveData(store: CsvStore<K, D>)
      requires data.Some?
      modifies this`oddsByMonth, store
      ensures oddsByMonth == Some(MonthPartition.SplitMonths(data.value))
      ensures NonEmptyGroups(oddsByMonth.value)
      ensures store.files == SaveAll(old(store.files), dataDirPath, oddsByMonth.value)
    {
      SplitMonths();
      MergeWithExistingOdds(store);
    }

    method SplitMonths()
      requires data.Some?
      modifies this`oddsByMonth
      ensures oddsByMonth == Some(MonthPartition.SplitMonths(data.value))
      ensures NonEmptyGroups(oddsByMonth.value)
    {
      MonthPartition.SplitMonthsPartitions(data.value);
      oddsByMonth := Some(MonthPartition.SplitMonths(data.value));
    }

    method MergeWithExistingOdds(store: CsvStore<K, D>)
      requires oddsByMonth.Some? && NonEmptyGroups(oddsByMonth.value)
      modifies store
      ensures store.files == SaveAll(old(store.files), dataDirPath, oddsByMonth.value)
    {
      MergeMonths(store, dataDirPath, oddsByMonth.value);
    }
  }

  /**
    Reading a stored file without naming its index column: every row is
    labelled by its position, whatever label it was saved under.
   */
  function PositionalReload<D>(rows: seq<Record<int, D>>): (r: seq<Record<int, D>>)
    ensures |r| == |rows|
    ensures forall i :: 0 <= i < |r| ==> r[i].key == i && r[i].start == rows[i].start && r[i].cols == rows[i].cols
  {
    seq(|rows|, i requires 0 <= i < |rows| => rows[i].(key := i))
  }

  /** After a positional re-read the labels are exactly 0 .. n-1, each once, whatever the rows were saved under. */
  lemma PositionalReloadLabels<D>(rows: seq<Record<int, D>>)
    ensures UniqueKeys(PositionalReload(rows))
    ensures forall k :: k in KeysOf(PositionalReload(rows)) <==> 0 <= k < |rows|
  {
    var r := PositionalReload(rows);
    forall k | 0 <= k < |rows| ensures k in KeysOf(r) {
      assert r[k].key == k;
    }
  }

  /**
    The merge as written, with the stored file re-read positionally and a
    batch labelled by its frame position: the stored row of game "A" is
    dropped although the batch holds only game "C", and merging the same
    batch again changes the file and loses game "B" as well.
   */
  lemma PositionalReloadDropsStoredRow()
    ensures var stored := [Record(0, 0, "A"), Record(1, 0, "B")];
      var batch := [Record(0, 0, "C")];
      var once := Merge(PositionalReload(stored), batch);
      var twice := Merge(PositionalReload(once), batch);
      && once == [Record(1, 0, "B"), Record(0, 0, "C")]
      && twice == [Record(1, 0, "C"), Record(0, 0, "C")]
      && twice != once
  {
    var stored := [Record(0, 0, "A"), Record(1, 0, "B")];
    var batch := [Record(0, 0, "C")];
    assert KeepLast(batch) == batch by {
      assert batch[1..] == [];
    }
    assert PositionalReload(stored) == stored;
    var all := stored + batch;
    var tail := [Record(1, 0, "B"), Record(0, 0, "C")];
    assert all[1..] == tail && tail[1..] == batch;
    assert 0 in KeysOf(tail) by {
      assert tail[1].key == 0;
    }
    assert 1 !in KeysOf(batch);
    assert KeepLast(tail) == tail;
    assert KeepLast(all) == tail;
    var once := Merge(PositionalReload(stored), batch);
    var again := PositionalReload(once);
    assert again == [Record(0, 0, "B"), Record(1, 0, "C")];
    var all2 := again + batch;
    var tail2 := [Record(1, 0, "C"), Record(0, 0, "C")];
    assert all2[1..] == tail2 && tail2[1..] == batch;
    assert 0 in KeysOf(tail2) by {
      assert tail2[1].key == 0;
    }
    assert KeepLast(tail2) == tail2;
    assert KeepLast(all2) == tail2;
  }

  /**
    Stored rows saved under labels other than their positions tell the two
    re-reads apart on the first merge: keyed by the saved labels 5 and 7,
    games "A" and "B" both survive a batch holding game "C" under label 0;
    re-read positionally, "A" is relabelled 0 and dropped.
   */
  lemma PositionalReloadDiffersFromKeyed()
    ensures var stored := [Record(5, 0, "A"), Record(7, 0, "B")];
      var batch := [Record(0, 0, "C")];
      && Merge(stored, batch) == stored + batch
      && Merge(PositionalReload(stored), batch) == [Record(1, 0, "B"), Record(0, 0, "C")]
  {
    var stored := [Record(5, 0, "A"), Record(7, 0, "B")];
    var batch := [Record(0, 0, "C")];
    KeepLastOfUnique(stored + batch);
    var moved := PositionalReload(stored);
    assert moved == [Record(0, 0, "A"), Record(1, 0, "B")];
    var all2 := [Record(0, 0, "A"), Record(1, 0, "B"), Record(0, 0, "C")];
    assert moved + batch == all2;
    var tail := [Record(1, 0, "B"), Record(0, 0, "C")];
    assert all2[1..] == tail && tail[1..] == batch;
    assert 0 in KeysOf(tail) by {
      assert tail[1].key == 0;
    }
    assert KeepLast(tail) == tail;
  }
}
