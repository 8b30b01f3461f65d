# SportsBets odds bookkeeping, modelled in Dafny

This project models the odds bookkeeping layer of SportsBets. It covers three parts.

- **The sportsbook enumeration** (`SportsBooks`, module `SportsBooks`).
  - It is a closed set of twenty books.
  - Each book has an identifier (`book.name`), which names its columns.
  - Each book has a value (`book.value`): the site key under which the odds feed reports it.
- **The odds logger** (`OddsLogger`, module `OddsLogging`).
  - `get_all_odds` flattens one game's per-site head-to-head lines into a dictionary keyed by `<site>_home`, `<site>_away`, `<site>_last_update` and, when draws are possible, `<site>_draw`.
  - The loop over a feed response skips games that have already started.
  - For every other game it builds one row: ID, sport, home team, away team, start time, and three columns per tracked sportsbook. A book's columns are missing when its feed key does not quote the game. As written, the code tests the book's identifier rather than its feed key; see Findings.
  - The rows are then grouped by month and merged into the month files.
- **The monthly store shared by the logger and the vendor scrapers** (`Scraper` in module `DirectScrape`; modules `PeriodStore`, `MonthPartition` and `LastWriteWins`).
  - A batch of rows is sorted stably by start time and then cut into one group per calendar month.
  - Each group is saved to `<dir>\<Month>_<year>.csv`.
  - A new file receives the group as it is.
  - An existing file receives its stored rows, then the group, with every row whose index label occurs again later dropped (`duplicated(keep='last')`).

Modelling choices:
- The file system is a `CsvStore` object whose `files` field maps a path to the rows that file holds. The merge loops are methods that update that field.
- Timestamps and "now" are integers: seconds since the epoch.
- Prices are integers. The missing marker (NaN) is `None`.
- The calendar (month, year and month name of a timestamp) is computed in the proleptic Gregorian calendar.
- The odds dictionary and the book columns of a row are keyed by a `Column(prefix, field)` value rather than by the rendered string `prefix + "_home"` and its siblings. `OddsLogging.ColumnNameInjective` proves the rendering one-to-one, so the two dictionaries hold the same entries.

Keys of the merge:
- In `odds_logger.py` the merge is keyed by the event ID: the stored file is re-read with `index_col="ID"`.
- In `direct_scrape.py` the merge is keyed by the frame's index. Rows carry an abstract key type `K`.
- The scraper's merge in `DirectScrape.Scraper` merges the stored rows under the labels they were saved with. This is the corrected re-read of Findings row 2. As written, the code relabels the stored rows by position; `DirectScrape.PositionalReloadDropsStoredRow` models that.

## Model

| member | source | states |
|---|---|---|
| SportsBooks.Name | sportsbooks.py:5-24 | no contract beyond its definition; see `SportsBooks.NameInjective`, `SportsBooks.NameRoundTrip` and `SportsBooks.RenamedMembers` |
| SportsBooks.Value | sportsbooks.py:5-24 | no contract beyond its definition; see `SportsBooks.ValueInjective`, `SportsBooks.ValueRoundTrip` and `SportsBooks.RenamedMembers` |
| SportsBooks.All | odds_logger.py:55 | no contract beyond its definition; see `SportsBooks.AllEnumerates` and `SportsBooks.IndexInAll` |
| SportsBooks.AllEnumerates | sportsbooks.py:4-24 | the enumeration has exactly 20 members; every member occurs in the declaration-order list, and each occurs once |
| SportsBooks.IndexInAll | sportsbooks.py:4-24 | every member has a position in the declaration order that the row builder iterates |
| SportsBooks.NameRoundTrip | sportsbooks.py:4-24 | looking a member up by its identifier (`SportsBooks[name]`) finds that member |
| SportsBooks.ValueRoundTrip | sportsbooks.py:4-24 | looking a member up by its value (`SportsBooks(value)`) finds that member, so name→value is total and invertible |
| SportsBooks.FromNameSound | sportsbooks.py:4-24 | a successful lookup by identifier returns the member with that identifier; unknown identifiers give `None` (context: the lookup is the inverse used to prove injectivity; the modelled code only iterates the enumeration) |
| SportsBooks.FromValueSound | sportsbooks.py:4-24 | a successful lookup by value returns the member with that value; unknown values give `None` (context: the lookup is the inverse used to prove injectivity; the modelled code only iterates the enumeration) |
| SportsBooks.NameInjective | sportsbooks.py:5-24 | distinct members have distinct identifiers |
| SportsBooks.ValueInjective | sportsbooks.py:5-24 | distinct members have distinct values: the name→value mapping is injective |
| SportsBooks.RenamedMembers | sportsbooks.py:5-24 | a member's identifier differs from its value exactly for bet_online, gtbet, lowwig, mybookie, pointsbet and williamhill |
| Text.IntToString | direct_scrape.py:70 | no contract beyond its definition; see `Text.ParseIntToString` and `Text.IntToStringInjective` |
| Text.NatToString | direct_scrape.py:69-70 | the decimal rendering of a natural number is non-empty and all digits |
| Text.ParseIntToString | direct_scrape.py:69-70 | `str(year)` is parsed back to the year: the rendering loses nothing |
| Text.IntToStringInjective | direct_scrape.py:69-70 | different years render differently, and no rendering contains an underscore |
| Calendar.DateOf | direct_scrape.py:68-69 | the date of a timestamp has a month in 1..12 and a day within that month's length |
| Calendar.YearMonthOf | direct_scrape.py:57 | the month a row is grouped under is in 1..12 |
| Calendar.DateOfRoundTrip | direct_scrape.py:68-69 | the date of a timestamp counts back to exactly the day the timestamp falls on, so year and month are the timestamp's own |
| Calendar.MonthName | direct_scrape.py:68 | no contract beyond its definition; see `Calendar.MonthNameInjective` |
| Calendar.MonthNameInjective | direct_scrape.py:68 | `strftime("%B")` gives each month a different name, and no name contains an underscore |
| MonthPartition.InsertMonth | direct_scrape.py:57 | adding a month to an ascending month list keeps it ascending and adds exactly that month |
| MonthPartition.Months | direct_scrape.py:57 | the groups' months are ascending and are exactly the months some row starts in |
| MonthPartition.Groups | direct_scrape.py:57-58 | no contract beyond its definition; see `MonthPartition.SplitMonthsPartitions` and `MonthPartition.GroupFacts` |
| MonthPartition.SortByStart | direct_scrape.py:57 | no contract beyond its definition; see `MonthPartition.SortByStartProperties` and `MonthPartition.SortThenBin` |
| MonthPartition.SortByStartProperties | direct_scrape.py:57 | the grouper's sort by start time is stable: the result is ordered by start, is a permutation of the batch, and rows with equal start keep their batch order |
| MonthPartition.SortThenBin | direct_scrape.py:57-58 | sorting the batch and then keeping one month's rows equals keeping that month's rows and sorting them |
| MonthPartition.SplitMonthsPermutes | direct_scrape.py:57-58 | together the month groups hold every row exactly as often as the batch |
| MonthPartition.SplitMonths | direct_scrape.py:57-58 | no contract of its own; see `MonthPartition.SplitMonthsPartitions`, `MonthPartition.SplitMonthsPermutes` and `MonthPartition.GroupFacts` |
| MonthPartition.GroupFacts | direct_scrape.py:57-58 | each group is non-empty, its first row lies in its month, and so does every other row of it |
| MonthPartition.SplitMonthsPartitions | direct_scrape.py:56-58 | the groups are non-empty, each is exactly its month's rows sorted stably by start time, every row of a group lies in the group's month, their months strictly ascend, and together they hold every row exactly as often as the batch |
| LastWriteWins.KeepLast | direct_scrape.py:77 | no contract of its own; see `LastWriteWins.KeepLastProperties` and `LastWriteWins.KeepLastOfUnique` |
| LastWriteWins.KeepLastProperties | direct_scrape.py:77 | keep-last keeps every key, each exactly once, and only rows of its input |
| LastWriteWins.KeepLastOfUnique | direct_scrape.py:77 | keep-last leaves a table with unique keys unchanged |
| LastWriteWins.Merge | direct_scrape.py:76-77 | no contract of its own; see the `LastWriteWins.Merge…` lemmas below |
| LastWriteWins.MergeUniqueKeys | direct_scrape.py:76-77 | after a merge every key appears at most once |
| LastWriteWins.MergeKeys | direct_scrape.py:76-77 | the merged keys are exactly the stored keys and the batch keys; no other key appears |
| LastWriteWins.MergeIsMapOverride | direct_scrape.py:76-77 | keyed by label, the merged table is the stored table overridden by the batch |
| LastWriteWins.MergeBatchWins | direct_scrape.py:76-77 | for a key the batch holds, the merged table holds the batch's last row for it and no other row with that key |
| LastWriteWins.MergeKeepsStoredRows | direct_scrape.py:76-77 | a stored row whose key the batch lacks survives unchanged (stored keys unique) |
| LastWriteWins.MergeOrder | direct_scrape.py:76-77 | the merged table lists the surviving stored-only rows first, in order, then the surviving batch rows |
| LastWriteWins.MergeIdempotent | odds_logger.py:117-119 | merging the same batch a second time changes nothing |
| PeriodStore.MonthFile | direct_scrape.py:68-70 | no contract beyond its definition; see `PeriodStore.MonthFileInjective` |
| PeriodStore.MonthFileInjective | direct_scrape.py:68-70 | different months of one directory map to different `<dir>\<Month>_<year>.csv` paths |
| PeriodStore.SplitMonthsNonEmpty | direct_scrape.py:56-58 | the model's month groups are never empty, so every group has a first row to name its file |
| PeriodStore.SplitPathsDistinct | direct_scrape.py:67-70 | the month groups of one batch are saved to pairwise different files |
| PeriodStore.Stored | odds_logger.py:114-119 | no contract of its own; see `PeriodStore.MergeMonths` and the `LastWriteWins.Merge…` lemmas |
| PeriodStore.SaveAll | odds_logger.py:109-120 | no contract of its own; see `PeriodStore.MergeMonths`, `PeriodStore.SaveMonthsTouched`, `PeriodStore.SaveMonthsNewFile` and `PeriodStore.SaveMonthsUntouched` |
| PeriodStore.MergeMonths | odds_logger.py:109-120 | the month loop leaves the store as saving every group in turn does: its month file gets the group if new, else the stored rows merged with it |
| PeriodStore.SaveMonthsTouched | odds_logger.py:109-120 | after saving a batch, the file of every month it touches holds that month's rows, sorted stably by start time, stored over the file's earlier content |
| PeriodStore.SaveMonthsNewFile | direct_scrape.py:72-73 | a month with no file yet ends up with a file holding exactly that month's rows, sorted stably by start time |
| PeriodStore.SaveMonthsUntouched | direct_scrape.py:67-78 | a file outside the batch's months keeps its content |
| DirectScrape.Scraper.constructor | direct_scrape.py:41-46 | the data directory is `<base>\<league>\<sportsbook>`, no data and no month groups yet |
| DirectScrape.Scraper.SplitMonths | direct_scrape.py:56-58 | `odds_by_month` becomes the month groups of the data: all non-empty, each exactly its month's rows sorted stably by start time, months ascending (an empty scrape gives no groups where the source fails; see Left out) |
| DirectScrape.Scraper.MergeWithExistingOdds | direct_scrape.py:60-78 | every month group is saved to its file in the data directory, merged with what the file held, keyed by the labels the stored rows were saved with (the corrected re-read; see Left out) |
| DirectScrape.Scraper.SaveData | direct_scrape.py:48-54 | splits the data into start-sorted month groups, then saves every month; the store ends as the month-by-month save of the data (with the corrected re-read; an empty scrape leaves the store unchanged where the source fails; see Left out) |
| DirectScrape.PositionalReloadLabels | direct_scrape.py:75 | reading a stored file back without an index column gives its rows the unique labels 0 … n-1, whatever labels they were saved under |
| DirectScrape.PositionalReloadDiffersFromKeyed | direct_scrape.py:75-77 | with stored labels other than positions, the keyed merge keeps both stored games while the positional re-read drops one on the first merge |
| DirectScrape.PositionalReloadDropsStoredRow | direct_scrape.py:75-77 | with the positional reload, a stored game the batch does not hold is dropped, and re-merging the same batch changes the file again |
| OddsLogging.ColumnNameInjective | odds_logger.py:91-93 | `prefix + "_home"` and its siblings determine prefix and field, so column-keyed and name-keyed dictionaries agree |
| OddsLogging.LastIndex | odds_logger.py:81-93 | the position of the site whose entries survive for a key: it has that key and no later site does, since a later site overwrites the dictionary entries |
| OddsLogging.LastSite | odds_logger.py:81-93 | the site whose entries survive for a key is one of the sites, has that key, and no later site has it |
| OddsLogging.AllOdds | odds_logger.py:80-96 | no contract of its own; see `OddsLogging.AllOddsKeys` and `OddsLogging.AllOddsOfSite` |
| OddsLogging.AllOddsKeys | odds_logger.py:80-96 | the dictionary holds home, away and last-update entries for exactly the sites' keys, a draw entry exactly when draws are possible, and nothing else |
| OddsLogging.AllOddsOfSite | odds_logger.py:81-95 | for every site key the entries are the last such site's: home = first price and away = second when the home team is listed first, swapped otherwise; its last update; the line's last price as draw exactly when draws are possible |
| OddsLogging.OddsLogger.GetAllOdds | odds_logger.py:71-96 | the loop over sites returns the dictionary whose keys and values `AllOddsKeys` and `AllOddsOfSite` describe |
| OddsLogging.AwayTeam | odds_logger.py:49 | the away team differs from the home team and is the first listed team that does |
| OddsLogging.RowOf | odds_logger.py:45-65 | no contract of its own; see `OddsLogging.RowColumns` and `OddsLogging.RowBookColumns` |
| OddsLogging.RowColumns | odds_logger.py:55-65 | every row has a last-update, home and away column for every sportsbook, named by its identifier, and no other book column |
| OddsLogging.RowBookColumns | odds_logger.py:45-65 | a book's columns hold the last quoting site's last update and home/away prices (oriented by whether the home team is listed first) when its key quotes the game, and are all missing when it does not |
| OddsLogging.NameKeyingDropsQuotedBook | odds_logger.py:55-65 | looked up by identifier as written, a book quoted only under its site key is logged with all three columns missing |
| OddsLogging.ValueKeyingRecordsQuotedBooks | odds_logger.py:55-61 | looked up by site key, every book quoting a game has its last update and oriented prices logged |
| OddsLogging.OddsLogger.BuildRow | odds_logger.py:45-66 | the per-book loop builds exactly the row `RowBookColumns` and `RowColumns` describe |
| OddsLogging.Upcoming | odds_logger.py:42-66 | no contract of its own; see `OddsLogging.UpcomingCount`, `OddsLogging.UpcomingComplete` and `OddsLogging.UpcomingSound` |
| OddsLogging.UpcomingCount | odds_logger.py:42-66 | there is exactly one row per game that has not started |
| OddsLogging.UpcomingComplete | odds_logger.py:42-66 | every game that has not started has its row among the rows |
| OddsLogging.UpcomingSound | odds_logger.py:42-66 | every row is the row of a game that has not started |
| OddsLogging.OddsLogger.CollectGames | odds_logger.py:41-66 | the loop over games returns the rows `UpcomingCount`, `UpcomingComplete` and `UpcomingSound` describe, in feed order |
| OddsLogging.OddsLogger.SplitMonths | odds_logger.py:98-100 | no contract of its own; it is `MonthPartition.SplitMonths` of the logged rows, see `MonthPartition.SplitMonthsPartitions` |
| OddsLogging.OddsLogger.MergeWithExistingOdds | odds_logger.py:102-120 | every month group is saved to its file under the `mlb_odds` directory, merged by event ID with what the file held |
| OddsLogging.OddsLogger.constructor | odds_logger.py:41-69 | the logged rows are those of the games not yet started, each book looked up under its feed key (the corrected lookup; see Left out), grouped into start-sorted month groups and merged into the month files under `<base>\mlb_odds` |

## Left out

- Fetching: the Odds API request (odds_logger.py:27-40) and the vendor scrapers' browser automation, HTML and JSON handling (direct_scrape.py:81 onwards) are I/O. The feed response is a parameter of the logger's constructor, and a scraper's rows are its `data` field.
- CSV reading and writing, `os.makedirs` and pandas reshaping are library behaviour. A file is modelled as the rows it holds.
- Time: `datetime.now()` and `fromtimestamp` use the local time zone. The model takes "now" as a parameter and computes calendar months in UTC.
- Logged last-update times are kept as timestamps, not converted to `datetime`.
- `pd.Grouper(freq="M")` also yields empty bins for months between the first and last month of a batch. The model yields only the months that hold rows. An empty bin would make the source fail at `m[...][0]`, so this matters only as a failure the model does not reproduce.
- DirectScrape.Scraper.MergeWithExistingOdds: takes a group's month from its first row, assuming that `m['date'][0]` finds a row of the group.
  - In pandas, `m['date'][0]` on an integer-labelled group is a lookup by label. It raises KeyError when the group holds no row labelled 0.
  - On a range-indexed scrape (direct_scrape.py:192), that happens for every month group except the one holding the scrape's first row. The model does not reproduce that failure.
  - When the lookup succeeds, it finds a row of the same group, so the month, and hence the file, is the one the model uses.
- The unnamed index column a positional re-read adds to a stored file is not modelled. Only the labelling of rows by position is, under Findings.
- Column order of the written CSV is not modelled.
- Only integer moneyline prices are modelled. Spread and total lines, which the vendor scrapers parse as floats, are not.
- Draw prices: the logger always passes `draw_possible=False`. `GetAllOdds` models the draw branch, but logged rows never hold draw columns.
- DirectScrape.Scraper.MergeWithExistingOdds: models the corrected re-read of Findings row 2. Stored rows keep the labels they were saved with; the code as written relabels them by position, which `DirectScrape.PositionalReloadDropsStoredRow` models.
- DirectScrape.Scraper.SaveData: on an empty scrape (`data` holding no rows), the model splits into no groups and leaves the store unchanged. The source raises KeyError instead: `pd.DataFrame([])` has no `date` column for the grouper at direct_scrape.py:57, so nothing is saved either way, but the failure is not modelled.
- DirectScrape.Scraper.SplitMonths: on an empty scrape, the model sets `odds_by_month` to no groups, where the source raises KeyError at direct_scrape.py:57.
- DirectScrape.Scraper.SaveData: its merge step is the corrected re-read of Findings row 2, as for `DirectScrape.Scraper.MergeWithExistingOdds`.
- OddsLogging.OddsLogger.constructor: looks each book up under its feed key (`book.value`), the corrected behaviour of Findings row 1. The code as written looks it up under `book.name`, which `OddsLogging.NameKeyingDropsQuotedBook` models.
- OddsLogging.OddsLogger.constructor: requires at least one upcoming game and well-formed games (an away team and two prices per site).
  - With no upcoming game, `set_index("ID")` fails on an empty frame.
  - A malformed game makes the source fail with an index or key error.
  - The model does not reproduce these failures.
- get_game_results.py is not part of this model; it only downloads result tables.
- Arbitrage detection and stake allocation are not part of this model; their code is not among the modelled files.
- `datetime`'s year range (1..9999) is not enforced: the calendar works for every integer timestamp.

## Findings

| source | as written | input that shows it | evidently intended | confidence | as-written member | corrected member |
|---|---|---|---|---|---|---|
| odds_logger.py:55-61 | each sportsbook is looked up among the quoting site keys, and in the odds dictionary, under its identifier `book.name` | a game quoted by site `betonlineag` only: the feed reports bet_online under its value, so its three columns are logged as missing (likewise gtbet, lowwig, mybookie, pointsbet, williamhill) | look the book up under `book.value`, the feed's site key, and name the columns by `book.name` | high, not executed | OddsLogging.NameKeyingDropsQuotedBook | OddsLogging.ValueKeyingRecordsQuotedBooks |
| direct_scrape.py:75 | the stored month file is re-read with `pd.read_csv(path)` and no index column, so its rows are labelled 0, 1, … and collide with the batch's labels | stored games A, B saved under labels 5, 7 and a batch holding game C under label 0: the re-read relabels A as 0, so the merge drops A where the keyed merge keeps A, B and C (`DirectScrape.PositionalReloadDiffersFromKeyed`). With A, B saved under 0, 1 the first merge agrees with the keyed one; only merging the same batch again, which also drops B, tells them apart | re-read with the stored index as index (`index_col=0`, as odds_logger.py:117 does with `"ID"`), so the merge is keyed by the stored rows' own labels: stored rows the batch lacks survive and re-merging is idempotent. A vendor frame whose index is itself positional (a default range index) still keys by position across scrapes; the fix covers frames indexed by a stable label | medium, not executed | DirectScrape.PositionalReloadDropsStoredRow | LastWriteWins.MergeKeepsStoredRows |
