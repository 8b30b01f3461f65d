/**
  The odds logger: turns the games of one odds-feed response into one row per
  game that has not started, with a last-update, home and away column for
  every tracked sportsbook, and saves the rows one file per calendar month,
  merged by event ID into what each file held.
 */
module OddsLogging {
  import opened Wrappers
  import opened SportsBooks
  import opened LastWriteWins
  import MonthPartition
  import opened PeriodStore

  /** One site's head-to-head line for a game, as the feed reports it. */
  datatype Site = Site(siteKey: string, lastUpdate: int, h2h: seq<int>)

  /** One game of the feed: `teams` lists both teams, `homeTeam` names one of them. */
  datatype Game = Game(
    id: string, sportNice: string, homeTeam: string, teams: seq<string>,
    commenceTime: int, sites: seq<Site>)

  /** The columns of a logged row besides its `ID` index and its start time. */
  datatype EventCols = EventCols(sport: string, home: string, away: string, books: map<Column, Option<int>>)

  /** A logged row: indexed by the event ID, timed by the game's start. */
  type EventRow = Record<string, EventCols>

  /** The column families of the odds dictionary and of a logged row. */
  datatype Field = Home | Away | LastUpdate | Draw

  const DataDir := "mlb_odds"

  function Suffix(f: Field): string
  {
    match f
    case Home => "_home"
    case Away => "_away"
    case LastUpdate => "_last_update"
    case Draw => "_draw"
  }

  /**
    A column of the odds dictionary or of a logged row, named by a site key or
    a sportsbook identifier and a field. The dictionaries below are keyed by
    `Column`; `ColumnName` renders it, and since the rendering is injective a
    dictionary keyed by the rendered names holds the same entries.
   */
  datatype Column = Column(prefix: string, field: Field)

  /** `prefix + "_home"` and its siblings. */
  function ColumnName(c: Column): string
  {
    c.prefix + Suffix(c.field)
  }

  /** The last two characters of a field's suffix; they differ from field to field. */
  function SuffixEnd(f: Field): string
  {
    match f
    case Home => "me"
    case Away => "ay"
    case LastUpdate => "te"
    case Draw => "aw"
  }

  lemma ColumnNameParts(c: Column)
    ensures var s, t := ColumnName(c), Suffix(c.field);
      && |s| == |c.prefix| + |t| && |t| >= 2
      && s[..|c.prefix|] == c.prefix
      && s[|s| - 2..] == SuffixEnd(c.field)
  {
    var s, t := ColumnName(c), Suffix(c.field);
    assert s[|s| - 2..] == t[|t| - 2..];
    match c.field
    case Home => assert t[|t| - 2..] == "me";
    case Away => assert t[|t| - 2..] == "ay";
    case LastUpdate => assert t[|t| - 2..] == "te";
    case Draw => assert t[|t| - 2..] == "aw";
  }

  /** A column name determines the prefix and the field it was made from. */
  lemma ColumnNameInjective(c: Column, d: Column)
    ensures ColumnName(c) == ColumnName(d) ==> c == d
  {
    if ColumnName(c) == ColumnName(d) {
      ColumnNameParts(c);
      ColumnNameParts(d);
      assert SuffixEnd(c.field) == SuffixEnd(d.field);
    }
  }

  // ---------------------------------------------------------------- the odds dictionary

  predicate HasH2h(sites: seq<Site>)
  {
    forall i :: 0 <= i < |sites| ==> |sites[i].h2h| >= 2
  }

  function SiteKeys(sites: seq<Site>): set<string>
  {
    set i | 0 <= i < |sites| :: sites[i].siteKey
  }

  /** The position of the last site in `sites` reporting under `key`. */
  function LastIndex(sites: seq<Site>, key: string): (i: nat)
    requires key in SiteKeys(sites)
    ensures i < |sites| && sites[i].siteKey == key
    ensures forall j :: i < j < |sites| ==> sites[j].siteKey != key
  {
    var n := |sites| - 1;
    if sites[n].siteKey == key then n
    else
      var prefix := sites[..n];
      assert key in SiteKeys(prefix) by {
        var i :| 0 <= i < |sites| && sites[i].siteKey == key;
        assert prefix[i] == sites[i];
      }
      var i := LastIndex(prefix, key);
      assert forall j :: i < j < n ==> sites[j] == prefix[j];
      i
  }

  /** The last site in `sites` reporting under `key`: the one whose entries no later site overwrites. */
  function LastSite(sites: seq<Site>, key: string): (s: Site)
    requires key in SiteKeys(sites)
    ensures s in sites && s.siteKey == key
    ensures exists i :: 0 <= i < |sites| && sites[i] == s && forall j :: i < j < |sites| ==> sites[j].siteKey != key
  {
    sites[LastIndex(sites, key)]
  }

  /** The dictionary after one more site's entries are written into it. */
  function SiteOdds(odds: map<Column, int>, site: Site, homeFirst: bool, drawPossible: bool): map<Column, int>
    requires |site.h2h| >= 2
  {
    var line := site.h2h;
    var m := odds[Column(site.siteKey, Home) := if homeFirst then line[0] else line[1]]
                 [Column(site.siteKey, Away) := if homeFirst then line[1] else line[0]]
                 [Column(site.siteKey, LastUpdate) := site.lastUpdate];
    if drawPossible then m[Column(site.siteKey, Draw) := line[|line| - 1]] else m
  }

  /** The dictionary `get_all_odds` returns: every site's entries, written in site order. */
  function AllOdds(sites: seq<Site>, homeFirst: bool, drawPossible: bool): map<Column, int>
    requires HasH2h(sites)
  {
    if sites == [] then map[]
    else SiteOdds(AllOdds(sites[..|sites| - 1], homeFirst, drawPossible), sites[|sites| - 1], homeFirst, drawPossible)
  }

  lemma SiteKeysSnoc(sites: seq<Site>)
    requires sites != []
    ensures SiteKeys(sites) == SiteKeys(sites[..|sites| - 1]) + {sites[|sites| - 1].siteKey}
  {
    var n := |sites| - 1;
    forall k | k in SiteKeys(sites) ensures k in SiteKeys(sites[..n]) + {sites[n].siteKey} {
      var i :| 0 <= i < |sites| && sites[i].siteKey == k;
      if i < n {
        assert sites[..n][i].siteKey == k;
      }
    }
    forall k | k in SiteKeys(sites[..n]) ensures k in SiteKeys(sites) {
      var i :| 0 <= i < n && sites[..n][i].siteKey == k;
      assert sites[i].siteKey == k;
    }
  }

  /** One site adds its home, away and last-update columns, and its draw column when draws are possible. */
  lemma SiteOddsKeys(odds: map<Column, int>, site: Site, homeFirst: bool, drawPossible: bool)
    requires |site.h2h| >= 2
    ensures forall c :: c in SiteOdds(odds, site, homeFirst, drawPossible) <==>
      c in odds || (c.prefix == site.siteKey && (c.field != Draw || drawPossible))
  {
  }

  /**
    The dictionary's keys are exactly the home, away and last-update columns
    of every site key, plus its draw column when draws are possible.
   */
  lemma {:induction false} AllOddsKeys(sites: seq<Site>, homeFirst: bool, drawPossible: bool)
    requires HasH2h(sites)
    ensures forall c :: c in AllOdds(sites, homeFirst, drawPossible) <==>
      c.prefix in SiteKeys(sites) && (c.field != Draw || drawPossible)
  {
    if sites != [] {
      var n := |sites| - 1;
      var prefix := sites[..n];
      assert forall i :: 0 <= i < n ==> prefix[i] == sites[i];
      AllOddsKeys(prefix, homeFirst, drawPossible);
      SiteOddsKeys(AllOdds(prefix, homeFirst, drawPossible), sites[n], homeFirst, drawPossible);
      SiteKeysSnoc(sites);
    }
  }

  /**
    For every site key, the dictionary holds the values of the LAST site with
    that key: its first price as home price and its second as away price when
    the home team is listed first, the two swapped otherwise, its last update,
    and, exactly when draws are possible, the last price of its line as draw
    price.
   */
  lemma {:induction false} AllOddsOfSite(sites: seq<Site>, homeFirst: bool, drawPossible: bool, key: string)
    requires HasH2h(sites) && key in SiteKeys(sites)
    ensures var s := LastSite(sites, key);
      var odds := AllOdds(sites, homeFirst, drawPossible);
      && Column(key, Home) in odds && odds[Column(key, Home)] == (if homeFirst then s.h2h[0] else s.h2h[1])
      && Column(key, Away) in odds && odds[Column(key, Away)] == (if homeFirst then s.h2h[1] else s.h2h[0])
      && Column(key, LastUpdate) in odds && odds[Column(key, LastUpdate)] == s.lastUpdate
      && (Column(key, Draw) in odds <==> drawPossible)
      && (drawPossible ==> odds[Column(key, Draw)] == s.h2h[|s.h2h| - 1])
  {
    var n := |sites| - 1;
    var last := sites[n];
    var prefix := sites[..n];
    assert HasH2h(prefix) by {
      assert forall i :: 0 <= i < n ==> prefix[i] == sites[i];
    }
    if last.siteKey != key {
      assert key in SiteKeys(prefix) by {
        var i :| 0 <= i < |sites| && sites[i].siteKey == key;
        assert prefix[i] == sites[i];
      }
      AllOddsOfSite(prefix, homeFirst, drawPossible, key);
    } else if !drawPossible {
      AllOddsKeys(sites, homeFirst, drawPossible);
    }
  }

  // ---------------------------------------------------------------- one game's row

  /** What the loop over games needs of a game it does not skip: an away team and two-price lines. */
  predicate WellFormed(g: Game)
  {
    (exists t :: t in g.teams && t != g.homeTeam) && HasH2h(g.sites)
  }

  /** The first listed team that is not the home team. */
  function AwayTeam(teams: seq<string>, home: string): (away: string)
    requires exists t :: t in teams && t != home
    ensures away != home
    ensures exists i :: 0 <= i < |teams| && teams[i] == away && forall j :: 0 <= j < i ==> teams[j] == home
  {
    if teams[0] != home then teams[0]
    else
      assert exists t :: t in teams[1..] && t != home by {
        var t :| t in teams && t != home;
        var i :| 0 <= i < |teams| && teams[i] == t;
        assert i != 0;
        assert teams[1..][i - 1] == t;
        assert t in teams[1..];
      }
      var away := AwayTeam(teams[1..], home);
      assert exists i :: 0 <= i < |teams| && teams[i] == away && forall j :: 0 <= j < i ==> teams[j] == home by {
        var i :| 0 <= i < |teams[1..]| && teams[1..][i] == away && forall j :: 0 <= j < i ==> teams[1..][j] == home;
        assert teams[i + 1] == away;
        assert forall j :: 1 <= j < i + 1 ==> teams[j] == teams[1..][j - 1];
      }
      away
  }

  /** `[s['site_key'] for s in sites]`: the site keys quoting the game, in feed order. */
  function QuotingKeys(sites: seq<Site>): (keys: seq<string>)
    ensures |keys| == |sites| && forall i :: 0 <= i < |sites| ==> keys[i] == sites[i].siteKey
  {
    seq(|sites|, i requires 0 <= i < |sites| => sites[i].siteKey)
  }

  /** Every quoting site key has its home, away and last-update entries. */
  ghost predicate QuotesPresent(odds: map<Column, int>, quoting: seq<string>)
  {
    forall c: Column :: c.prefix in quoting && c.field != Draw ==> c in odds
  }

  /**
    The three columns of book `b`, named after its identifier: the quote found
    under site key `keyOf(b)` when that key quotes the game, else missing.
   */
  function BookColumns(b: SportsBook, odds: map<Column, int>, quoting: seq<string>, keyOf: SportsBook -> string)
    : map<Column, Option<int>>
    requires QuotesPresent(odds, quoting)
  {
    var key := keyOf(b);
    if key in quoting then
      map[Column(Name(b), LastUpdate) := Some(odds[Column(key, LastUpdate)]),
          Column(Name(b), Home) := Some(odds[Column(key, Home)]),
          Column(Name(b), Away) := Some(odds[Column(key, Away)])]
    else
      map[Column(Name(b), LastUpdate) := None,
          Column(Name(b), Home) := None,
          Column(Name(b), Away) := None]
  }

  /** The book columns of a row after visiting `books` in order. */
  function BookCells(books: seq<SportsBook>, odds: map<Column, int>, quoting: seq<string>, keyOf: SportsBook -> string)
    : map<Column, Option<int>>
    requires QuotesPresent(odds, quoting)
  {
    if books == [] then map[]
    else BookCells(books[..|books| - 1], odds, quoting, keyOf) + BookColumns(books[|books| - 1], odds, quoting, keyOf)
  }

  lemma OddsOfGamePresent(g: Game)
    requires HasH2h(g.sites)
    ensures QuotesPresent(AllOdds(g.sites, g.teams != [] && g.teams[0] == g.homeTeam, false), QuotingKeys(g.sites))
  {
    var quoting := QuotingKeys(g.sites);
    AllOddsKeys(g.sites, g.teams != [] && g.teams[0] == g.homeTeam, false);
    forall c: Column | c.prefix in quoting
      ensures c.prefix in SiteKeys(g.sites)
    {
      var i :| 0 <= i < |quoting| && quoting[i] == c.prefix;
    }
  }

  /**
    The row built for a game that has not started, with each sportsbook looked
    up in the site keys under `keyOf(book)`.
   */
  function RowOf(g: Game, keyOf: SportsBook -> string): EventRow
    requires WellFormed(g)
  {
    var homeFirst := g.teams[0] == g.homeTeam;
    var odds := AllOdds(g.sites, homeFirst, false);
    OddsOfGamePresent(g);
    Record(g.id, g.commenceTime,
      EventCols(g.sportNice, g.homeTeam, AwayTeam(g.teams, g.homeTeam),
        BookCells(All, odds, QuotingKeys(g.sites), keyOf)))
  }

  function BookNames(books: seq<SportsBook>): set<string>
  {
    set i | 0 <= i < |books| :: Name(books[i])
  }

  lemma BookCellsStep(books: seq<SportsBook>, i: int, odds: map<Column, int>, quoting: seq<string>, keyOf: SportsBook -> string)
    requires QuotesPresent(odds, quoting) && 0 <= i < |books|
    ensures BookCells(books[..i + 1], odds, quoting, keyOf)
         == BookCells(books[..i], odds, quoting, keyOf) + BookColumns(books[i], odds, quoting, keyOf)
  {
    assert books[..i + 1][..i] == books[..i];
  }

  /** Writing a book's three columns one at a time gives its `BookColumns`. */
  lemma BookColumnsWritten(cells: map<Column, Option<int>>, b: SportsBook, odds: map<Column, int>, quoting: seq<string>, keyOf: SportsBook -> string)
    requires QuotesPresent(odds, quoting)
    ensures var key := keyOf(b);
      key in quoting ==>
        cells[Column(Name(b), LastUpdate) := Some(odds[Column(key, LastUpdate)])]
             [Column(Name(b), Home) := Some(odds[Column(key, Home)])]
             [Column(Name(b), Away) := Some(odds[Column(key, Away)])]
        == cells + BookColumns(b, odds, quoting, keyOf)
    ensures keyOf(b) !in quoting ==>
        cells[Column(Name(b), LastUpdate) := None][Column(Name(b), Home) := None][Column(Name(b), Away) := None]
        == cells + BookColumns(b, odds, quoting, keyOf)
  {
  }

  lemma BookNamesSnoc(books: seq<SportsBook>)
    requires books != []
    ensures BookNames(books) == BookNames(books[..|books| - 1]) + {Name(books[|books| - 1])}
  {
    var n := |books| - 1;
    forall k | k in BookNames(books) ensures k in BookNames(books[..n]) + {Name(books[n])} {
      var i :| 0 <= i < |books| && Name(books[i]) == k;
      if i < n {
        assert Name(books[..n][i]) == k;
      }
    }
    forall k | k in BookNames(books[..n]) ensures k in BookNames(books) {
      var i :| 0 <= i < n && Name(books[..n][i]) == k;
      assert Name(books[i]) == k;
    }
  }

  /** A book's columns are its last-update, home and away columns. */
  lemma BookColumnsKeys(b: SportsBook, odds: map<Column, int>, quoting: seq<string>, keyOf: SportsBook -> string)
    requires QuotesPresent(odds, quoting)
    ensures forall c :: c in BookColumns(b, odds, quoting, keyOf) <==> c.prefix == Name(b) && c.field != Draw
  {
    forall c: Column | c.prefix == Name(b) && c.field != Draw ensures c in BookColumns(b, odds, quoting, keyOf) {
      assert c == Column(Name(b), c.field);
    }
  }

  /** The visited books give their three columns each, and nothing else. */
  lemma {:induction false} BookCellsKeys(books: seq<SportsBook>, odds: map<Column, int>, quoting: seq<string>, keyOf: SportsBook -> string)
    requires QuotesPresent(odds, quoting)
    ensures forall c :: c in BookCells(books, odds, quoting, keyOf) <==> c.prefix in BookNames(books) && c.field != Draw
  {
    if books != [] {
      var n := |books| - 1;
      BookCellsKeys(books[..n], odds, quoting, keyOf);
      BookNamesSnoc(books);
      BookColumnsKeys(books[n], odds, quoting, keyOf);
    }
  }

  lemma {:induction false} BookCellsOfBook(
    books: seq<SportsBook>, odds: map<Column, int>, quoting: seq<string>, keyOf: SportsBook -> string,
    b: SportsBook, f: Field)
    requires QuotesPresent(odds, quoting) && b in books && f != Draw
    ensures Column(Name(b), f) in BookCells(books, odds, quoting, keyOf)
    ensures BookCells(books, odds, quoting, keyOf)[Column(Name(b), f)]
         == BookColumns(b, odds, quoting, keyOf)[Column(Name(b), f)]
  {
    var n := |books| - 1;
    var last := books[n];
    var c := Column(Name(b), f);
    if last == b {
      match f
      case Home =>
      case Away =>
      case LastUpdate =>
    } else {
      var prefix := books[..n];
      assert b in prefix by {
        var i :| 0 <= i < |books| && books[i] == b;
        assert prefix[i] == b;
      }
      BookCellsOfBook(prefix, odds, quoting, keyOf, b, f);
      NameInjective(last, b);
      assert c !in BookColumns(last, odds, quoting, keyOf);
    }
  }

  /** Among all sportsbooks' columns, those of `b` are its `BookColumns`. */
  lemma AllBookColumns(odds: map<Column, int>, quoting: seq<string>, keyOf: SportsBook -> string, b: SportsBook)
    requires QuotesPresent(odds, quoting)
    ensures var cells, cols := BookCells(All, odds, quoting, keyOf), BookColumns(b, odds, quoting, keyOf);
      var lu, home, away := Column(Name(b), LastUpdate), Column(Name(b), Home), Column(Name(b), Away);
      && lu in cells && home in cells && away in cells
      && cells[lu] == cols[lu] && cells[home] == cols[home] && cells[away] == cols[away]
  {
    var i := IndexInAll(b);
    assert b in All;
    BookCellsOfBook(All, odds, quoting, keyOf, b, LastUpdate);
    BookCellsOfBook(All, odds, quoting, keyOf, b, Home);
    BookCellsOfBook(All, odds, quoting, keyOf, b, Away);
  }

  lemma BookNamesAll()
    ensures forall b :: Name(b) in BookNames(All)
  {
    forall b ensures Name(b) in BookNames(All) {
      var i := IndexInAll(b);
      assert Name(All[i]) in BookNames(All);
    }
  }

  /**
    Every row has a last-update, home and away column for every sportsbook,
    named by its identifier, and no other book column.
   */
  lemma RowColumns(g: Game, keyOf: SportsBook -> string)
    requires WellFormed(g)
    ensures forall b, f :: f != Draw ==> Column(Name(b), f) in RowOf(g, keyOf).cols.books
    ensures forall c :: c in RowOf(g, keyOf).cols.books ==> c.field != Draw && exists b :: c.prefix == Name(b)
  {
    var homeFirst := g.teams[0] == g.homeTeam;
    var odds := AllOdds(g.sites, homeFirst, false);
    OddsOfGamePresent(g);
    BookCellsKeys(All, odds, QuotingKeys(g.sites), keyOf);
    BookNamesAll();
  }

  lemma RowHoldsBookColumns(g: Game, keyOf: SportsBook -> string, b: SportsBook, odds: map<Column, int>, quoting: seq<string>)
    requires WellFormed(g)
    requires odds == AllOdds(g.sites, g.teams[0] == g.homeTeam, false) && quoting == QuotingKeys(g.sites)
    requires QuotesPresent(odds, quoting)
    ensures var books, cols := RowOf(g, keyOf).cols.books, BookColumns(b, odds, quoting, keyOf);
      var lu, home, away := Column(Name(b), LastUpdate), Column(Name(b), Home), Column(Name(b), Away);
      && lu in books && home in books && away in books
      && books[lu] == cols[lu] && books[home] == cols[home] && books[away] == cols[away]
  {
    AllBookColumns(odds, quoting, keyOf, b);
  }

  /**
    The columns of sportsbook `b` in a game's row: when `keyOf(b)` is among the
    game's site keys they hold the last such site's last update and its home
    and away prices (the first and second price when the home team is listed
    first, swapped otherwise); when it is not, all three are missing.
   */
  lemma RowBookColumns(g: Game, keyOf: SportsBook -> string, b: SportsBook)
    requires WellFormed(g)
    ensures var books := RowOf(g, keyOf).cols.books;
      var homeFirst := g.teams[0] == g.homeTeam;
      var lu, home, away := Column(Name(b), LastUpdate), Column(Name(b), Home), Column(Name(b), Away);
      && lu in books && home in books && away in books
      && (keyOf(b) in SiteKeys(g.sites) ==>
            var s := LastSite(g.sites, keyOf(b));
            && books[lu] == Some(s.lastUpdate)
            && books[home] == Some(if homeFirst then s.h2h[0] else s.h2h[1])
            && books[away] == Some(if homeFirst then s.h2h[1] else s.h2h[0]))
      && (keyOf(b) !in SiteKeys(g.sites) ==> books[lu] == None && books[home] == None && books[away] == None)
  {
    var homeFirst := g.teams[0] == g.homeTeam;
    var odds := AllOdds(g.sites, homeFirst, false);
    var quoting := QuotingKeys(g.sites);
    OddsOfGamePresent(g);
    RowHoldsBookColumns(g, keyOf, b, odds, quoting);
    var key := keyOf(b);
    if key in SiteKeys(g.sites) {
      var j :| 0 <= j < |g.sites| && g.sites[j].siteKey == key;
      assert quoting[j] == key;
      AllOddsOfSite(g.sites, homeFirst, false, key);
    } else {
      assert key !in quoting;
    }
  }


  /**
    As written, sportsbooks are looked up under their identifier: a book whose
    identifier differs from its site key, quoted only under its site key, is
    logged as missing.
   */
  lemma NameKeyingDropsQuotedBook(g: Game, b: SportsBook)
    requires WellFormed(g)
    requires Value(b) in SiteKeys(g.sites) && Name(b) !in SiteKeys(g.sites)
    ensures var books := RowOf(g, Name).cols.books;
      && Column(Name(b), LastUpdate) in books && Column(Name(b), Home) in books && Column(Name(b), Away) in books
      && books[Column(Name(b), LastUpdate)] == None
      && books[Column(Name(b), Home)] == None
      && books[Column(Name(b), Away)] == None
  {
    RowBookColumns(g, Name, b);
  }

  /** Looked up under its site key, every sportsbook that quotes a game has its quote logged. */
  lemma ValueKeyingRecordsQuotedBooks(g: Game, b: SportsBook)
    requires WellFormed(g)
    requires Value(b) in SiteKeys(g.sites)
    ensures var books := RowOf(g, Value).cols.books;
      var s := LastSite(g.sites, Value(b));
      && Column(Name(b), LastUpdate) in books && Column(Name(b), Home) in books && Column(Name(b), Away) in books
      && books[Column(Name(b), LastUpdate)] == Some(s.lastUpdate)
      && books[Column(Name(b), Home)] == Some(if g.teams[0] == g.homeTeam then s.h2h[0] else s.h2h[1])
      && books[Column(Name(b), Away)] == Some(if g.teams[0] == g.homeTeam then s.h2h[1] else s.h2h[0])
  {
    RowBookColumns(g, Value, b);
  }

  // ---------------------------------------------------------------- the games of a response

  predicate UpcomingWellFormed(games: seq<Game>, now: int)
  {
    forall i :: 0 <= i < |games| && games[i].commenceTime >= now ==> WellFormed(games[i])
  }

  /** One row per game that has not started by `now`, in feed order. */
  function Upcoming(games: seq<Game>, now: int, keyOf: SportsBook -> string): seq<EventRow>
    requires UpcomingWellFormed(games, now)
  {
    if games == [] then []
    else
      var n := |games| - 1;
      assert UpcomingWellFormed(games[..n], now) by {
        assert forall i :: 0 <= i < n ==> games[..n][i] == games[i];
      }
      Upcoming(games[..n], now, keyOf) + (if games[n].commenceTime < now then [] else [RowOf(games[n], keyOf)])
  }

  /** The positions of the games that have not started by `now`. */
  function NotStarted(games: seq<Game>, now: int): set<int>
  {
    set i | 0 <= i < |games| && games[i].commenceTime >= now
  }

  lemma NotStartedSnoc(games: seq<Game>, now: int)
    requires games != []
    ensures var n := |games| - 1;
      NotStarted(games, now) == NotStarted(games[..n], now) + (if games[n].commenceTime >= now then {n} else {})
  {
    var n := |games| - 1;
    forall i | i in NotStarted(games[..n], now) ensures i in NotStarted(games, now) {
      assert games[..n][i] == games[i];
    }
    forall i | i in NotStarted(games, now) && i < n ensures i in NotStarted(games[..n], now) {
      assert games[..n][i] == games[i];
    }
  }

  /** Games that started before `now` are skipped and every other game gives exactly one row. */
  lemma {:induction false} UpcomingCount(games: seq<Game>, now: int, keyOf: SportsBook -> string)
    requires UpcomingWellFormed(games, now)
    ensures |Upcoming(games, now, keyOf)| == |NotStarted(games, now)|
  {
    if games != [] {
      var n := |games| - 1;
      assert UpcomingWellFormed(games[..n], now) by {
        assert forall i :: 0 <= i < n ==> games[..n][i] == games[i];
      }
      UpcomingCount(games[..n], now, keyOf);
      NotStartedSnoc(games, now);
      assert n !in NotStarted(games[..n], now);
    }
  }

  lemma UpcomingStep(games: seq<Game>, now: int, keyOf: SportsBook -> string)
    requires UpcomingWellFormed(games, now) && games != []
    ensures var n := |games| - 1;
      && UpcomingWellFormed(games[..n], now)
      && Upcoming(games, now, keyOf) == Upcoming(games[..n], now, keyOf)
           + (if games[n].commenceTime < now then [] else [RowOf(games[n], keyOf)])
  {
  }

  /** Every game not yet started has its row among the rows. */
  lemma {:induction false} UpcomingComplete(games: seq<Game>, now: int, keyOf: SportsBook -> string)
    requires UpcomingWellFormed(games, now)
    ensures forall i :: 0 <= i < |games| && games[i].commenceTime >= now ==> RowOf(games[i], keyOf) in Upcoming(games, now, keyOf)
  {
    if games != [] {
      var n := |games| - 1;
      UpcomingStep(games, now, keyOf);
      UpcomingComplete(games[..n], now, keyOf);
      forall i | 0 <= i < n && games[i].commenceTime >= now ensures RowOf(games[i], keyOf) in Upcoming(games, now, keyOf) {
        assert games[..n][i] == games[i];
      }
    }
  }

  /** Every row is the row of a game not yet started. */
  lemma {:induction false} UpcomingSound(games: seq<Game>, now: int, keyOf: SportsBook -> string)
    requires UpcomingWellFormed(games, now)
    ensures forall r :: r in Upcoming(games, now, keyOf) ==>
      exists i :: 0 <= i < |games| && games[i].commenceTime >= now && r == RowOf(games[i], keyOf)
  {
    if games != [] {
      var n := |games| - 1;
      var prefix := games[..n];
      UpcomingStep(games, now, keyOf);
      UpcomingSound(prefix, now, keyOf);
      forall r | r in Upcoming(games, now, keyOf)
        ensures exists i :: 0 <= i < |games| && games[i].commenceTime >= now && r == RowOf(games[i], keyOf)
      {
        if r in Upcoming(prefix, now, keyOf) {
          var i :| 0 <= i < n && prefix[i].commenceTime >= now && r == RowOf(prefix[i], keyOf);
          assert games[i] == prefix[i];
        }
      }
    }
  }


  // ---------------------------------------------------------------- the logger

  class OddsLogger {
    const dataDirPath: string
    var games: seq<EventRow>
    var oddsFrame: seq<EventRow>
    var oddsByMonth: seq<seq<EventRow>>

    /**
      Builds the rows of the games in `odds` that have not started by `now`,
      groups them by month and merges every month into its file in `store`.
     */
    constructor (odds: seq<Game>, now: int, baseDir: string, store: CsvStore<string, EventCols>)
      requires UpcomingWellFormed(odds, now)
      requires exists i :: 0 <= i < |odds| && odds[i].commenceTime >= now
      modifies store
      ensures dataDirPath == baseDir + "\\" + DataDir
      ensures games == Upcoming(odds, now, Value) && oddsFrame == games
      ensures oddsByMonth == MonthPartition.SplitMonths(oddsFrame) && NonEmptyGroups(oddsByMonth)
      ensures store.files == SaveAll(old(store.files), dataDirPath, oddsByMonth)
    {
      dataDirPath := baseDir + "\\" + DataDir;
      var rows := CollectGames(odds, now, Value);
      games := rows;
      oddsFrame := rows;
      new;
      oddsByMonth := SplitMonths();
      SplitMonthsNonEmpty(oddsFrame);
      MergeWithExistingOdds(store);
    }

    /** The loop over the feed's games: skip those already started, build a row for each other. */
    static method CollectGames(odds: seq<Game>, now: int, keyOf: SportsBook -> string) returns (rows: seq<EventRow>)
      requires UpcomingWellFormed(odds, now)
      ensures rows == Upcoming(odds, now, keyOf)
    {
      rows := [];
      for i := 0 to |odds|
        invariant UpcomingWellFormed(odds[..i], now)
        invariant rows == Upcoming(odds[..i], now, keyOf)
      {
        assert odds[..i + 1][..i] == odds[..i];
        var game := odds[i];
        if game.commenceTime < now {
          continue;
        }
        var row := BuildRow(game, keyOf);
        rows := rows + [row];
      }
      assert odds[..|odds|] == odds;
    }

    /** The body of the loop over games: one game's row, each sportsbook looked up under `keyOf(book)`. */
    static method BuildRow(game: Game, keyOf: SportsBook -> string) returns (row: EventRow)
      requires WellFormed(game)
      ensures row == RowOf(game, keyOf)
    {
      var away := AwayTeam(game.teams, game.homeTeam);
      var homeFirst := game.teams[0] == game.homeTeam;
      var oddsBySb := GetAllOdds(game.sites, homeFirst, false);
      var booksQuoting := QuotingKeys(game.sites);
      OddsOfGamePresent(game);
      var cells: map<Column, Option<int>> := map[];
      for i := 0 to |All|
        invariant cells == BookCells(All[..i], oddsBySb, booksQuoting, keyOf)
      {
        BookCellsStep(All, i, oddsBySb, booksQuoting, keyOf);
        var book := All[i];
        var key := keyOf(book);
        BookColumnsWritten(cells, book, oddsBySb, booksQuoting, keyOf);
        if key in booksQuoting {
          cells := cells[Column(Name(book), LastUpdate) := Some(oddsBySb[Column(key, LastUpdate)])];
          cells := cells[Column(Name(book), Home) := Some(oddsBySb[Column(key, Home)])];
          cells := cells[Column(Name(book), Away) := Some(oddsBySb[Column(key, Away)])];
        } else {
          cells := cells[Column(Name(book), LastUpdate) := None];
          cells := cells[Column(Name(book), Home) := None];
          cells := cells[Column(Name(book), Away) := None];
        }
      }
      assert All[..|All|] == All;
      row := Record(game.id, game.commenceTime, EventCols(game.sportNice, game.homeTeam, away, cells));
    }

    /** `get_all_odds`: writes each site's home, away, last-update (and draw) entries in site order. */
    static method GetAllOdds(sites: seq<Site>, homeFirst: bool, drawPossible: bool) returns (odds: map<Column, int>)
      requires HasH2h(sites)
      ensures odds == AllOdds(sites, homeFirst, drawPossible)
    {
      odds := map[];
      for i := 0 to |sites|
        invariant odds == AllOdds(sites[..i], homeFirst, drawPossible)
      {
        assert sites[..i + 1][..i] == sites[..i];
        var site := sites[i];
        var name := site.siteKey;
        var lastUpdate := site.lastUpdate;
        var line := site.h2h;
        var homeOdds, awayOdds;
        if homeFirst {
          homeOdds := line[0];
          awayOdds := line[1];
        } else {
          homeOdds := line[1];
          awayOdds := line[0];
        }
        odds := odds[Column(name, Home) := homeOdds];
        odds := odds[Column(name, Away) := awayOdds];
        odds := odds[Column(name, LastUpdate) := lastUpdate];
        if drawPossible {
          odds := odds[Column(name, Draw) := line[|line| - 1]];
        }
      }
      assert sites[..|sites|] == sites;
    }

    /** The logged rows grouped by the calendar month of their start time. */
    function SplitMonths(): seq<seq<EventRow>>
      reads this
    {
      MonthPartition.SplitMonths(oddsFrame)
    }

    method MergeWithExistingOdds(store: CsvStore<string, EventCols>)
      requires NonEmptyGroups(oddsByMonth)
      modifies store
      ensures store.files == SaveAll(old(store.files), dataDirPath, oddsByMonth)
    {
      MergeMonths(store, dataDirPath, oddsByMonth);
    }
  }
}
