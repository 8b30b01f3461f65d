/**
  The closed set of sportsbooks tracked by the odds logger (the `SportsBooks`
  enumeration). Every member has an identifier (`book.name`) and a value
  (`book.value`), the site key under which the odds feed reports that book.
 */
module SportsBooks {
  import opened Wrappers

  datatype SportsBook =
    | BetOnline | Barstool | Betfair | Betmgm | Betrivers
    | Betus | Bovada | Draftkings | Fanduel | Foxbet
    | Gtbet | Intertops | Lowwig | Mybookie | Pointsbet
    | Sugarhouse | Twinspires | Unibet | Williamhill | Wynnbet

  /** The members in declaration order, the order in which iterating the enumeration visits them. */
  const All: seq<SportsBook> :=
    [ BetOnline, Barstool, Betfair, Betmgm, Betrivers,
      Betus, Bovada, Draftkings, Fanduel, Foxbet,
      Gtbet, Intertops, Lowwig, Mybookie, Pointsbet,
      Sugarhouse, Twinspires, Unibet, Williamhill, Wynnbet ]

  /** The member's identifier, `book.name`. */
  function Name(b: SportsBook): string
  {
    match b
    case BetOnline => "bet_online"
    case Barstool => "barstool"
    case Betfair => "betfair"
    case Betmgm => "betmgm"
    case Betrivers => "betrivers"
    case Betus => "betus"
    case Bovada => "bovada"
    case Draftkings => "draftkings"
    case Fanduel => "fanduel"
    case Foxbet => "foxbet"
    case Gtbet => "gtbet"
    case Intertops => "intertops"
    case Lowwig => "lowwig"
    case Mybookie => "mybookie"
    case Pointsbet => "pointsbet"
    case Sugarhouse => "sugarhouse"
    case Twinspires => "twinspires"
    case Unibet => "unibet"
    case Williamhill => "williamhill"
    case Wynnbet => "wynnbet"
  }

  /** The member's value, `book.value`: the feed's site key for the book. */
  function Value(b: SportsBook): string
  {
    match b
    case BetOnline => "betonlineag"
    case Barstool => "barstool"
    case Betfair => "betfair"
    case Betmgm => "betmgm"
    case Betrivers => "betrivers"
    case Betus => "betus"
    case Bovada => "bovada"
    case Draftkings => "draftkings"
    case Fanduel => "fanduel"
    case Foxbet => "foxbet"
    case Gtbet => "gtbets"
    case Intertops => "intertops"
    case Lowwig => "lowvig"
    case Mybookie => "mybookieag"
    case Pointsbet => "pointsbetus"
    case Sugarhouse => "sugarhouse"
    case Twinspires => "twinspires"
    case Unibet => "unibet"
    case Williamhill => "williamhill_us"
    case Wynnbet => "wynnbet"
  }

  /** Lookup by identifier, `SportsBooks[name]`; an unknown identifier gives `None` (a KeyError). */
  function FromName(s: string): Option<SportsBook>
  {
    if s == "bet_online" then Some(BetOnline)
    else if s == "barstool" then Some(Barstool)
    else if s == "betfair" then Some(Betfair)
    else if s == "betmgm" then Some(Betmgm)
    else if s == "betrivers" then Some(Betrivers)
    else if s == "betus" then Some(Betus)
    else if s == "bovada" then Some(Bovada)
    else if s == "draftkings" then Some(Draftkings)
    else if s == "fanduel" then Some(Fanduel)
    else if s == "foxbet" then Some(Foxbet)
    else if s == "gtbet" then Some(Gtbet)
    else if s == "intertops" then Some(Intertops)
    else if s == "lowwig" then Some(Lowwig)
    else if s == "mybookie" then Some(Mybookie)
    else if s == "pointsbet" then Some(Pointsbet)
    else if s == "sugarhouse" then Some(Sugarhouse)
    else if s == "twinspires" then Some(Twinspires)
    else if s == "unibet" then Some(Unibet)
    else if s == "williamhill" then Some(Williamhill)
    else if s == "wynnbet" then Some(Wynnbet)
    else None
  }

  /** Lookup by value, `SportsBooks(value)`; an unknown value gives `None` (a ValueError). */
  function FromValue(s: string): Option<SportsBook>
  {
    if s == "betonlineag" then Some(BetOnline)
    else if s == "barstool" then Some(Barstool)
    else if s == "betfair" then Some(Betfair)
    else if s == "betmgm" then Some(Betmgm)
    else if s == "betrivers" then Some(Betrivers)
    else if s == "betus" then Some(Betus)
    else if s == "bovada" then Some(Bovada)
    else if s == "draftkings" then Some(Draftkings)
    else if s == "fanduel" then Some(Fanduel)
    else if s == "foxbet" then Some(Foxbet)
    else if s == "gtbets" then Some(Gtbet)
    else if s == "intertops" then Some(Intertops)
    else if s == "lowvig" then Some(Lowwig)
    else if s == "mybookieag" then Some(Mybookie)
    else if s == "pointsbetus" then Some(Pointsbet)
    else if s == "sugarhouse" then Some(Sugarhouse)
    else if s == "twinspires" then Some(Twinspires)
    else if s == "unibet" then Some(Unibet)
    else if s == "williamhill_us" then Some(Williamhill)
    else if s == "wynnbet" then Some(Wynnbet)
    else None
  }

  /** The enumeration has exactly twenty members, each listed once. */
  lemma AllEnumerates()
    ensures |All| == 20
    ensures forall b: SportsBook :: b in All
    ensures forall i, j :: 0 <= i < j < |All| ==> All[i] != All[j]
  {
    forall b: SportsBook ensures b in All {
      match b
      case BetOnline => assert All[0] == BetOnline;
      case Barstool => assert All[1] == Barstool;
      case Betfair => assert All[2] == Betfair;
      case Betmgm => assert All[3] == Betmgm;
      case Betrivers => assert All[4] == Betrivers;
      case Betus => assert All[5] == Betus;
      case Bovada => assert All[6] == Bovada;
      case Draftkings => assert All[7] == Draftkings;
      case Fanduel => assert All[8] == Fanduel;
      case Foxbet => assert All[9] == Foxbet;
      case Gtbet => assert All[10] == Gtbet;
      case Intertops => assert All[11] == Intertops;
      case Lowwig => assert All[12] == Lowwig;
      case Mybookie => assert All[13] == Mybookie;
      case Pointsbet => assert All[14] == Pointsbet;
      case Sugarhouse => assert All[15] == Sugarhouse;
      case Twinspires => assert All[16] == Twinspires;
      case Unibet => assert All[17] == Unibet;
      case Williamhill => assert All[18] == Williamhill;
      case Wynnbet => assert All[19] == Wynnbet;
    }
  }

  /** Every member has a position in the enumeration. */
  lemma IndexInAll(b: SportsBook) returns (i: nat)
    ensures i < |All| && All[i] == b
  {
    AllEnumerates();
    assert b in All;
    i :| 0 <= i < |All| && All[i] == b;
  }

  /** Looking a member up by its identifier finds that member. */
  lemma NameRoundTrip(b: SportsBook)
    ensures FromName(Name(b)) == Some(b)
  {
    NameRoundTripFront(b);
    NameRoundTripBack(b);
  }

  /** The identifier round trip for the first ten members. */
  lemma NameRoundTripFront(b: SportsBook)
    ensures b in {BetOnline, Barstool, Betfair, Betmgm, Betrivers, Betus, Bovada, Draftkings, Fanduel, Foxbet} ==> FromName(Name(b)) == Some(b)
  {
    match b
    case BetOnline =>
    case Barstool =>
    case Betfair =>
    case Betmgm =>
    case Betrivers =>
    case Betus =>
    case Bovada =>
    case Draftkings =>
    case Fanduel =>
    case Foxbet =>
    case _ =>
  }

  /** The identifier round trip for the last ten members. */
  lemma NameRoundTripBack(b: SportsBook)
    ensures b in {Gtbet, Intertops, Lowwig, Mybookie, Pointsbet, Sugarhouse, Twinspires, Unibet, Williamhill, Wynnbet} ==> FromName(Name(b)) == Some(b)
  {
    match b
    case Gtbet =>
    case Intertops =>
    case Lowwig =>
    case Mybookie =>
    case Pointsbet =>
    case Sugarhouse =>
    case Twinspires =>
    case Unibet =>
    case Williamhill =>
    case Wynnbet =>
    case _ =>
  }


  /** Looking a member up by its value finds that member. */
  lemma ValueRoundTrip(b: SportsBook)
    ensures FromValue(Value(b)) == Some(b)
  {
    ValueRoundTripFront(b);
    ValueRoundTripBack(b);
  }

  /** The value round trip for the first ten members. */
  lemma ValueRoundTripFront(b: SportsBook)
    ensures b in {BetOnline, Barstool, Betfair, Betmgm, Betrivers, Betus, Bovada, Draftkings, Fanduel, Foxbet} ==> FromValue(Value(b)) == Some(b)
  {
    match b
    case BetOnline =>
    case Barstool =>
    case Betfair =>
    case Betmgm =>
    case Betrivers =>
    case Betus =>
    case Bovada =>
    case Draftkings =>
    case Fanduel =>
    case Foxbet =>
    case _ =>
  }

  /** The value round trip for the last ten members. */
  lemma ValueRoundTripBack(b: SportsBook)
    ensures b in {Gtbet, Intertops, Lowwig, Mybookie, Pointsbet, Sugarhouse, Twinspires, Unibet, Williamhill, Wynnbet} ==> FromValue(Value(b)) == Some(b)
  {
    match b
    case Gtbet =>
    case Intertops =>
    case Lowwig =>
    case Mybookie =>
    case Pointsbet =>
    case Sugarhouse =>
    case Twinspires =>
    case Unibet =>
    case Williamhill =>
    case Wynnbet =>
    case _ =>
  }


  /** Only a member's identifier is found by a lookup by identifier. */
  lemma FromNameSound(s: string)
    ensures FromName(s).Some? ==> Name(FromName(s).value) == s
  {
  }

  /** Only a member's value is found by a lookup by value. */
  lemma FromValueSound(s: string)
    ensures FromValue(s).Some? ==> Value(FromValue(s).value) == s
  {
  }

  /** Distinct members have distinct identifiers. */
  lemma NameInjective(a: SportsBook, b: SportsBook)
    ensures Name(a) == Name(b) ==> a == b
  {
    NameRoundTrip(a);
    NameRoundTrip(b);
  }

  /** Distinct members have distinct values: the name-to-value mapping is one-to-one. */
  lemma ValueInjective(a: SportsBook, b: SportsBook)
    ensures Value(a) == Value(b) ==> a == b
  {
    ValueRoundTrip(a);
    ValueRoundTrip(b);
  }

  /** Exactly six members have an identifier that differs from their value. */
  lemma RenamedMembers(b: SportsBook)
    ensures Name(b) != Value(b) <==> b in {BetOnline, Gtbet, Lowwig, Mybookie, Pointsbet, Williamhill}
  {
  }
}
