/**
 * The odds provider's payload for one game, and the selection of the one
 * number the monitor tracks: the first "Over" point of the first "totals"
 * market of the first DraftKings bookmaker. A missing list in the JSON is an
 * empty sequence here.
 */
module OddsFeed {

  import opened Wrappers

  datatype Outcome = Outcome(name: string, point: real)
  datatype Market = Market(key: string, outcomes: seq<Outcome>)
  datatype Bookmaker = Bookmaker(key: string, markets: seq<Market>)

  /** One game of the payload; `commence` is the tip-off instant in seconds. */
  datatype Game = Game(id: string, homeTeam: string, awayTeam: string, commence: real,
                       bookmakers: seq<Bookmaker>)

  const BookmakerKey: string := "draftkings"
  const TotalsKey: string := "totals"
  const OverName: string := "Over"

  /** Index of the first element satisfying `p`, as Python's `next(...)` over a filter finds it. */
  function FirstWhere<T>(xs: seq<T>, p: T -> bool): (r: Option<nat>)
    ensures r.Some? ==> r.value < |xs| && p(xs[r.value])
    ensures r.Some? ==> forall j | 0 <= j < r.value :: !p(xs[j])
    ensures r.None? ==> forall j | 0 <= j < |xs| :: !p(xs[j])
  {
    if xs == [] then None
    else if p(xs[0]) then Some(0)
    else match FirstWhere(xs[1..], p)
      case None => None
      case Some(i) => Some(i + 1)
  }

  function IsDraftKings(b: Bookmaker): bool { b.key == BookmakerKey }
  function IsTotals(m: Market): bool { m.key == TotalsKey }
  function IsOver(o: Outcome): bool { o.name == OverName }

  /** The first DraftKings bookmaker of the game, if any. */
  function DraftKingsBook(g: Game): Option<Bookmaker>
  {
    match FirstWhere(g.bookmakers, IsDraftKings)
    case None => None
    case Some(i) => Some(g.bookmakers[i])
  }

  /** The first totals market of a bookmaker, if any. */
  function TotalsMarket(b: Bookmaker): Option<Market>
  {
    match FirstWhere(b.markets, IsTotals)
    case None => None
    case Some(i) => Some(b.markets[i])
  }

  /** The point of the first Over outcome of a market, if any. */
  function OverPoint(m: Market): Option<real>
  {
    match FirstWhere(m.outcomes, IsOver)
    case None => None
    case Some(i) => Some(m.outcomes[i].point)
  }

  /** The current total of a game, or None when the game is to be skipped. */
  function Quote(g: Game): Option<real>
  {
    match DraftKingsBook(g)
    case None => None
    case Some(b) =>
      match TotalsMarket(b)
      case None => None
      case Some(m) => OverPoint(m)
  }

  /**
   * A quoted total is the point of the first Over outcome of the first
   * totals market of the first DraftKings bookmaker of that game.
   */
  lemma QuoteIsDraftKingsOver(g: Game)
    requires Quote(g).Some?
    ensures exists i, j, k ::
      && 0 <= i < |g.bookmakers| && g.bookmakers[i].key == "draftkings"
      && (forall i' | 0 <= i' < i :: g.bookmakers[i'].key != "draftkings")
      && 0 <= j < |g.bookmakers[i].markets| && g.bookmakers[i].markets[j].key == "totals"
      && (forall j' | 0 <= j' < j :: g.bookmakers[i].markets[j'].key != "totals")
      && 0 <= k < |g.bookmakers[i].markets[j].outcomes|
      && g.bookmakers[i].markets[j].outcomes[k].name == "Over"
      && (forall k' | 0 <= k' < k :: g.bookmakers[i].markets[j].outcomes[k'].name != "Over")
      && g.bookmakers[i].markets[j].outcomes[k].point == Quote(g).value
  {
  }

  /**
   * A game has no quote exactly when it has no DraftKings bookmaker, or its
   * first one has no totals market, or the first such market has no Over outcome.
   */
  lemma QuoteMissing(g: Game)
    ensures Quote(g).None? <==>
      || (forall i | 0 <= i < |g.bookmakers| :: g.bookmakers[i].key != "draftkings")
      || (DraftKingsBook(g).Some? &&
          forall j | 0 <= j < |DraftKingsBook(g).value.markets| ::
            DraftKingsBook(g).value.markets[j].key != "totals")
      || (DraftKingsBook(g).Some? && TotalsMarket(DraftKingsBook(g).value).Some? &&
          forall k | 0 <= k < |TotalsMarket(DraftKingsBook(g).value).value.outcomes| ::
            TotalsMarket(DraftKingsBook(g).value).value.outcomes[k].name != "Over")
  {
  }

}
