/**
 * The line-movement tracker: one polling tick over the games of the feed.
 * For each quoted game it captures a pregame baseline the first time the game
 * is seen before tip-off, computes the drop from that baseline, sorts the game
 * into the upcoming or the live table, and records the game's final line each
 * time it is seen as finished. Saving the two maps to disk is not modelled:
 * the maps are the in-memory state.
 */
module Tracker {

  import opened Wrappers
  import opened Severity
  import opened GameClock
  import opened OddsFeed
  import opened DropStats
  import opened Ordering

  /** A row of the live table. */
  datatype LiveRow = LiveRow(matchup: string, pregame: Option<real>, current: real, drop: real,
                             band: Band, clock: Clock)

  /** A row of the upcoming table; `startTime` is the tip-off instant. */
  datatype UpcomingRow = UpcomingRow(matchup: string, pregameTotal: Option<real>, currentTotal: real,
                                     startTime: real)

  /** The two maps the tracker keeps: pregame baselines and final records, by game id. */
  datatype Stores = Stores(pregame: map<string, real>, finals: map<string, FinalRecord>)

  /** The state part-way through a tick: the maps and the rows built so far. */
  datatype Pass = Pass(stores: Stores, live: seq<LiveRow>, upcoming: seq<UpcomingRow>)

  /** What one tick shows: live games by drop, upcoming games, and the statistics. */
  datatype Board = Board(live: seq<LiveRow>, upcoming: seq<UpcomingRow>, stats: Stats)

  /** One poll: the fetched games (None when the fetch failed) and the instant of the tick. */
  datatype Poll = Poll(data: Option<seq<Game>>, now: real)

  function Lookup(m: map<string, real>, id: string): Option<real>
  {
    if id in m then Some(m[id]) else None
  }

  /**
   * The drop from the baseline to the current total; zero when there is no
   * baseline or the baseline is zero (Python treats both as false).
   */
  function DropFrom(pregame: Option<real>, current: real): (d: real)
    ensures d != 0.0 ==> pregame.Some? && pregame.value != 0.0
  {
    if pregame.Some? && pregame.value != 0.0 then pregame.value - current else 0.0
  }

  function Matchup(g: Game): string
  {
    g.awayTeam + " @ " + g.homeTeam
  }

  function DropOf(r: LiveRow): real { r.drop }

  /** The game finished by `now` and is quoted, so the tick records its final line. */
  predicate FinishedAt(g: Game, now: real)
  {
    Quote(g).Some? && now >= g.commence && EstimateGameTime(now, g.commence) == Final
  }

  /** The game is quoted before tip-off, so it can provide a baseline. */
  predicate QuotedBefore(g: Game, now: real)
  {
    Quote(g).Some? && now < g.commence
  }

  /** The effect of one game of the feed on the tick's state. */
  function Observe(p: Pass, g: Game, now: real): Pass
  {
    match Quote(g)
    case None => p
    case Some(current) =>
      var pregame :=
        if g.id !in p.stores.pregame && now < g.commence then p.stores.pregame[g.id := current]
        else p.stores.pregame;
      var pregameTotal := Lookup(pregame, g.id);
      var drop := DropFrom(pregameTotal, current);
      if now < g.commence then
        Pass(Stores(pregame, p.stores.finals), p.live,
             p.upcoming + [UpcomingRow(Matchup(g), pregameTotal, current, g.commence)])
      else
        var clock := EstimateGameTime(now, g.commence);
        var finals :=
          if clock == Final then p.stores.finals[g.id := FinalRecord(pregameTotal, drop, current)]
          else p.stores.finals;
        Pass(Stores(pregame, finals),
             p.live + [LiveRow(Matchup(g), pregameTotal, current, drop, GetColor(drop), clock)],
             p.upcoming)
  }

  /** The games observed in order. */
  function Scan(p: Pass, games: seq<Game>, now: real): Pass
  {
    if games == [] then p
    else Observe(Scan(p, games[..|games| - 1], now), games[|games| - 1], now)
  }

  /** The maps after one poll; a failed or empty fetch changes nothing. */
  function AfterTick(s: Stores, poll: Poll): Stores
  {
    if poll.data.None? || poll.data.value == [] then s
    else Scan(Pass(s, [], []), poll.data.value, poll.now).stores
  }

  /** The maps after a sequence of polls. */
  function AfterTicks(s: Stores, polls: seq<Poll>): Stores
    decreases |polls|
  {
    if polls == [] then s
    else AfterTicks(AfterTick(s, polls[0]), polls[1..])
  }

  /** Every final record's drop is the drop from its own baseline to its final total. */
  ghost predicate Consistent(finals: map<string, FinalRecord>)
  {
    forall id | id in finals :: finals[id].drop == DropFrom(finals[id].pregame, finals[id].finalTotal)
  }

  /** Every final record can be scored by the statistics. */
  ghost predicate AllScorable(finals: map<string, FinalRecord>)
  {
    forall id | id in finals :: Scorable(finals[id])
  }

  /** The tracker's state across ticks, with the two maps updated in place. */
  class Monitor {
    var pregame: map<string, real>
    var finals: map<string, FinalRecord>

    ghost predicate Valid()
      reads this
    {
      AllScorable(finals)
    }

    /** Starts from the maps loaded at start-up (empty when the files were missing or unreadable). */
    constructor (loadedPregame: map<string, real>, loadedFinals: map<string, FinalRecord>)
      requires AllScorable(loadedFinals)
      ensures Valid()
      ensures pregame == loadedPregame && finals == loadedFinals
    {
      pregame := loadedPregame;
      finals := loadedFinals;
    }

    /**
     * One tick: when the fetch returned games, observes each of them, sorts
     * the live rows by drop (largest first) and summarises the final records
     * with the default 7-point margin. A failed or empty fetch shows nothing
     * and changes nothing.
     */
    method Tick(poll: Poll) returns (board: Option<Board>)
      requires Valid()
      modifies this
      ensures Valid()
      ensures Stores(pregame, finals) == AfterTick(old(Stores(pregame, finals)), poll)
      ensures Consistent(old(finals)) ==> Consistent(finals)
      ensures board.None? <==> poll.data.None? || poll.data.value == []
      ensures board.Some? ==>
        var scan := Scan(Pass(old(Stores(pregame, finals)), [], []), poll.data.value, poll.now);
        && board.value.live == SortDesc(scan.live, DropOf)
        && board.value.upcoming == scan.upcoming
        && Summarises(board.value.stats, finals, DefaultMargin)
    {
      if poll.data.None? || poll.data.value == [] {
        return None;
      }
      var data, now := poll.data.value, poll.now;
      ghost var start := Pass(Stores(pregame, finals), [], []);
      var live: seq<LiveRow> := [];
      var upcoming: seq<UpcomingRow> := [];
      for i := 0 to |data|
        invariant Pass(Stores(pregame, finals), live, upcoming) == Scan(start, data[..i], now)
        invariant AllScorable(finals)
        invariant Consistent(start.stores.finals) ==> Consistent(finals)
      {
        assert data[..i + 1][..i] == data[..i];
        var game := data[i];
        var gameId := game.id;
        var quote := Quote(game);
        if quote.None? {
          continue;
        }
        var currentTotal := quote.value;
        if gameId !in pregame && now < game.commence {
          pregame := pregame[gameId := currentTotal];
        }
        var pregameTotal := Lookup(pregame, gameId);
        var drop := DropFrom(pregameTotal, currentTotal);
        var color := GetColor(drop);
        if now < game.commence {
          upcoming := upcoming + [UpcomingRow(Matchup(game), pregameTotal, currentTotal, game.commence)];
        } else {
          var timeStatus := EstimateGameTime(now, game.commence);
          live := live + [LiveRow(Matchup(game), pregameTotal, currentTotal, drop, color, timeStatus)];
          if timeStatus == Final {
            finals := finals[gameId := FinalRecord(pregameTotal, drop, currentTotal)];
          }
        }
      }
      assert data[..|data|] == data;
      live := SortDesc(live, DropOf);
      var stats := CalculateDropStats(finals, DefaultMargin);
      board := Some(Board(live, upcoming, stats));
    }
  }

  // ---------------------------------------------------------------------------
  // Properties of a single game's step

  /** A game without a DraftKings Over total adds no row and changes neither map. */
  lemma UnquotedGameIgnored(p: Pass, g: Game, now: real)
    requires Quote(g).None?
    ensures Observe(p, g, now) == p
  {
  }

  /**
   * A game first seen after tip-off gets no baseline and reports drop 0,
   * whatever its current total.
   */
  lemma LateGameReportsZero(p: Pass, g: Game, now: real)
    requires Quote(g).Some? && g.id !in p.stores.pregame && now >= g.commence
    ensures Observe(p, g, now).stores.pregame == p.stores.pregame
    ensures Observe(p, g, now).live
         == p.live + [LiveRow(Matchup(g), None, Quote(g).value, 0.0, White, EstimateGameTime(now, g.commence))]
  {
  }

  /** A live game with a non-zero baseline reports baseline minus current, banded by that drop. */
  lemma LiveDropFromBaseline(p: Pass, g: Game, now: real)
    requires Quote(g).Some? && g.id in p.stores.pregame && p.stores.pregame[g.id] != 0.0
    requires now >= g.commence
    ensures var row := Observe(p, g, now).live[|p.live|];
      && |Observe(p, g, now).live| == |p.live| + 1
      && row.drop == p.stores.pregame[g.id] - Quote(g).value
      && row.band == GetColor(p.stores.pregame[g.id] - Quote(g).value)
  {
  }

  /**
   * A live game whose stored baseline is 0 is treated as having none: its
   * row keeps the baseline 0 but reports drop 0 and the white band.
   */
  lemma ZeroBaselineReportsZero(p: Pass, g: Game, now: real)
    requires Quote(g).Some? && g.id in p.stores.pregame && p.stores.pregame[g.id] == 0.0
    requires now >= g.commence
    ensures Observe(p, g, now).live
         == p.live + [LiveRow(Matchup(g), Some(0.0), Quote(g).value, 0.0, White, EstimateGameTime(now, g.commence))]
  {
  }

  /** A game of another id leaves this id's baseline and final record as they were. */
  lemma ObserveOtherId(p: Pass, g: Game, now: real, id: string)
    requires g.id != id
    ensures Lookup(Observe(p, g, now).stores.pregame, id) == Lookup(p.stores.pregame, id)
    ensures (id in Observe(p, g, now).stores.finals) == (id in p.stores.finals)
    ensures id in p.stores.finals ==> Observe(p, g, now).stores.finals[id] == p.stores.finals[id]
  {
  }

  // ---------------------------------------------------------------------------
  // Properties of a whole tick

  /** Baseline immutability: a captured baseline is never changed by later games. */
  lemma {:induction false} BaselineKept(p: Pass, games: seq<Game>, now: real, id: string)
    requires id in p.stores.pregame
    ensures id in Scan(p, games, now).stores.pregame
    ensures Scan(p, games, now).stores.pregame[id] == p.stores.pregame[id]
  {
    if games != [] {
      BaselineKept(p, games[..|games| - 1], now, id);
    }
  }

  /** A baseline is captured exactly for the ids that had none and appear quoted before tip-off. */
  lemma {:induction false} BaselineCaptured(p: Pass, games: seq<Game>, now: real, id: string)
    requires id !in p.stores.pregame
    ensures id in Scan(p, games, now).stores.pregame <==>
      exists i | 0 <= i < |games| :: games[i].id == id && QuotedBefore(games[i], now)
  {
    if games != [] {
      var init, last := games[..|games| - 1], games[|games| - 1];
      BaselineCaptured(p, init, now, id);
      if exists i | 0 <= i < |init| :: init[i].id == id && QuotedBefore(init[i], now) {
        var i :| 0 <= i < |init| && init[i].id == id && QuotedBefore(init[i], now);
        assert games[i] == init[i];
        BaselineKept(Scan(p, init, now), [last], now, id);
        assert [last][..0] == [];
      } else if !(last.id == id && QuotedBefore(last, now)) {
        forall i | 0 <= i < |games| ensures !(games[i].id == id && QuotedBefore(games[i], now)) {
          if i < |init| { assert games[i] == init[i]; }
        }
      }
    }
  }

  /** The captured baseline is the total of the first game that provided one. */
  lemma {:induction false} BaselineIsFirstQuote(p: Pass, games: seq<Game>, now: real, id: string, i: nat)
    requires id !in p.stores.pregame
    requires i < |games| && games[i].id == id && QuotedBefore(games[i], now)
    requires forall j | 0 <= j < i :: !(games[j].id == id && QuotedBefore(games[j], now))
    ensures id in Scan(p, games, now).stores.pregame
    ensures Scan(p, games, now).stores.pregame[id] == Quote(games[i]).value
  {
    var init, last := games[..|games| - 1], games[|games| - 1];
    if i < |init| {
      assert init[i] == games[i];
      assert forall j | 0 <= j < i :: init[j] == games[j];
      BaselineIsFirstQuote(p, init, now, id, i);
      BaselineKept(Scan(p, init, now), [last], now, id);
      assert [last][..0] == [];
    } else {
      forall j | 0 <= j < |init| ensures !(init[j].id == id && QuotedBefore(init[j], now)) {
        assert init[j] == games[j];
      }
      BaselineCaptured(p, init, now, id);
    }
  }

  /** Only ids seen finished in this tick get a new or changed final record. */
  lemma {:induction false} FinalsFrame(p: Pass, games: seq<Game>, now: real, id: string)
    requires forall i | 0 <= i < |games| :: !(games[i].id == id && FinishedAt(games[i], now))
    ensures (id in Scan(p, games, now).stores.finals) == (id in p.stores.finals)
    ensures id in p.stores.finals ==> Scan(p, games, now).stores.finals[id] == p.stores.finals[id]
  {
    if games != [] {
      var init := games[..|games| - 1];
      assert forall i | 0 <= i < |init| :: init[i] == games[i];
      FinalsFrame(p, init, now, id);
    }
  }

  /**
   * The last game seen finished under an id sets that id's final record to
   * its baseline, drop and current total, overwriting whatever was there.
   */
  lemma {:induction false} FinalsLastWrite(p: Pass, games: seq<Game>, now: real, i: nat)
    requires i < |games| && FinishedAt(games[i], now)
    requires forall j | i < j < |games| :: games[j].id != games[i].id
    ensures var s := Scan(p, games, now).stores;
      var pt := Lookup(s.pregame, games[i].id);
      && games[i].id in s.finals
      && s.finals[games[i].id] == FinalRecord(pt, DropFrom(pt, Quote(games[i]).value), Quote(games[i]).value)
  {
    var init, last := games[..|games| - 1], games[|games| - 1];
    if i < |games| - 1 {
      assert init[i] == games[i];
      FinalsLastWrite(p, init, now, i);
      ObserveOtherId(Scan(p, init, now), last, now, games[i].id);
    }
  }

  /** The number of games of the poll that have a quote. */
  function QuotedCount(games: seq<Game>): nat
  {
    if games == [] then 0
    else QuotedCount(games[..|games| - 1]) + (if Quote(games[|games| - 1]).Some? then 1 else 0)
  }

  /** The number of games of the poll that have a quote and have not started by `now`. */
  function UpcomingCount(games: seq<Game>, now: real): nat
  {
    if games == [] then 0
    else UpcomingCount(games[..|games| - 1], now) + (if QuotedBefore(games[|games| - 1], now) then 1 else 0)
  }

  /**
   * A quoted game that has not started adds exactly one upcoming row, with
   * its baseline, current total and tip-off, and no live row.
   */
  lemma UpcomingGameRow(p: Pass, g: Game, now: real)
    requires QuotedBefore(g, now)
    ensures var r := Observe(p, g, now);
      var pt := Lookup(r.stores.pregame, g.id);
      && r.live == p.live
      && r.upcoming == p.upcoming + [UpcomingRow(Matchup(g), pt, Quote(g).value, g.commence)]
      && pt.Some?
      && r.stores.finals == p.stores.finals
  {
  }

  /**
   * A quoted game that has started adds exactly one live row, with its
   * baseline, current total, drop, band and clock, and no upcoming row.
   */
  lemma StartedGameRow(p: Pass, g: Game, now: real)
    requires Quote(g).Some? && now >= g.commence
    ensures var r := Observe(p, g, now);
      var pt := Lookup(p.stores.pregame, g.id);
      var drop := DropFrom(pt, Quote(g).value);
      && r.upcoming == p.upcoming
      && r.stores.pregame == p.stores.pregame
      && r.live == p.live + [LiveRow(Matchup(g), pt, Quote(g).value, drop, GetColor(drop),
                                     EstimateGameTime(now, g.commence))]
  {
  }

  /**
   * Every quoted game gives exactly one row; the upcoming rows are as many as
   * the quoted games not yet started, so the live rows are as many as the
   * quoted games that have started. Rows are only appended, and every new
   * upcoming row starts after `now`.
   */
  lemma {:induction false} RowsPartition(p: Pass, games: seq<Game>, now: real)
    ensures var r := Scan(p, games, now);
      && |r.live| + |r.upcoming| == |p.live| + |p.upcoming| + QuotedCount(games)
      && |r.upcoming| == |p.upcoming| + UpcomingCount(games, now)
      && |r.live| == |p.live| + QuotedCount(games) - UpcomingCount(games, now)
      && p.live <= r.live && p.upcoming <= r.upcoming
      && (forall k | |p.upcoming| <= k < |r.upcoming| :: r.upcoming[k].startTime > now)
  {
    if games != [] {
      RowsPartition(p, games[..|games| - 1], now);
    }
  }

  /** The records a tick writes keep every final record consistent and scorable. */
  lemma {:induction false} ScanKeepsRecordsConsistent(p: Pass, games: seq<Game>, now: real)
    requires Consistent(p.stores.finals)
    ensures Consistent(Scan(p, games, now).stores.finals)
    ensures AllScorable(Scan(p, games, now).stores.finals)
  {
    if games != [] {
      ScanKeepsRecordsConsistent(p, games[..|games| - 1], now);
    }
  }

  // ---------------------------------------------------------------------------
  // Properties across ticks

  /** A failed fetch, or one that returned no games, leaves both maps unchanged. */
  lemma FailedFetchChangesNothing(s: Stores, now: real)
    ensures AfterTick(s, Poll(None, now)) == s
    ensures AfterTick(s, Poll(Some([]), now)) == s
  {
  }

  /** Baseline immutability across any sequence of ticks. */
  lemma {:induction false} BaselineSurvivesTicks(s: Stores, polls: seq<Poll>, id: string)
    requires id in s.pregame
    ensures id in AfterTicks(s, polls).pregame
    ensures AfterTicks(s, polls).pregame[id] == s.pregame[id]
    decreases |polls|
  {
    if polls != [] {
      var poll := polls[0];
      if poll.data.Some? && poll.data.value != [] {
        BaselineKept(Pass(s, [], []), poll.data.value, poll.now, id);
      }
      BaselineSurvivesTicks(AfterTick(s, poll), polls[1..], id);
    }
  }

  /**
   * The final record is not written once only: every tick that sees the game
   * finished rewrites it from that tick's total, whatever was recorded before.
   */
  lemma FinalRewrittenEachTick(s: Stores, g: Game, now: real)
    requires FinishedAt(g, now)
    ensures var pt := Lookup(s.pregame, g.id);
      AfterTick(s, Poll(Some([g]), now)).finals[g.id]
        == FinalRecord(pt, DropFrom(pt, Quote(g).value), Quote(g).value)
  {
    assert [g][..0] == [];
    assert Scan(Pass(s, [], []), [g], now) == Observe(Pass(s, [], []), g, now);
  }

}
