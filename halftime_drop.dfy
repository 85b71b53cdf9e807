/**
 * The drop kept in a final record. The record's key is
 * `drop_before_halftime` and the statistics ask how often a game whose total
 * dropped 10+ points ends within 7 points of its pregame total. As written,
 * the tick stores the drop at the FINAL sighting, which is exactly the
 * distance between the final and the pregame totals, so no such game can ever
 * end within 7 points. This module proves that, and defines the evidently
 * intended step: remember the drop of the last first-half sighting and store
 * that one.
 */
module HalftimeDrop {

  import opened Wrappers
  import opened GameClock
  import opened OddsFeed
  import opened DropStats
  import opened Tracker

  // ---------------------------------------------------------------------------
  // As written

  /**
   * Every record the tick writes lies outside any margin below its bucket's
   * threshold: its drop is the distance from its baseline to its final total.
   */
  lemma ConsistentRecordsNeverWithin(finals: map<string, FinalRecord>, threshold: real, margin: real)
    requires Consistent(finals) && margin < threshold && 0.0 < threshold
    ensures WithinIds(finals, finals.Keys, threshold, margin) == {}
  {
  }

  /** Hence, with the 7-point margin, every bucket shows 0% or nothing at all. */
  lemma AsWrittenStatsShowZero(stats: Stats, finals: map<string, FinalRecord>)
    requires Consistent(finals) && Summarises(stats, finals, DefaultMargin)
    ensures stats.plus10.within == 0 && stats.plus15.within == 0 && stats.plus20.within == 0
    ensures stats.plus10.percent.None? || stats.plus10.percent == Some(0.0)
    ensures stats.plus15.percent.None? || stats.plus15.percent == Some(0.0)
    ensures stats.plus20.percent.None? || stats.plus20.percent == Some(0.0)
  {
    ConsistentRecordsNeverWithin(finals, 10.0, DefaultMargin);
    ConsistentRecordsNeverWithin(finals, 15.0, DefaultMargin);
    ConsistentRecordsNeverWithin(finals, 20.0, DefaultMargin);
  }

  // ---------------------------------------------------------------------------
  // Evidently intended

  /** The maps of the corrected tracker: the code's two maps and the last first-half drop by id. */
  datatype Tracked = Tracked(stores: Stores, halfDrops: map<string, real>)

  /** The drop of the last first-half sighting, or 0 when the game was never seen in the first half. */
  function DropBeforeHalftime(halfDrops: map<string, real>, id: string): real
  {
    if id in halfDrops then halfDrops[id] else 0.0
  }

  /**
   * The corrected step for one game: baselines and rows as in `Observe`, a
   * first-half sighting remembers its drop, and a FINAL sighting stores the
   * remembered drop with the final total.
   */
  function ObserveIntended(t: Tracked, g: Game, now: real): Tracked
  {
    match Quote(g)
    case None => t
    case Some(current) =>
      var pregame :=
        if g.id !in t.stores.pregame && now < g.commence then t.stores.pregame[g.id := current]
        else t.stores.pregame;
      if now < g.commence then Tracked(Stores(pregame, t.stores.finals), t.halfDrops)
      else
        var pregameTotal := Lookup(pregame, g.id);
        var drop := DropFrom(pregameTotal, current);
        var clock := EstimateGameTime(now, g.commence);
        var halfDrops := if clock.FirstHalf? then t.halfDrops[g.id := drop] else t.halfDrops;
        var finals :=
          if clock == Final
          then t.stores.finals[g.id := FinalRecord(pregameTotal, DropBeforeHalftime(halfDrops, g.id), current)]
          else t.stores.finals;
        Tracked(Stores(pregame, finals), halfDrops)
  }

  /** The corrected step changes the baselines exactly as the code does. */
  lemma IntendedKeepsBaselines(t: Tracked, g: Game, now: real)
    ensures ObserveIntended(t, g, now).stores.pregame == Observe(Pass(t.stores, [], []), g, now).stores.pregame
  {
  }

  /**
   * A FINAL sighting stores the drop of the last first-half sighting, not the
   * distance to the final total.
   */
  lemma IntendedStoresHalftimeDrop(t: Tracked, g: Game, now: real)
    requires FinishedAt(g, now)
    ensures var r := ObserveIntended(t, g, now);
      && g.id in r.stores.finals
      && r.stores.finals[g.id]
         == FinalRecord(Lookup(t.stores.pregame, g.id), DropBeforeHalftime(t.halfDrops, g.id), Quote(g).value)
  {
  }

  /** A remembered non-zero drop always has a baseline behind it. */
  ghost predicate HalfDropsBacked(t: Tracked)
  {
    forall id | id in t.halfDrops :: t.halfDrops[id] != 0.0 ==> id in t.stores.pregame
  }

  /** The corrected step keeps drops backed by baselines, so the statistics can score every record. */
  lemma IntendedKeepsScorable(t: Tracked, g: Game, now: real)
    requires HalfDropsBacked(t) && AllScorable(t.stores.finals)
    ensures HalfDropsBacked(ObserveIntended(t, g, now))
    ensures AllScorable(ObserveIntended(t, g, now).stores.finals)
  {
  }

  // ---------------------------------------------------------------------------
  // The input that shows the difference

  const ExampleGame1: Game :=
    Game("g", "Home", "Away", 0.0, [Bookmaker("draftkings", [Market("totals", [Outcome("Over", 138.0)])])])
  const ExampleGame2: Game :=
    Game("g", "Home", "Away", 0.0, [Bookmaker("draftkings", [Market("totals", [Outcome("Over", 145.0)])])])

  /**
   * Baseline 150; thirty minutes in (first half) the total is 138, a drop of
   * 12; at 130 minutes (FINAL) it is 145. As written, the record's drop is 5,
   * so the game is in no bucket; intended, its drop is 12 and it counts in
   * the 10+ bucket as a game that ended within 7 points.
   */
  lemma HalftimeDropExample()
    ensures var s := Stores(map["g" := 150.0], map[]);
      var written := AfterTicks(s, [Poll(Some([ExampleGame1]), 1800.0), Poll(Some([ExampleGame2]), 7800.0)]);
      && "g" in written.finals && written.finals["g"] == FinalRecord(Some(150.0), 5.0, 145.0)
      && BucketIds(written.finals, written.finals.Keys, 10.0) == {}
    ensures var t := Tracked(Stores(map["g" := 150.0], map[]), map[]);
      var intended := ObserveIntended(ObserveIntended(t, ExampleGame1, 1800.0), ExampleGame2, 7800.0);
      && "g" in intended.stores.finals && intended.stores.finals["g"] == FinalRecord(Some(150.0), 12.0, 145.0)
      && WithinIds(intended.stores.finals, intended.stores.finals.Keys, 10.0, DefaultMargin) == {"g"}
  {
    assert Quote(ExampleGame1) == Some(138.0);
    assert Quote(ExampleGame2) == Some(145.0);
    assert EstimateGameTime(1800.0, 0.0) == ClockAt(30.0) && ClockAt(30.0).FirstHalf?;
    assert EstimateGameTime(7800.0, 0.0) == ClockAt(130.0) == Final;
    var s := Stores(map["g" := 150.0], map[]);
    var polls := [Poll(Some([ExampleGame1]), 1800.0), Poll(Some([ExampleGame2]), 7800.0)];
    assert [ExampleGame1][..0] == [] && [ExampleGame2][..0] == [];
    var o1 := Observe(Pass(s, [], []), ExampleGame1, 1800.0);
    assert Scan(Pass(s, [], []), [ExampleGame1], 1800.0) == o1;
    assert o1.stores == s;
    var s1 := AfterTick(s, polls[0]);
    assert s1 == s;
    var o2 := Observe(Pass(s1, [], []), ExampleGame2, 7800.0);
    assert Scan(Pass(s1, [], []), [ExampleGame2], 7800.0) == o2;
    assert o2.stores.finals == map["g" := FinalRecord(Some(150.0), 5.0, 145.0)];
    var s2 := AfterTick(s1, polls[1]);
    assert s2 == o2.stores;
    assert polls[1..][1..] == [];
    assert AfterTicks(s, polls) == AfterTicks(s1, polls[1..]) == AfterTicks(s2, []) == s2;
    var written := s2.finals;
    assert BucketIds(written, written.Keys, 10.0) == {} by {
      assert written.Keys == {"g"};
    }
    var t := Tracked(Stores(map["g" := 150.0], map[]), map[]);
    var t1 := ObserveIntended(t, ExampleGame1, 1800.0);
    assert t1.halfDrops == map["g" := 12.0];
    var t2 := ObserveIntended(t1, ExampleGame2, 7800.0);
    var intended := t2.stores.finals;
    assert intended == map["g" := FinalRecord(Some(150.0), 12.0, 145.0)];
    assert intended.Keys == {"g"};
    assert Within(intended["g"], DefaultMargin);
  }

}
