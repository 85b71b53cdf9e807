# DraftKings NCAAB over/under drop monitor — verified model

This project models the core of a dashboard that polls an odds feed for NCAA
basketball games and tracks how DraftKings' over/under total moves between
the first quote seen before tip-off and the live quote. The model covers four parts of
`app.py`:

- **The per-game tick logic.** The tracker keeps two maps keyed by game id.
  `pregame` holds the baseline total captured before tip-off. `finals` holds
  the record written when the game is estimated to be over. On every poll,
  each game with a DraftKings totals "Over" point may capture a baseline. It
  then gets a drop (baseline minus current total) and goes into the upcoming
  table or the live table. A live game that is estimated finished has its
  final record written. The live table is then sorted by drop, largest first.
- **The severity rule** that bands a drop as white, yellow (10+), orange (15+)
  or red (20+).
- **The game-clock projection.** Real minutes since tip-off map onto two
  20-minute halves within 125 real minutes, 20 of which are halftime.
- **The outcome statistics.** For the 10+, 15+ and 20+ drop buckets, these
  count how many finished games ended within a margin (7 points) of their
  pregame total.

Modules, one per component:

| file | module | models |
|---|---|---|
| `wrappers.dfy` | `Wrappers` | `Option`: Python's `None` or a value |
| `severity.dfy` | `Severity` | `get_color` as a `Band` enum |
| `game_clock.dfy` | `GameClock` | `estimate_game_time` as a `Clock` datatype |
| `odds_feed.dfy` | `OddsFeed` | payload datatypes; picking the book, market and `Over` point |
| `drop_stats.dfy` | `DropStats` | `calculate_drop_stats`, an imperative loop over the final records |
| `ordering.dfy` | `Ordering` | `list.sort(key=..., reverse=True)`: a stable descending sort |
| `tracker.dfy` | `Tracker` | the loop body, as the `Monitor` class with `pregame`/`finals` map fields and a `Tick` method |
| `halftime_drop.dfy` | `HalftimeDrop` | the drop kept in a final record, as written and as evidently intended (see "## Findings") |

`Tick` is proved against the specification functions `Observe` (one game),
`Scan` (the games of one poll) and `AfterTick`/`AfterTicks` (one poll / many
polls). The lemmas about those functions state what the tick promises.

The definitions that carry the behaviour, each with the lines it models:

- `Severity.GetColor`: app.py:72-80.
- `GameClock.ClockAt` and `GameClock.EstimateGameTime`: app.py:82-104.
- `OddsFeed.Quote`, built from `DraftKingsBook`, `TotalsMarket` and `OverPoint`: app.py:169-185.
- `Tracker.DropFrom`, the drop rule: app.py:192-193.
- `Tracker.Observe` (one game) and `Tracker.Scan` (one poll's games): app.py:167-229.
- `Tracker.AfterTick` and `Tracker.AfterTicks` (one poll, many polls): app.py:159-161 and 247.
- `Ordering.SortDesc`: app.py:231.
- `DropStats.BucketIds` and `DropStats.WithinIds`, the sets the statistics count: app.py:111-126.

Some behaviours of the code are easy to misread. The model follows the code
in each case:

- **Final records are overwritten.** The comment at app.py:222 says the final
  total is stored "when game ends", as if once. The code has no presence check
  (app.py:223-229). It rewrites `final_totals[id]` from the current tick's
  numbers on every tick where the game is estimated `FINAL`.
  `FinalRewrittenEachTick` and `FinalsLastWrite` state this behaviour.
- **Only totals are tracked.** `MARKETS = "totals"` (app.py:10), and only the
  `totals` market is read (app.py:178).
- **A zero baseline counts as no baseline.** `if pregame_total` (app.py:193)
  is false for `None` and for `0`, so `DropFrom` returns 0 for both.
- **A final record may have no baseline.** The record stores
  `pregame_totals.get(g_id)` (app.py:192, 225). That is `None` for a game
  first seen after tip-off, so `FinalRecord.pregame` is an `Option`.
- **The stored drop is not the drop before halftime.** The key is
  `drop_before_halftime` (app.py:226), but the value is the drop at the FINAL
  sighting. See "## Findings".

## Model

| member | source | states |
|---|---|---|
| `Severity.GetColorBands` | app.py:72-80 | red exactly when drop ≥ 20; orange exactly when 15 ≤ drop < 20; yellow exactly when 10 ≤ drop < 15; white exactly when drop < 10 |
| `Severity.GetColorCountsThresholds` | app.py:72-80 | the band's rank equals the number of thresholds (10, 15, 20) the drop reaches, an independent definition of the band |
| `Severity.GetColorMonotone` | app.py:72-80 | a larger drop never gets a lower band |
| `GameClock.ClockPhases` | app.py:87-102 | 1H when elapsed < 52.5, HALFTIME when 52.5 ≤ elapsed < 72.5, 2H when 72.5 ≤ elapsed < 125, FINAL otherwise; exactly one applies |
| `GameClock.MinutesLeftInRange` | app.py:88-100 | for elapsed ≥ 0, minutes left in either half lie in (0, 20], and equal 20 only at elapsed 0 (1H) or 72.5 (2H) |
| `GameClock.ElapsedRoundTrip` | app.py:88-100 | during either half, the real elapsed minutes are recovered from the clock's minutes left (the projection is invertible) |
| `GameClock.ClockMonotone` | app.py:82-104 | game minutes played (0 to 40) never decrease as real time since tip-off increases |
| `GameClock.ClockBoundaries` | app.py:82-104 | at tip-off the clock reads 1H with 20 minutes left; 52.5 is HALFTIME, 72.5 is 2H with 20 left, 125 is FINAL |
| `OddsFeed.FirstWhere` | app.py:169-185 | the index found is the first element satisfying the filter, and None means no element does (the `next(...)` and `[0]` lookups) |
| `OddsFeed.QuoteIsDraftKingsOver` | app.py:169-185 | a quoted total is the point of the first `Over` outcome of the first `totals` market of the first `draftkings` bookmaker of that game |
| `OddsFeed.QuoteMissing` | app.py:169-185 | a game has no quote exactly when it has no DraftKings book, or the first one has no totals market, or that market has no Over outcome |
| `DropStats.Percent` | app.py:128-132 | percent is absent exactly when the bucket total is 0; otherwise percent × total = 100 × within, and it lies in [0, 100] |
| `DropStats.BucketsNested` | app.py:111-126 | bucket totals are nested (20+ ≤ 15+ ≤ 10+), the within counts are nested too, and each bucket has within ≤ total |
| `DropStats.CountInto` | app.py:115-126 | one `if drop >= threshold` block extends the bucket's total and within counts from the games counted so far to one more game |
| `DropStats.CalculateDropStats` | app.py:106-133 | each bucket's total counts the finished games whose drop reaches the threshold, its within counts those that finished within the margin of the baseline, percent is derived from the two, and the totals are nested |
| `Ordering.SortDescCorrect` | app.py:231 | sorting the live rows yields the same rows in descending drop order, and rows with equal drops keep their order (Python's sort is stable) |
| `Tracker.Monitor.constructor` | app.py:32-44 | the tracker starts from the loaded maps (empty maps for a missing or unreadable file) |
| `Tracker.Monitor.Tick` | app.py:159-236 | the new maps are those of `AfterTick` on the old maps; final records stay consistent; a failed or empty fetch gives no board; otherwise the live rows are the scanned rows sorted by drop, the upcoming rows are in feed order, and the statistics summarise the new final records with margin 7 |
| `Tracker.UnquotedGameIgnored` | app.py:169-185 | a game without a DraftKings Over total adds no row and leaves both maps unchanged |
| `Tracker.LateGameReportsZero` | app.py:187-194 | a game first seen after tip-off gets no baseline and shows a live row with no pregame, drop 0 and the white band |
| `Tracker.LiveDropFromBaseline` | app.py:192-220 | a live game with a non-zero baseline gets one live row whose drop is baseline − current, banded by that drop |
| `Tracker.ZeroBaselineReportsZero` | app.py:192-220 | a live game whose stored baseline is 0 gets a live row with baseline 0, drop 0 and the white band |
| `Tracker.UpcomingGameRow` | app.py:187-209 | a quoted game that has not started adds exactly one upcoming row (with its baseline, which is then present, its current total and its tip-off) and no live row, and leaves the final records alone |
| `Tracker.StartedGameRow` | app.py:187-220 | a quoted game that has started adds no baseline and no upcoming row, and exactly one live row with its baseline, current total, drop, band and clock |
| `Tracker.ObserveOtherId` | app.py:188-229 | observing one game leaves every other id's baseline and final record as it was |
| `Tracker.BaselineKept` | app.py:187-190 | a captured baseline is never changed by later games, whatever their current total |
| `Tracker.BaselineCaptured` | app.py:187-190 | an id without a baseline gets one exactly when some game with that id is quoted before tip-off |
| `Tracker.BaselineIsFirstQuote` | app.py:187-190 | the captured baseline is the total of the first such game |
| `Tracker.FinalsFrame` | app.py:222-229 | an id not seen finished in the tick keeps its final record, or keeps having none |
| `Tracker.FinalsLastWrite` | app.py:222-229 | after the last game with that id, seen finished, that id's record is {baseline, drop, current total}, overwriting any earlier record |
| `Tracker.RowsPartition` | app.py:200-220 | over a poll, every quoted game adds exactly one row; the new upcoming rows are as many as the quoted games not yet started, and the new live rows as many as the quoted games that have started; rows are only appended; upcoming rows start after now |
| `Tracker.ScanKeepsRecordsConsistent` | app.py:192-229 | every record a tick writes has drop = DropFrom(its baseline, its final total); so records with drop ≥ 10 have a baseline and the statistics can score them |
| `Tracker.FailedFetchChangesNothing` | app.py:159-161 | a failed fetch (None) or an empty game list leaves both maps unchanged |
| `Tracker.BaselineSurvivesTicks` | app.py:159-190 | a baseline survives any sequence of polls unchanged |
| `Tracker.FinalRewrittenEachTick` | app.py:222-229 | a one-game tick that sees the game finished sets its record from that tick's numbers, whatever was recorded before |
| `HalftimeDrop.ConsistentRecordsNeverWithin` | app.py:115-126 | every record the tick writes, with drop at least a positive threshold above the margin, is outside the margin, so no such bucket has a game within it |
| `HalftimeDrop.AsWrittenStatsShowZero` | app.py:128-132 | with the 7-point margin, statistics over records the tick wrote have within = 0 in every bucket, so each percentage is 0 or absent |
| `HalftimeDrop.IntendedKeepsBaselines` | app.py:187-190 | the corrected step captures baselines exactly as the code's step does |
| `HalftimeDrop.IntendedStoresHalftimeDrop` | app.py:222-229 | the corrected step's FINAL sighting stores the baseline, the drop of the last first-half sighting and the final total |
| `HalftimeDrop.IntendedKeepsScorable` | app.py:115-117 | the corrected step keeps every final record scorable: a drop of 10 or more always has a baseline |
| `HalftimeDrop.HalftimeDropExample` | app.py:222-229 | with baseline 150, a first-half total of 138 and a final total of 145: as written the record's drop is 5 and the game is in no bucket; corrected it is 12 and the game counts as within 7 points in the 10+ bucket |

## Left out

- `fetch_odds` and the HTTP request (app.py:54-70) are network I/O. A failed fetch is a `Poll` whose data is `None`.
- Loading the JSON files (app.py:32-44) is I/O. Its result is passed to the `Monitor` constructor. `save_pregame_totals` and `save_final_totals` (app.py:46-52) are no-ops on the in-memory maps.
- `Tracker.Monitor.constructor` requires every loaded final record with drop ≥ 10 to have a baseline. With such a record, the code raises a `TypeError` in `calculate_drop_stats` (app.py:117) on the first tick whose fetch returns games (`if data:` at app.py:161, the call at app.py:236). The model does not represent that crash.
- Streamlit calls, `render_table` and the statistics HTML (app.py:26-30, 135-157, 233-245) are presentation only. The colour strings are represented by the `Band` enum.
- The `while True` loop and `time.sleep` (app.py:159, 247) are not modelled as a driver. A run of polls is the function `AfterTicks`.
- ISO-8601 parsing, the conversion to EST and `strftime` (app.py:84, 176, 202-203) are not modelled. Instants are `real` seconds, and an upcoming row carries the tip-off instant, not a formatted string.
- `GameClock.MinutesLeftInRange` and `DropStats.Percent` leave values unrounded. The model omits the `:.1f` formatting and `round(..., 1)` (app.py:92, 100, 130).
- `Tracker.Monitor.Tick` reads one instant per tick. `estimate_game_time` reads the clock again (app.py:83) instead of using the tick's `now` (app.py:165). The model uses `poll.now` for both the upcoming/live split and the game clock. Near a phase boundary, such as 125 minutes, the code can call a game FINAL at its later instant when the model does not, or the other way round.
- Python floats are modelled as exact `real`s. This covers elapsed minutes, totals, drops and the percent ratio, so floating-point rounding in comparisons near a threshold is not captured.
- The check `if drop is None` (app.py:197) can never fire, because the drop is always a number.
- The constants `TV_TIMEOUTS_PER_HALF` and `TV_TIMEOUT_LENGTH` (app.py:22-23) are unused.
- Malformed payloads are not modelled. The code raises when it reads a field that is missing, and it reads each field only in some cases:
  - `id` is read for every game (app.py:168).
  - `home_team`, `away_team` and `commence_time` are read only once a DraftKings book is found (app.py:173-176).
  - A bookmaker's or market's `key` is read only up to the first matching entry, because `next(...)` is lazy (app.py:169, 178).
  - `name` is read for every outcome, and `point` for every `Over` outcome (app.py:182).
  
  In the model those fields always exist, and a missing `bookmakers`, `markets` or `outcomes` list is an empty sequence.
- `Tracker.FinalsLastWrite` describes only the last game with an id within one poll. The feed's ids are unique per game, so a poll normally has no duplicates.
- `HalftimeDrop.ObserveIntended` is the corrected step, but `Tracker.Monitor.Tick` keeps the code's behaviour: it stores the drop at the FINAL sighting. The corrected step stands beside it. Its lemmas are stated for one game's step.

## Findings

| source | as written | input that shows it | evidently intended | confidence | as-written member | corrected member |
|---|---|---|---|---|---|---|
| app.py:222-229 | a FINAL sighting stores `drop_before_halftime` = baseline − final total, so a record with drop ≥ 10 is never within 7 points of its baseline, and every bucket of the statistics shows 0% (or N/A) | baseline 150, total 138 at 30 minutes (first half), total 145 at 130 minutes (FINAL): the stored drop is 5, not 12 | store the drop of the last first-half sighting, as the key name and the "within 7 points" statistic suggest | medium; not executed | `HalftimeDrop.ConsistentRecordsNeverWithin` | `HalftimeDrop.IntendedStoresHalftimeDrop` |
