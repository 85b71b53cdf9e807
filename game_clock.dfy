/**
 * Projection of real elapsed time since tip-off onto the college basketball
 * game clock: two 20-minute halves spread over 125 real minutes, of which 20
 * are halftime. This is the dashboard's estimate, not a live feed.
 */
module GameClock {

  /** The estimated state of a game that has started. */
  datatype Clock =
    | FirstHalf(minutesLeft: real)
    | Halftime
    | SecondHalf(minutesLeft: real)
    | Final

  const HalfGameMinutes: real := 20.0
  const HalftimeRealMin: real := 20.0
  const TotalRealTime: real := 125.0

  /** Real minutes taken by one half: (125 - 20) / 2 = 52.5. */
  const HalfRealTotal: real := (TotalRealTime - HalftimeRealMin) / 2.0

  /** Real minute at which the second half starts (52.5 + 20 = 72.5). */
  const SecondHalfStart: real := HalfRealTotal + HalftimeRealMin

  /** Game minutes left in a half after `inHalf` real minutes of it. */
  function MinutesLeft(inHalf: real): real
  {
    var proportion := inHalf / HalfRealTotal;
    var minutesElapsed := proportion * HalfGameMinutes;
    HalfGameMinutes - minutesElapsed
  }

  /** The clock after `elapsed` real minutes since tip-off. */
  function ClockAt(elapsed: real): Clock
  {
    if elapsed < HalfRealTotal then FirstHalf(MinutesLeft(elapsed))
    else if elapsed < HalfRealTotal + HalftimeRealMin then Halftime
    else if elapsed < 2.0 * HalfRealTotal + HalftimeRealMin then
      SecondHalf(MinutesLeft(elapsed - (HalfRealTotal + HalftimeRealMin)))
    else Final
  }

  /** The clock at instant `now` of a game starting at `commence` (both in seconds). */
  function EstimateGameTime(now: real, commence: real): Clock
  {
    ClockAt((now - commence) / 60.0)
  }

  /** Game minutes played so far on the estimated clock (0 to 40). */
  function GameMinutesPlayed(c: Clock): real
  {
    match c
    case FirstHalf(m) => HalfGameMinutes - m
    case Halftime => HalfGameMinutes
    case SecondHalf(m) => 2.0 * HalfGameMinutes - m
    case Final => 2.0 * HalfGameMinutes
  }

  /** Inverse of the projection during play: the real minutes since tip-off a half clock stands for. */
  function ElapsedOf(c: Clock): real
    requires c.FirstHalf? || c.SecondHalf?
  {
    var inHalf := (HalfGameMinutes - c.minutesLeft) / HalfGameMinutes * HalfRealTotal;
    if c.FirstHalf? then inHalf else SecondHalfStart + inHalf
  }

  /** Exactly one phase applies, decided by the real-minute boundaries 52.5, 72.5 and 125. */
  lemma ClockPhases(elapsed: real)
    ensures ClockAt(elapsed).FirstHalf? <==> elapsed < 52.5
    ensures ClockAt(elapsed).Halftime? <==> 52.5 <= elapsed < 72.5
    ensures ClockAt(elapsed).SecondHalf? <==> 72.5 <= elapsed < 125.0
    ensures ClockAt(elapsed).Final? <==> 125.0 <= elapsed
  {
  }

  /**
   * Once the game has started, the minutes left in either half lie in (0, 20],
   * and are exactly 20 only at the start of that half.
   */
  lemma MinutesLeftInRange(elapsed: real)
    requires 0.0 <= elapsed
    ensures ClockAt(elapsed).FirstHalf? || ClockAt(elapsed).SecondHalf? ==>
      0.0 < ClockAt(elapsed).minutesLeft <= 20.0
    ensures ClockAt(elapsed) == FirstHalf(20.0) <==> elapsed == 0.0
    ensures ClockAt(elapsed) == SecondHalf(20.0) <==> elapsed == 72.5
  {
  }

  /** Reading the clock back gives the real minutes it was projected from. */
  lemma ElapsedRoundTrip(elapsed: real)
    requires ClockAt(elapsed).FirstHalf? || ClockAt(elapsed).SecondHalf?
    ensures ElapsedOf(ClockAt(elapsed)) == elapsed
  {
  }

  /** The projected game never runs backwards: more real time, at least as many game minutes. */
  lemma ClockMonotone(e1: real, e2: real)
    requires 0.0 <= e1 <= e2
    ensures 0.0 <= GameMinutesPlayed(ClockAt(e1)) <= GameMinutesPlayed(ClockAt(e2)) <= 40.0
  {
  }

  /** The boundary instants of the projection. */
  lemma ClockBoundaries(commence: real)
    ensures EstimateGameTime(commence, commence) == FirstHalf(20.0)
    ensures ClockAt(52.5) == Halftime
    ensures ClockAt(72.5) == SecondHalf(20.0)
    ensures ClockAt(125.0) == Final
  {
  }

}
