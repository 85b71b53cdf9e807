/**
 * Severity bands used to highlight a live game by how far its total has
 * dropped from the pregame baseline (the colour rule of the dashboard).
 * The colours themselves are presentation; the band is what the rule decides.
 */
module Severity {

  /** Bands from lowest to highest: white, yellow (10+), orange (15+), red (20+). */
  datatype Band = White | Yellow | Orange | Red

  const YellowFrom: real := 10.0
  const OrangeFrom: real := 15.0
  const RedFrom: real := 20.0

  /** Position of a band in the order White < Yellow < Orange < Red. */
  function Rank(b: Band): nat
  {
    match b
    case White => 0
    case Yellow => 1
    case Orange => 2
    case Red => 3
  }

  /** The band of a drop: the first threshold, from the top, that it reaches. */
  function GetColor(drop: real): Band
  {
    if drop >= RedFrom then Red
    else if drop >= OrangeFrom then Orange
    else if drop >= YellowFrom then Yellow
    else White
  }

  /** Reference definition: how many of the given thresholds the drop reaches. */
  function ThresholdsReached(drop: real, thresholds: seq<real>): nat
  {
    if thresholds == [] then 0
    else (if drop >= thresholds[0] then 1 else 0) + ThresholdsReached(drop, thresholds[1..])
  }

  /** Each band holds exactly the drops in its half-open interval. */
  lemma GetColorBands(drop: real)
    ensures GetColor(drop) == Red <==> drop >= 20.0
    ensures GetColor(drop) == Orange <==> 15.0 <= drop < 20.0
    ensures GetColor(drop) == Yellow <==> 10.0 <= drop < 15.0
    ensures GetColor(drop) == White <==> drop < 10.0
  {
  }

  /** The band's rank is the number of thresholds the drop reaches. */
  lemma {:induction false} GetColorCountsThresholds(drop: real)
    ensures Rank(GetColor(drop)) == ThresholdsReached(drop, [YellowFrom, OrangeFrom, RedFrom])
  {
    var ts := [YellowFrom, OrangeFrom, RedFrom];
    assert ts[1..] == [OrangeFrom, RedFrom];
    assert ts[1..][1..] == [RedFrom];
    assert ts[1..][1..][1..] == [];
    assert ThresholdsReached(drop, [RedFrom]) == if drop >= RedFrom then 1 else 0;
    assert ThresholdsReached(drop, [OrangeFrom, RedFrom])
        == (if drop >= OrangeFrom then 1 else 0) + ThresholdsReached(drop, [RedFrom]);
  }

  /** A larger drop never gets a lower band. */
  lemma GetColorMonotone(d1: real, d2: real)
    requires d1 <= d2
    ensures Rank(GetColor(d1)) <= Rank(GetColor(d2))
  {
  }

}
