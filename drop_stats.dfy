/**
 * Historical outcome statistics: among finished games whose total had dropped
 * by 10, 15 or 20 points, how many finished within a margin of the pregame total.
 */
module DropStats {

  import opened Wrappers

  /** What is kept of a finished game: baseline (if any), drop, and the total at the final tick. */
  datatype FinalRecord = FinalRecord(pregame: Option<real>, drop: real, finalTotal: real)

  /** One bucket's counters; `percent` is None when the bucket is empty. */
  datatype BucketStats = BucketStats(within: nat, total: nat, percent: Option<real>)

  /** The buckets "10+", "15+" and "20+", nested by threshold. */
  datatype Stats = Stats(plus10: BucketStats, plus15: BucketStats, plus20: BucketStats)

  const DefaultMargin: real := 7.0

  function Abs(x: real): real { if x < 0.0 then -x else x }

  /**
   * A record the statistics can score: a drop of 10 or more comes with a
   * baseline (otherwise the distance to the baseline is undefined).
   */
  predicate Scorable(r: FinalRecord)
  {
    r.drop >= 10.0 ==> r.pregame.Some?
  }

  /** The final total landed within `margin` points of the baseline. */
  predicate Within(r: FinalRecord, margin: real)
  {
    r.pregame.Some? && Abs(r.finalTotal - r.pregame.value) <= margin
  }

  /** Games among `ids` whose drop reached `threshold`. */
  function BucketIds(finals: map<string, FinalRecord>, ids: set<string>, threshold: real): set<string>
  {
    set id | id in ids && id in finals && finals[id].drop >= threshold
  }

  /** Games among `ids` whose drop reached `threshold` and that finished within `margin`. */
  function WithinIds(finals: map<string, FinalRecord>, ids: set<string>, threshold: real, margin: real): set<string>
  {
    set id | id in ids && id in finals && finals[id].drop >= threshold && Within(finals[id], margin)
  }

  /** 100 * within / total, or None for an empty bucket (unrounded). */
  function Percent(within: nat, total: nat): (p: Option<real>)
    requires within <= total
    ensures p.None? <==> total == 0
    ensures p.Some? ==> 0.0 <= p.value <= 100.0
    ensures p.Some? ==> p.value * total as real == 100.0 * within as real
  {
    if total > 0 then Some(100.0 * within as real / total as real) else None
  }

  /** `b` counts, over all of `finals`, the games of the bucket `threshold`, and gives their percentage. */
  ghost predicate Tallies(b: BucketStats, finals: map<string, FinalRecord>, threshold: real, margin: real)
  {
    && b.total == |BucketIds(finals, finals.Keys, threshold)|
    && b.within == |WithinIds(finals, finals.Keys, threshold, margin)|
    && b.within <= b.total
    && b.percent == Percent(b.within, b.total)
  }

  /** `stats` holds the tallies of the three buckets over `finals`. */
  ghost predicate Summarises(stats: Stats, finals: map<string, FinalRecord>, margin: real)
  {
    && Tallies(stats.plus10, finals, 10.0, margin)
    && Tallies(stats.plus15, finals, 15.0, margin)
    && Tallies(stats.plus20, finals, 20.0, margin)
  }

  lemma {:induction false} SubsetCard(a: set<string>, b: set<string>)
    requires a <= b
    ensures |a| <= |b|
  {
    if a != {} {
      var x :| x in a;
      SubsetCard(a - {x}, b - {x});
    }
  }

  /** The buckets are nested, and each bucket's within count is at most its total. */
  lemma BucketsNested(finals: map<string, FinalRecord>, ids: set<string>, margin: real)
    ensures |BucketIds(finals, ids, 20.0)| <= |BucketIds(finals, ids, 15.0)| <= |BucketIds(finals, ids, 10.0)|
    ensures |WithinIds(finals, ids, 20.0, margin)| <= |WithinIds(finals, ids, 15.0, margin)|
              <= |WithinIds(finals, ids, 10.0, margin)|
    ensures forall t: real :: |WithinIds(finals, ids, t, margin)| <= |BucketIds(finals, ids, t)|
  {
    SubsetCard(BucketIds(finals, ids, 20.0), BucketIds(finals, ids, 15.0));
    SubsetCard(BucketIds(finals, ids, 15.0), BucketIds(finals, ids, 10.0));
    SubsetCard(WithinIds(finals, ids, 20.0, margin), WithinIds(finals, ids, 15.0, margin));
    SubsetCard(WithinIds(finals, ids, 15.0, margin), WithinIds(finals, ids, 10.0, margin));
    forall t: real ensures |WithinIds(finals, ids, t, margin)| <= |BucketIds(finals, ids, t)| {
      SubsetCard(WithinIds(finals, ids, t, margin), BucketIds(finals, ids, t));
    }
  }

  /** Adding one game to the counted ids adds it to a bucket exactly when its drop reaches the threshold. */
  lemma CountOneMore(finals: map<string, FinalRecord>, ids: set<string>, id: string, threshold: real, margin: real)
    requires id in finals && id !in ids
    ensures |BucketIds(finals, ids + {id}, threshold)|
         == |BucketIds(finals, ids, threshold)| + (if finals[id].drop >= threshold then 1 else 0)
    ensures |WithinIds(finals, ids + {id}, threshold, margin)|
         == |WithinIds(finals, ids, threshold, margin)|
            + (if finals[id].drop >= threshold && Within(finals[id], margin) then 1 else 0)
  {
    if finals[id].drop >= threshold {
      assert BucketIds(finals, ids + {id}, threshold) == BucketIds(finals, ids, threshold) + {id};
    } else {
      assert BucketIds(finals, ids + {id}, threshold) == BucketIds(finals, ids, threshold);
    }
    if finals[id].drop >= threshold && Within(finals[id], margin) {
      assert WithinIds(finals, ids + {id}, threshold, margin) == WithinIds(finals, ids, threshold, margin) + {id};
    } else {
      assert WithinIds(finals, ids + {id}, threshold, margin) == WithinIds(finals, ids, threshold, margin);
    }
  }

  /**
   * One bucket's counting step for the game `id`: the body of one
   * `if drop >= threshold` block, extending the counts from `done` to `done + {id}`.
   */
  method CountInto(finals: map<string, FinalRecord>, ghost done: set<string>, id: string,
                   threshold: real, margin: real, within: nat, total: nat)
    returns (within': nat, total': nat)
    requires id in finals && id !in done && threshold >= 10.0 && Scorable(finals[id])
    requires total == |BucketIds(finals, done, threshold)|
    requires within == |WithinIds(finals, done, threshold, margin)|
    ensures total' == |BucketIds(finals, done + {id}, threshold)|
    ensures within' == |WithinIds(finals, done + {id}, threshold, margin)|
  {
    CountOneMore(finals, done, id, threshold, margin);
    var g := finals[id];
    within', total' := within, total;
    if g.drop >= threshold {
      total' := total' + 1;
      if Abs(g.finalTotal - g.pregame.value) <= margin {
        within' := within' + 1;
      }
    }
  }

  /**
   * Counts, per bucket, the finished games whose drop reached the bucket's
   * threshold and those of them that finished within `margin` of the
   * baseline, then derives each bucket's percentage.
   */
  method CalculateDropStats(finals: map<string, FinalRecord>, margin: real) returns (stats: Stats)
    requires forall id | id in finals :: Scorable(finals[id])
    ensures Summarises(stats, finals, margin)
    ensures stats.plus20.total <= stats.plus15.total <= stats.plus10.total
  {
    var within10, total10, within15, total15, within20, total20 := 0, 0, 0, 0, 0, 0;
    var todo := finals.Keys;
    ghost var done: set<string> := {};
    while todo != {}
      invariant todo + done == finals.Keys && todo !! done
      invariant total10 == |BucketIds(finals, done, 10.0)| && within10 == |WithinIds(finals, done, 10.0, margin)|
      invariant total15 == |BucketIds(finals, done, 15.0)| && within15 == |WithinIds(finals, done, 15.0, margin)|
      invariant total20 == |BucketIds(finals, done, 20.0)| && within20 == |WithinIds(finals, done, 20.0, margin)|
      decreases todo
    {
      var id :| id in todo;
      within10, total10 := CountInto(finals, done, id, 10.0, margin, within10, total10);
      within15, total15 := CountInto(finals, done, id, 15.0, margin, within15, total15);
      within20, total20 := CountInto(finals, done, id, 20.0, margin, within20, total20);
      todo := todo - {id};
      done := done + {id};
    }
    assert done == finals.Keys;
    BucketsNested(finals, finals.Keys, margin);
    stats := Stats(BucketStats(within10, total10, Percent(within10, total10)),
                       BucketStats(within15, total15, Percent(within15, total15)),
                       BucketStats(within20, total20, Percent(within20, total20)));
  }

}
