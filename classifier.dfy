/** The storm-intensity classification applied to every Dst, HON and SJG value. */
module Classifier {

  /** The nine ordered, named severity categories. */
  datatype Bucket =
    | Superstorm
    | IntenseStorm
    | ModerateStorm
    | WeakStorm
    | BelowAverage
    | Average
    | AboveAverage
    | FarAboveAverage
    | Above38

  /** The position of a bucket in the severity order, from 0 (most severe
      storm) to 8. */
  function Rank(b: Bucket): nat {
    match b
    case Superstorm => 0
    case IntenseStorm => 1
    case ModerateStorm => 2
    case WeakStorm => 3
    case BelowAverage => 4
    case Average => 5
    case AboveAverage => 6
    case FarAboveAverage => 7
    case Above38 => 8
  }

  /** The cascade of threshold tests: the first strict upper bound the value
      stays below decides its bucket, and a value that passes every bound is
      Above38. Each written lower bound of the original chain is implied by the
      tests before it failing, so it adds no condition. */
  function Classify(v: real): (b: Bucket)
    ensures InBucket(v, b)
  {
    if v < -250.0 then Superstorm
    else if v < -100.0 then IntenseStorm
    else if v < -49.0 then ModerateStorm
    else if v < -29.0 then WeakStorm
    else if v < -9.0 then BelowAverage
    else if v < 11.0 then Average
    else if v < 31.0 then AboveAverage
    else if v < 39.0 then FarAboveAverage
    else Above38
  }

  /** The buckets as half-open intervals of the real line, an independent
      statement of the partition the cascade implements. */
  predicate InBucket(v: real, b: Bucket) {
    match b
    case Superstorm => v < -250.0
    case IntenseStorm => -250.0 <= v < -100.0
    case ModerateStorm => -100.0 <= v < -49.0
    case WeakStorm => -49.0 <= v < -29.0
    case BelowAverage => -29.0 <= v < -9.0
    case Average => -9.0 <= v < 11.0
    case AboveAverage => 11.0 <= v < 31.0
    case FarAboveAverage => 31.0 <= v < 39.0
    case Above38 => 39.0 <= v
  }

  /** The cascade picks exactly the bucket whose interval holds the value, so
      the intervals cover the real line and never overlap. */
  lemma ClassifyMatchesIntervals(v: real, b: Bucket)
    ensures Classify(v) == b <==> InBucket(v, b)
  {
  }

  /** A larger value never lands in a more severe storm bucket. */
  lemma ClassifyMonotone(v: real, w: real)
    requires v <= w
    ensures Rank(Classify(v)) <= Rank(Classify(w))
  {
  }

  /** The lower bounds written beside each test in the original chain hold
      whenever that branch is taken. */
  lemma WrittenLowerBounds(v: real)
    ensures Classify(v) == IntenseStorm ==> v > -251.0
    ensures Classify(v) == ModerateStorm ==> v > -101.0
    ensures Classify(v) == WeakStorm ==> v > -50.0
    ensures Classify(v) == BelowAverage ==> v > -30.0
    ensures Classify(v) == Average ==> v > -10.0
    ensures Classify(v) == AboveAverage ==> v > 10.0
    ensures Classify(v) == FarAboveAverage ==> v > 30.0
    ensures Classify(v) == Above38 ==> v > 38.0
  {
  }

  /** The boundary values: each threshold belongs to the bucket above it. */
  lemma ClassifyBoundaries()
    ensures Classify(-250.1) == Superstorm
    ensures Classify(-250.0) == IntenseStorm
    ensures Classify(-100.0) == ModerateStorm
    ensures Classify(-49.0) == WeakStorm
    ensures Classify(-29.0) == BelowAverage
    ensures Classify(-9.0) == Average
    ensures Classify(11.0) == AboveAverage
    ensures Classify(31.0) == FarAboveAverage
    ensures Classify(38.9) == FarAboveAverage
    ensures Classify(39.0) == Above38
  {
  }
}
