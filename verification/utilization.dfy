/**
  The weekday/weekend utilization classifier shared by the EC2 and RDS scans.

  A resource's CloudWatch datapoints are split by the UTC day of the week
  into a weekday and a weekend bucket, the p95 reading is taken from each
  datapoint, missing readings are dropped, each bucket is averaged (an empty
  bucket averages to 0) and the resource is underutilized when both averages
  are below the threshold. Readings are exact reals: floating-point rounding
  of the averages is not modelled.
 */
module Utilization {

  datatype Option<+T> = None | Some(value: T)

  /** Python's `datetime.weekday()` of a UTC timestamp: 0 is Monday, 6 is Sunday. */
  type DayOfWeek = d: int | 0 <= d <= 6

  /** One datapoint: its UTC day of the week, the `ExtendedStatistics['p95.0']`
      reading and the top-level `'p95.0'` reading, either of which may be absent. */
  datatype Datapoint = Datapoint(day: DayOfWeek, extended: Option<real>, topLevel: Option<real>)

  /** Default thresholds (percent CPU) of the two resource kinds. */
  const Ec2Threshold: real := 5.0
  const RdsThreshold: real := 10.0

  /** The weekend is Saturday and Sunday. */
  predicate IsWeekend(day: DayOfWeek)
    ensures IsWeekend(day) <==> day == 5 || day == 6
  {
    day >= 5
  }

  /** The value of `extended or topLevel`: Python's `or` keeps its first operand
      only when it is truthy, so an absent or a zero primary reading falls
      through to the top-level one. The reading is present exactly when the
      primary one is non-zero or the top-level one exists, it is always one of
      the two: a non-zero primary reading wins, and otherwise the top-level
      reading is taken. */
  function Reading(dp: Datapoint): (r: Option<real>)
    ensures r.Some? <==> (dp.extended.Some? && dp.extended.value != 0.0) || dp.topLevel.Some?
    ensures r.Some? ==> r == dp.extended || r == dp.topLevel
    ensures dp.extended.Some? && dp.extended.value != 0.0 ==> r == dp.extended
    ensures !(dp.extended.Some? && dp.extended.value != 0.0) ==> r == dp.topLevel
  {
    if dp.extended.Some? && dp.extended.value != 0.0 then dp.extended else dp.topLevel
  }

  /** A genuine zero in the primary place is lost when no top-level reading backs
      it, and replaced by the top-level value when there is one. */
  lemma ZeroPrimaryReadingLost(day: DayOfWeek)
    ensures Reading(Datapoint(day, Some(0.0), None)) == None
    ensures Reading(Datapoint(day, Some(0.0), Some(0.0))) == Some(0.0)
    ensures Reading(Datapoint(day, Some(0.0), Some(3.0))) == Some(3.0)
  {
  }

  /** The datapoints of one bucket (weekend or weekday), in their original order. */
  function Bucket(dps: seq<Datapoint>, weekend: bool): (b: seq<Datapoint>)
    ensures |b| <= |dps|
    ensures forall dp :: dp in b <==> dp in dps && IsWeekend(dp.day) == weekend
  {
    if dps == [] then []
    else (if IsWeekend(dps[0].day) == weekend then [dps[0]] else []) + Bucket(dps[1..], weekend)
  }

  function Readings(dps: seq<Datapoint>): (r: seq<Option<real>>)
    ensures |r| == |dps|
    ensures forall k :: 0 <= k < |dps| ==> r[k] == Reading(dps[k])
  {
    if dps == [] then [] else [Reading(dps[0])] + Readings(dps[1..])
  }

  /** The present readings, in order; a missing reading is dropped, never read as 0. */
  function Present(xs: seq<Option<real>>): (vs: seq<real>)
    ensures |vs| <= |xs|
    ensures forall v :: v in vs <==> Some(v) in xs
  {
    if xs == [] then []
    else (if xs[0].Some? then [xs[0].value] else []) + Present(xs[1..])
  }

  /** Filtering keeps each present value as often as it occurs, so the averages
      weigh repeated readings as the source does. */
  lemma {:induction false} PresentKeepsCounts(xs: seq<Option<real>>)
    ensures forall v :: multiset(Present(xs))[v] == multiset(xs)[Some(v)]
  {
    if xs != [] {
      PresentKeepsCounts(xs[1..]);
      assert xs == [xs[0]] + xs[1..];
    }
  }

  /** The present readings of one bucket. */
  function Values(dps: seq<Datapoint>, weekend: bool): seq<real>
  {
    Present(Readings(Bucket(dps, weekend)))
  }

  function Sum(vs: seq<real>): real
  {
    if vs == [] then 0.0 else vs[0] + Sum(vs[1..])
  }

  /** The arithmetic mean, with 0 for an empty sequence: the number that,
      taken once for every value, adds up to the sum. */
  function Mean(vs: seq<real>): (m: real)
    ensures vs == [] ==> m == 0.0
    ensures m * (|vs| as real) == Sum(vs)
  {
    if vs == [] then 0.0 else Sum(vs) / (|vs| as real)
  }

  /** The outcome for one resource: skipped for want of data, or its two averages
      and whether both are below the threshold. */
  datatype Classification =
    | Skipped
    | Classified(weekdayAvg: real, weekendAvg: real, underutilized: bool)

  /** The two `continue` guards collapse to "no present reading in either
      bucket"; otherwise the averages are those of the two buckets and the
      resource is underutilized iff both lie below the threshold. */
  function Classify(dps: seq<Datapoint>, threshold: real): (c: Classification)
    ensures c.Skipped? <==> Values(dps, false) == [] && Values(dps, true) == []
    ensures c.Classified? ==>
      c.weekdayAvg == Mean(Values(dps, false)) && c.weekendAvg == Mean(Values(dps, true))
      && (c.underutilized <==> c.weekdayAvg < threshold && c.weekendAvg < threshold)
  {
    if dps == [] then Skipped
    else
      var weekday := Values(dps, false);
      var weekend := Values(dps, true);
      if weekday == [] && weekend == [] then Skipped
      else
        var weekdayAvg := Mean(weekday);
        var weekendAvg := Mean(weekend);
        Classified(weekdayAvg, weekendAvg, weekdayAvg < threshold && weekendAvg < threshold)
  }

  predicate Underutilized(dps: seq<Datapoint>, threshold: real)
  {
    var c := Classify(dps, threshold);
    c.Classified? && c.underutilized
  }

  // ---------------------------------------------------------------------------
  // Bucketing

  lemma {:induction false} BucketPartition(dps: seq<Datapoint>)
    ensures |Bucket(dps, false)| + |Bucket(dps, true)| == |dps|
    ensures multiset(Bucket(dps, false)) + multiset(Bucket(dps, true)) == multiset(dps)
  {
    if dps != [] {
      BucketPartition(dps[1..]);
      assert dps == [dps[0]] + dps[1..];
    }
  }

  lemma {:induction false} BucketAppend(a: seq<Datapoint>, b: seq<Datapoint>, weekend: bool)
    ensures Bucket(a + b, weekend) == Bucket(a, weekend) + Bucket(b, weekend)
  {
    if a != [] {
      assert (a + b)[1..] == a[1..] + b;
      BucketAppend(a[1..], b, weekend);
      var head := if IsWeekend(a[0].day) == weekend then [a[0]] else [];
      calc {
        Bucket(a + b, weekend);
        head + Bucket(a[1..] + b, weekend);
        head + (Bucket(a[1..], weekend) + Bucket(b, weekend));
        (head + Bucket(a[1..], weekend)) + Bucket(b, weekend);
      }
    } else {
      assert a + b == b;
    }
  }

  lemma {:induction false} ReadingsAppend(a: seq<Datapoint>, b: seq<Datapoint>)
    ensures Readings(a + b) == Readings(a) + Readings(b)
  {
    if a != [] {
      assert (a + b)[1..] == a[1..] + b;
      ReadingsAppend(a[1..], b);
    } else {
      assert a + b == b;
    }
  }

  lemma {:induction false} PresentAppend(a: seq<Option<real>>, b: seq<Option<real>>)
    ensures Present(a + b) == Present(a) + Present(b)
  {
    if a != [] {
      assert (a + b)[1..] == a[1..] + b;
      PresentAppend(a[1..], b);
      var head := if a[0].Some? then [a[0].value] else [];
      calc {
        Present(a + b);
        head + Present(a[1..] + b);
        head + (Present(a[1..]) + Present(b));
        (head + Present(a[1..])) + Present(b);
      }
    } else {
      assert a + b == b;
    }
  }

  lemma ValuesAppend(a: seq<Datapoint>, b: seq<Datapoint>, weekend: bool)
    ensures Values(a + b, weekend) == Values(a, weekend) + Values(b, weekend)
  {
    BucketAppend(a, b, weekend);
    ReadingsAppend(Bucket(a, weekend), Bucket(b, weekend));
    PresentAppend(Readings(Bucket(a, weekend)), Readings(Bucket(b, weekend)));
  }

  /** A datapoint without any reading changes nothing: missing values are never
      averaged in as 0, and they do not turn a resource without data into one
      with data. */
  lemma MissingReadingIgnored(a: seq<Datapoint>, b: seq<Datapoint>, day: DayOfWeek, threshold: real)
    ensures Classify(a + [Datapoint(day, None, None)] + b, threshold) == Classify(a + b, threshold)
  {
    var blank := Datapoint(day, None, None);
    forall weekend: bool
      ensures Values(a + [blank] + b, weekend) == Values(a + b, weekend)
    {
      ValuesAppend(a + [blank], b, weekend);
      ValuesAppend(a, [blank], weekend);
      ValuesAppend(a, b, weekend);
      BlankHasNoValues(day, weekend);
    }
    ClassifyByValues(a + [blank] + b, a + b, threshold);
  }

  lemma BlankHasNoValues(day: DayOfWeek, weekend: bool)
    ensures Values([Datapoint(day, None, None)], weekend) == []
  {
    var blank := Datapoint(day, None, None);
    assert [blank][1..] == [];
    if IsWeekend(day) == weekend {
      assert Bucket([blank], weekend) == [blank];
      assert Readings([blank]) == [None];
      assert Present([None]) == [];
    } else {
      assert Bucket([blank], weekend) == [];
    }
  }

  /** The classification depends on the datapoints only through the present
      readings of the two buckets. */
  lemma ClassifyByValues(x: seq<Datapoint>, y: seq<Datapoint>, threshold: real)
    requires Values(x, false) == Values(y, false) && Values(x, true) == Values(y, true)
    ensures Classify(x, threshold) == Classify(y, threshold)
  {
    assert Values([], false) == [] && Values([], true) == [];
  }

  // ---------------------------------------------------------------------------
  // Averages

  lemma {:induction false} SumBelow(vs: seq<real>, bound: real)
    requires forall v :: v in vs ==> v < bound
    ensures vs != [] ==> Sum(vs) < bound * (|vs| as real)
    ensures vs == [] ==> Sum(vs) == 0.0
  {
    if vs != [] {
      var rest := vs[1..];
      assert forall v :: v in rest ==> v in vs;
      SumBelow(rest, bound);
      assert vs[0] in vs && Sum(vs) == vs[0] + Sum(rest);
      assert bound * (|vs| as real) == bound + bound * (|rest| as real);
      if rest == [] {
        assert bound * (|rest| as real) == 0.0;
      }
    }
  }

  lemma {:induction false} SumAtLeast(vs: seq<real>, bound: real)
    requires forall v :: v in vs ==> v >= bound
    ensures Sum(vs) >= bound * (|vs| as real)
  {
    if vs != [] {
      var rest := vs[1..];
      assert forall v :: v in rest ==> v in vs;
      SumAtLeast(rest, bound);
      assert vs[0] in vs && Sum(vs) == vs[0] + Sum(rest);
      assert bound * (|vs| as real) == bound + bound * (|rest| as real);
    }
  }

  /** For a non-empty bucket, `mean < t` is the same test as `sum < t * count`. */
  lemma MeanBelowBySum(vs: seq<real>, threshold: real)
    requires vs != []
    ensures Mean(vs) < threshold <==> Sum(vs) < threshold * (|vs| as real)
  {
    var n := |vs| as real;
    var m := Mean(vs);
    assert m * n == Sum(vs);
    if m < threshold {
      assert m * n < threshold * n;
    } else {
      assert m * n >= threshold * n;
    }
  }

  /** When every value lies below the bound, so does their mean. */
  lemma MeanBelow(vs: seq<real>, bound: real)
    requires vs != []
    requires forall v :: v in vs ==> v < bound
    ensures Mean(vs) < bound
  {
    SumBelow(vs, bound);
    MeanBelowBySum(vs, bound);
  }

  /** When every value is at or above the bound, so is their mean. */
  lemma MeanAtLeast(vs: seq<real>, bound: real)
    requires vs != []
    requires forall v :: v in vs ==> v >= bound
    ensures Mean(vs) >= bound
  {
    SumAtLeast(vs, bound);
    MeanBelowBySum(vs, bound);
  }

  // ---------------------------------------------------------------------------
  // The decision

  /** A resource is skipped exactly when neither bucket holds a present reading;
      in particular a resource without datapoints is skipped. */
  lemma SkippedIffNoValues(dps: seq<Datapoint>, threshold: real)
    ensures Classify(dps, threshold).Skipped? <==> Values(dps, false) == [] && Values(dps, true) == []
    ensures dps == [] ==> Classify(dps, threshold).Skipped? && !Underutilized(dps, threshold)
  {
  }

  /** The business rule: flagged iff some reading is present and BOTH bucket
      averages are below the threshold. */
  lemma UnderutilizedIff(dps: seq<Datapoint>, threshold: real)
    ensures Underutilized(dps, threshold) <==>
      (Values(dps, false) != [] || Values(dps, true) != [])
      && Mean(Values(dps, false)) < threshold && Mean(Values(dps, true)) < threshold
  {
  }

  /** A busy window on either side keeps the resource from being flagged. */
  lemma BusyWindowNotFlagged(dps: seq<Datapoint>, threshold: real)
    requires Mean(Values(dps, false)) >= threshold || Mean(Values(dps, true)) >= threshold
    ensures !Underutilized(dps, threshold)
  {
  }

  /** The same rule stated without division: a non-empty bucket passes when its
      sum is below threshold times its size, an empty bucket passes when the
      threshold is positive (its average is the neutral 0). */
  lemma UnderutilizedBySums(dps: seq<Datapoint>, threshold: real)
    ensures Underutilized(dps, threshold) <==>
      (Values(dps, false) != [] || Values(dps, true) != [])
      && BucketPasses(Values(dps, false), threshold) && BucketPasses(Values(dps, true), threshold)
  {
    UnderutilizedIff(dps, threshold);
    MeanBelowIffPasses(Values(dps, false), threshold);
    MeanBelowIffPasses(Values(dps, true), threshold);
  }

  /** The threshold test of one bucket without division. */
  predicate BucketPasses(vs: seq<real>, threshold: real)
  {
    if vs == [] then 0.0 < threshold else Sum(vs) < threshold * (|vs| as real)
  }

  lemma MeanBelowIffPasses(vs: seq<real>, threshold: real)
    ensures Mean(vs) < threshold <==> BucketPasses(vs, threshold)
  {
    if vs != [] {
      MeanBelowBySum(vs, threshold);
    }
  }

  /** Readings on weekdays only: the empty weekend bucket averages 0, so the
      resource is flagged iff the threshold is positive and the weekday average
      is below it. */
  lemma WeekdayOnly(dps: seq<Datapoint>, threshold: real)
    requires Values(dps, false) != [] && Values(dps, true) == []
    ensures Underutilized(dps, threshold) <==> 0.0 < threshold && Mean(Values(dps, false)) < threshold
  {
  }

  /** Readings on weekends only: the mirror case. */
  lemma WeekendOnly(dps: seq<Datapoint>, threshold: real)
    requires Values(dps, false) == [] && Values(dps, true) != []
    ensures Underutilized(dps, threshold) <==> 0.0 < threshold && Mean(Values(dps, true)) < threshold
  {
  }

  /** Every present reading below a positive threshold: the resource is flagged. */
  lemma AllReadingsBelowFlagged(dps: seq<Datapoint>, threshold: real)
    requires 0.0 < threshold
    requires Values(dps, false) != [] || Values(dps, true) != []
    requires forall v :: v in Values(dps, false) ==> v < threshold
    requires forall v :: v in Values(dps, true) ==> v < threshold
    ensures Underutilized(dps, threshold)
  {
    if Values(dps, false) != [] {
      MeanBelow(Values(dps, false), threshold);
    }
    if Values(dps, true) != [] {
      MeanBelow(Values(dps, true), threshold);
    }
  }

  /** Every present weekday reading at or above the threshold: not flagged. */
  lemma BusyWeekdaysNotFlagged(dps: seq<Datapoint>, threshold: real)
    requires Values(dps, false) != []
    requires forall v :: v in Values(dps, false) ==> v >= threshold
    ensures !Underutilized(dps, threshold)
  {
    MeanAtLeast(Values(dps, false), threshold);
  }

  /** Raising the threshold never unflags a resource. */
  lemma ThresholdMonotone(dps: seq<Datapoint>, low: real, high: real)
    requires low <= high
    ensures Underutilized(dps, low) ==> Underutilized(dps, high)
  {
  }

  /** Weekday average 8, weekend average 1, threshold 5: busy on weekdays, not flagged. */
  lemma BusyOnWeekdaysExample()
    ensures Classify([Datapoint(0, Some(8.0), None), Datapoint(6, None, Some(1.0))], 5.0)
      == Classified(8.0, 1.0, false)
  {
    var dps := [Datapoint(0, Some(8.0), None), Datapoint(6, None, Some(1.0))];
    assert Bucket(dps, false) == [dps[0]];
    assert Bucket(dps, true) == [dps[1]];
    assert Values(dps, false) == [8.0];
    assert Values(dps, true) == [1.0];
  }
}
