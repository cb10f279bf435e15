/**
  The two resource scans: EC2 instances grouped in reservations and RDS
  database instances. Each walks the enumerated resources in order and
  appends the id of every resource the classifier flags. Enumeration and the
  metric fetch are the cloud provider's; here each resource arrives with its
  datapoints already fetched.
 */
module Scan {
  import opened Utilization

  /** An enumerated resource (instance or database) with its fetched datapoints. */
  datatype Resource = Resource(id: string, datapoints: seq<Datapoint>)

  /** The ids of the flagged resources, in enumeration order: at most one per
      resource. */
  function FlaggedIds(rs: seq<Resource>, threshold: real): (ids: seq<string>)
    ensures |ids| <= |rs|
  {
    if rs == [] then []
    else
      var last := rs[|rs| - 1];
      FlaggedIds(rs[..|rs| - 1], threshold) + (if Underutilized(last.datapoints, threshold) then [last.id] else [])
  }

  function Ids(rs: seq<Resource>): (ids: seq<string>)
    ensures |ids| == |rs|
    ensures forall k :: 0 <= k < |rs| ==> ids[k] == rs[k].id
  {
    if rs == [] then [] else Ids(rs[..|rs| - 1]) + [rs[|rs| - 1].id]
  }

  /** The instances of all reservations, reservation after reservation. */
  function Flatten(reservations: seq<seq<Resource>>): seq<Resource>
  {
    if reservations == [] then []
    else Flatten(reservations[..|reservations| - 1]) + reservations[|reservations| - 1]
  }

  /** `sub` is `s` with some elements left out, the rest kept in order. */
  predicate IsSubsequence(sub: seq<string>, s: seq<string>)
    decreases |s|
  {
    if sub == [] then true
    else if s == [] then false
    else
      (sub[|sub| - 1] == s[|s| - 1] && IsSubsequence(sub[..|sub| - 1], s[..|s| - 1]))
      || IsSubsequence(sub, s[..|s| - 1])
  }

  /** One step of either scan: the `continue` guards and the two-average test. */
  method CheckResource(datapoints: seq<Datapoint>, threshold: real) returns (flag: bool)
    ensures flag <==> Underutilized(datapoints, threshold)
  {
    if datapoints == [] {
      return false;
    }
    var weekdayUsage := Values(datapoints, false);
    var weekendUsage := Values(datapoints, true);
    if weekdayUsage == [] && weekendUsage == [] {
      return false;
    }
    var weekdayAvg := Mean(weekdayUsage);
    var weekendAvg := Mean(weekendUsage);
    flag := weekdayAvg < threshold && weekendAvg < threshold;
  }

  /** The RDS scan over the enumerated database instances. */
  method LowUtilizationRds(databases: seq<Resource>, threshold: real) returns (underutilized: seq<string>)
    ensures underutilized == FlaggedIds(databases, threshold)
  {
    underutilized := [];
    for i := 0 to |databases|
      invariant underutilized == FlaggedIds(databases[..i], threshold)
    {
      var db := databases[i];
      var flag := CheckResource(db.datapoints, threshold);
      if flag {
        underutilized := underutilized + [db.id];
      }
      assert databases[..i + 1][..i] == databases[..i];
    }
    assert databases[..|databases|] == databases;
  }

  /** The EC2 scan over the instances of every reservation. */
  method LowUtilizationEc2(reservations: seq<seq<Resource>>, threshold: real) returns (underutilized: seq<string>)
    ensures underutilized == FlaggedIds(Flatten(reservations), threshold)
  {
    underutilized := [];
    for i := 0 to |reservations|
      invariant underutilized == FlaggedIds(Flatten(reservations[..i]), threshold)
    {
      var instances := reservations[i];
      ghost var scanned := Flatten(reservations[..i]);
      assert scanned + instances[..0] == scanned;
      for j := 0 to |instances|
        invariant underutilized == FlaggedIds(scanned + instances[..j], threshold)
      {
        var instance := instances[j];
        ExtendPrefix(scanned, instances, j);
        FlaggedIdsSnoc(scanned + instances[..j], instance, threshold);
        var flag := CheckResource(instance.datapoints, threshold);
        if flag {
          underutilized := underutilized + [instance.id];
        }
      }
      FlattenStep(reservations, i);
      assert instances[..|instances|] == instances;
    }
    assert reservations[..|reservations|] == reservations;
  }

  lemma ExtendPrefix(scanned: seq<Resource>, instances: seq<Resource>, j: nat)
    requires j < |instances|
    ensures scanned + instances[..j + 1] == (scanned + instances[..j]) + [instances[j]]
  {
    assert instances[..j + 1] == instances[..j] + [instances[j]];
  }

  lemma FlaggedIdsSnoc(rs: seq<Resource>, r: Resource, threshold: real)
    ensures FlaggedIds(rs + [r], threshold)
      == FlaggedIds(rs, threshold) + (if Underutilized(r.datapoints, threshold) then [r.id] else [])
  {
    assert (rs + [r])[..|rs|] == rs;
  }

  lemma FlattenStep(reservations: seq<seq<Resource>>, i: nat)
    requires i < |reservations|
    ensures Flatten(reservations[..i + 1]) == Flatten(reservations[..i]) + reservations[i]
  {
    assert reservations[..i + 1][..i] == reservations[..i];
  }

  // ---------------------------------------------------------------------------
  // Properties of the scan result

  lemma {:induction false} FlaggedIdsAppend(a: seq<Resource>, b: seq<Resource>, threshold: real)
    ensures FlaggedIds(a + b, threshold) == FlaggedIds(a, threshold) + FlaggedIds(b, threshold)
    decreases |b|
  {
    if b == [] {
      assert a + b == a;
    } else {
      var init := b[..|b| - 1];
      assert (a + b)[..|a + b| - 1] == a + init;
      FlaggedIdsAppend(a, init, threshold);
    }
  }

  /** The result is a subsequence of the enumerated ids: order is kept and each
      resource contributes at most one entry. */
  lemma {:induction false} FlaggedIdsSubsequence(rs: seq<Resource>, threshold: real)
    ensures IsSubsequence(FlaggedIds(rs, threshold), Ids(rs))
    ensures |FlaggedIds(rs, threshold)| <= |rs|
  {
    if rs != [] {
      var init := rs[..|rs| - 1];
      FlaggedIdsSubsequence(init, threshold);
      assert Ids(rs)[..|rs| - 1] == Ids(init);
      var last := rs[|rs| - 1];
      if Underutilized(last.datapoints, threshold) {
        var f := FlaggedIds(rs, threshold);
        assert f[..|f| - 1] == FlaggedIds(init, threshold);
      } else {
        assert FlaggedIds(rs, threshold) == FlaggedIds(init, threshold);
        assert Ids(rs) == Ids(init) + [last.id];
        SubsequenceOfLonger(FlaggedIds(init, threshold), Ids(init), last.id);
      }
    }
  }

  lemma SubsequenceOfLonger(sub: seq<string>, s: seq<string>, x: string)
    requires IsSubsequence(sub, s)
    ensures IsSubsequence(sub, s + [x])
  {
    assert (s + [x])[..|s|] == s;
  }

  /** A listed id belongs to an enumerated resource that the classifier flags, and
      every flagged resource is listed. */
  lemma FlaggedIdsMembers(rs: seq<Resource>, threshold: real)
    ensures forall k :: 0 <= k < |rs| && Underutilized(rs[k].datapoints, threshold) ==> rs[k].id in FlaggedIds(rs, threshold)
    ensures forall id :: id in FlaggedIds(rs, threshold) ==>
      exists k :: 0 <= k < |rs| && rs[k].id == id && Underutilized(rs[k].datapoints, threshold)
  {
    forall k | 0 <= k < |rs| && Underutilized(rs[k].datapoints, threshold)
      ensures rs[k].id in FlaggedIds(rs, threshold)
    {
      FlaggedListed(rs, threshold, k);
    }
    forall id | id in FlaggedIds(rs, threshold)
      ensures exists k :: 0 <= k < |rs| && rs[k].id == id && Underutilized(rs[k].datapoints, threshold)
    {
      var k := ListedFlagged(rs, threshold, id);
    }
  }

  /** The same, one id at a time and by resource rather than by position. */
  lemma FlaggedIdsContain(rs: seq<Resource>, threshold: real, id: string)
    ensures id in FlaggedIds(rs, threshold) <==>
      exists r :: r in rs && r.id == id && Underutilized(r.datapoints, threshold)
  {
    if id in FlaggedIds(rs, threshold) {
      var k := ListedFlagged(rs, threshold, id);
      assert rs[k] in rs;
    }
    if exists r :: r in rs && r.id == id && Underutilized(r.datapoints, threshold) {
      var r :| r in rs && r.id == id && Underutilized(r.datapoints, threshold);
      var k :| 0 <= k < |rs| && rs[k] == r;
      FlaggedListed(rs, threshold, k);
    }
  }

  lemma {:induction false} FlaggedListed(rs: seq<Resource>, threshold: real, k: nat)
    requires k < |rs| && Underutilized(rs[k].datapoints, threshold)
    ensures rs[k].id in FlaggedIds(rs, threshold)
  {
    var init := rs[..|rs| - 1];
    var last := rs[|rs| - 1];
    var tail := if Underutilized(last.datapoints, threshold) then [last.id] else [];
    assert FlaggedIds(rs, threshold) == FlaggedIds(init, threshold) + tail;
    if k < |init| {
      assert init[k] == rs[k];
      FlaggedListed(init, threshold, k);
    } else {
      assert k == |rs| - 1;
      assert last == rs[k];
    }
  }

  lemma {:induction false} ListedFlagged(rs: seq<Resource>, threshold: real, id: string) returns (k: nat)
    requires id in FlaggedIds(rs, threshold)
    ensures k < |rs| && rs[k].id == id && Underutilized(rs[k].datapoints, threshold)
  {
    var init := rs[..|rs| - 1];
    if id in FlaggedIds(init, threshold) {
      k := ListedFlagged(init, threshold, id);
      assert init[k] == rs[k];
    } else {
      k := |rs| - 1;
    }
  }

  /** A resource without datapoints, or without a present reading, is never listed
      unless another enumerated resource with the same id is flagged. */
  lemma SkippedNotListed(rs: seq<Resource>, threshold: real, id: string)
    requires forall k :: 0 <= k < |rs| && rs[k].id == id ==> Classify(rs[k].datapoints, threshold).Skipped?
    ensures id !in FlaggedIds(rs, threshold)
  {
    FlaggedIdsMembers(rs, threshold);
  }

  /** Raising the threshold only adds ids to the result. */
  lemma {:induction false} FlaggedIdsMonotone(rs: seq<Resource>, low: real, high: real)
    requires low <= high
    ensures IsSubsequence(FlaggedIds(rs, low), FlaggedIds(rs, high))
  {
    if rs != [] {
      var init := rs[..|rs| - 1];
      var last := rs[|rs| - 1];
      FlaggedIdsMonotone(init, low, high);
      ThresholdMonotone(last.datapoints, low, high);
      if Underutilized(last.datapoints, low) {
        var f := FlaggedIds(rs, low);
        var g := FlaggedIds(rs, high);
        assert f[..|f| - 1] == FlaggedIds(init, low);
        assert g[..|g| - 1] == FlaggedIds(init, high);
      } else if Underutilized(last.datapoints, high) {
        assert FlaggedIds(rs, low) == FlaggedIds(init, low);
        assert FlaggedIds(rs, high) == FlaggedIds(init, high) + [last.id];
        SubsequenceOfLonger(FlaggedIds(init, low), FlaggedIds(init, high), last.id);
      } else {
        assert FlaggedIds(rs, low) == FlaggedIds(init, low);
        assert FlaggedIds(rs, high) == FlaggedIds(init, high);
      }
    }
  }
}
