/**
  One account's recommendations: the three categories `lambda_handler`
  assembles for every scanned account, in the order it inserts them.
 */
module Report {

  const Ec2Category := "Underutilized EC2 Instances"
  const RdsCategory := "Underutilized RDS Databases"
  const S3Category := "S3 Storage Optimization"

  /** The flagged EC2 instance ids, the flagged RDS instance ids and the names of
      the buckets the storage check reports. */
  datatype Recommendations = Recommendations(ec2: seq<string>, rds: seq<string>, s3Buckets: seq<string>)

  /** The category dictionary as (name, items) pairs in insertion order; the
      items of the S3 category are the keys of its bucket dictionary. */
  function Categories(rec: Recommendations): seq<(string, seq<string>)>
  {
    [(Ec2Category, rec.ec2), (RdsCategory, rec.rds), (S3Category, rec.s3Buckets)]
  }

  /** What iterating the category dictionary yields: its three keys. */
  function CategoryKeys(rec: Recommendations): (keys: seq<string>)
    ensures |keys| == |Categories(rec)|
    ensures forall k :: 0 <= k < |keys| ==> keys[k] == Categories(rec)[k].0
  {
    [Ec2Category, RdsCategory, S3Category]
  }

  /** The three category names differ, so the dictionary keeps three entries
      and no category overwrites another. */
  lemma CategoryNamesDistinct(rec: Recommendations)
    ensures |Categories(rec)| == 3
    ensures forall i, j :: 0 <= i < j < |Categories(rec)| ==> Categories(rec)[i].0 != Categories(rec)[j].0
  {
    assert Ec2Category[14] == 'E' && RdsCategory[14] == 'R' && S3Category[0] == 'S';
  }

  /** The dictionary loses nothing: two accounts whose category dictionaries
      agree have the same recommendations. */
  lemma CategoriesInjective(r1: Recommendations, r2: Recommendations)
    ensures Categories(r1) == Categories(r2) <==> r1 == r2
  {
    if Categories(r1) == Categories(r2) {
      assert Categories(r1)[0].1 == Categories(r2)[0].1;
      assert Categories(r1)[1].1 == Categories(r2)[1].1;
      assert Categories(r1)[2].1 == Categories(r2)[2].1;
    }
  }
}
