/**
  The Lambda entry point: normalise the requested account ids, scan every
  account with the EC2 and RDS default thresholds, collect the per-account
  recommendations in a dictionary keyed by account id, and compose the
  notification text. Role assumption, client construction, enumeration, the
  metric fetch and the storage check are the provider's: `inventoryOf` gives,
  for an account id, what those calls return.
 */
module Handler {
  import opened Utilization
  import opened Scan
  import opened Report
  import opened Notification

  /** The event's `account_ids`: absent or null, a single id, or a list of ids. */
  datatype AccountIds = Absent | Single(id: string) | Many(ids: seq<string>)

  /** What one account's provider calls return: the reservations of running
      instances and the database instances, each resource with its datapoints,
      and the buckets the storage check reports. */
  datatype Inventory = Inventory(reservations: seq<seq<Resource>>, databases: seq<Resource>, s3Buckets: seq<string>)

  /** A string is wrapped into a list; no ids at all means the caller's own account. */
  function NormalizeAccounts(input: AccountIds, caller: string): (accounts: seq<string>)
    ensures accounts != []
    ensures input.Single? ==> accounts == [input.id]
    ensures input.Many? && input.ids != [] ==> accounts == input.ids
    ensures input.Absent? || input == Many([]) ==> accounts == [caller]
  {
    var listed := match input
      case Absent => []
      case Single(id) => [id]
      case Many(ids) => ids;
    if listed == [] then [caller] else listed
  }

  /** The recommendations of one account: at most one EC2 entry per instance,
      at most one RDS entry per database, and the reported buckets unchanged. */
  function AccountScan(inventory: Inventory): (rec: Recommendations)
    ensures |rec.ec2| <= |Flatten(inventory.reservations)| && |rec.rds| <= |inventory.databases|
    ensures rec.s3Buckets == inventory.s3Buckets
  {
    Recommendations(
      FlaggedIds(Flatten(inventory.reservations), Ec2Threshold),
      FlaggedIds(inventory.databases, RdsThreshold),
      inventory.s3Buckets)
  }

  /** An account's EC2 category lists exactly the instances flagged at the EC2
      default, and its RDS category exactly the databases flagged at the RDS
      default. */
  lemma AccountScanMembers(inventory: Inventory, id: string)
    ensures id in AccountScan(inventory).ec2 <==>
      exists r :: r in Flatten(inventory.reservations) && r.id == id && Underutilized(r.datapoints, Ec2Threshold)
    ensures id in AccountScan(inventory).rds <==>
      exists r :: r in inventory.databases && r.id == id && Underutilized(r.datapoints, RdsThreshold)
  {
    FlaggedIdsContain(Flatten(inventory.reservations), Ec2Threshold, id);
    FlaggedIdsContain(inventory.databases, RdsThreshold, id);
  }

  predicate NoDuplicates(s: seq<string>)
  {
    forall i, j :: 0 <= i < j < |s| ==> s[i] != s[j]
  }

  /** The ids in the order a dictionary first sees them as keys. */
  function KeyOrder(ids: seq<string>): (order: seq<string>)
    ensures NoDuplicates(order)
    ensures forall a :: a in order <==> a in ids
    ensures |order| <= |ids|
  {
    if ids == [] then []
    else
      var before := KeyOrder(ids[..|ids| - 1]);
      var last := ids[|ids| - 1];
      if last in before then before else before + [last]
  }

  /** One account's category dictionary, built from its scans. */
  method ScanAccount(inventory: Inventory) returns (recommendations: Recommendations)
    ensures recommendations == AccountScan(inventory)
  {
    var ec2 := LowUtilizationEc2(inventory.reservations, Ec2Threshold);
    var rds := LowUtilizationRds(inventory.databases, RdsThreshold);
    recommendations := Recommendations(ec2, rds, inventory.s3Buckets);
  }

  /** The loop over the accounts: scan each one and store its recommendations
      under its id, a repeated id overwriting its earlier entry in place. */
  method CollectRecommendations(accounts: seq<string>, inventoryOf: string -> Inventory)
    returns (order: seq<string>, report: map<string, Recommendations>)
    ensures order == KeyOrder(accounts)
    ensures forall a :: a in report <==> a in accounts
    ensures forall a :: a in report ==> report[a] == AccountScan(inventoryOf(a))
  {
    order, report := [], map[];
    for i := 0 to |accounts|
      invariant order == KeyOrder(accounts[..i])
      invariant forall a :: a in report <==> a in accounts[..i]
      invariant forall a :: a in report ==> report[a] == AccountScan(inventoryOf(a))
    {
      var accountId := accounts[i];
      var recommendations := ScanAccount(inventoryOf(accountId));
      KeyOrderStep(accounts, i);
      if accountId !in report {
        order := order + [accountId];
      }
      report := report[accountId := recommendations];
    }
    assert accounts[..|accounts|] == accounts;
  }

  /** `lambda_handler` up to the notification: returns the recommendation
      dictionary (its key order and its entries) and the message published. */
  method LambdaHandler(input: AccountIds, caller: string, inventoryOf: string -> Inventory, presignedUrl: string)
    returns (order: seq<string>, report: map<string, Recommendations>, message: string)
    ensures order == KeyOrder(NormalizeAccounts(input, caller))
    ensures order != [] && NoDuplicates(order)
    ensures forall a :: a in report <==> a in NormalizeAccounts(input, caller)
    ensures forall a :: a in report ==> report[a] == AccountScan(inventoryOf(a))
    ensures forall a :: a in order ==> a in report
    ensures message == NotificationMessage(order, report, presignedUrl)
  {
    var accounts := NormalizeAccounts(input, caller);
    order, report := CollectRecommendations(accounts, inventoryOf);
    message := NotificationMessage(order, report, presignedUrl);
  }

  lemma KeyOrderStep(ids: seq<string>, i: nat)
    requires i < |ids|
    ensures KeyOrder(ids[..i + 1])
      == if ids[i] in ids[..i] then KeyOrder(ids[..i]) else KeyOrder(ids[..i]) + [ids[i]]
    ensures forall a :: a in ids[..i + 1] <==> a in ids[..i] || a == ids[i]
  {
    assert ids[..i + 1] == ids[..i] + [ids[i]];
    assert ids[..i + 1][..i] == ids[..i];
  }
}
