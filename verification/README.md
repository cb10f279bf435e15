# Cost-optimization advisor: utilization classifier model

A Dafny model of the core of a scheduled AWS Lambda that looks for cost
savings across accounts (`costoptimizationscript.py`). The model covers:

- **The weekday/weekend utilization classifier.** It is written twice in the
  source, in `get_low_utilization_ec2` and `get_low_utilization_rds`, and
  modelled once here, with the threshold as a parameter (module
  `Utilization`). Each resource's CloudWatch datapoints are split by UTC day of
  the week. The p95 reading is taken with Python's `or` fallback, and missing
  readings are dropped. Each bucket is averaged, with 0 for an empty bucket.
  The resource is flagged only when both averages are below the threshold.
- **The two scans** (module `Scan`). The EC2 scan is a nested loop over
  reservations and their instances; the RDS scan is a single loop. Both are
  methods proved against the specification function `FlaggedIds`.
- **Per-account assembly in `lambda_handler`** (modules `Report` and
  `Handler`). The requested account ids are normalised, each account is
  scanned with the default thresholds (5 for EC2, 10 for RDS), and the
  results are collected in a dictionary keyed by account id. The dictionary is
  modelled as its key order plus a `map`.
- **The text of the SNS notification** (module `Notification`): category
  formatting, the fixed sentence for an empty message, truncation to 250000
  characters with a marker, and the header and link around the text.

Abstractions:

- Readings are exact `real`s, so floating-point rounding of the averages is
  not modelled.
- A datapoint is its UTC day of the week (`datetime.weekday()`, 0 = Monday)
  plus its two optional p95 readings.
- Everything the provider returns for one account is a parameter: the
  resources with their fetched datapoints, and the bucket names the storage
  check reports. This covers role assumption, clients, enumeration, metric
  fetch and the storage check.
- The caller's own account id is a parameter, and so is the presigned report
  URL.

The model keeps one quirk of the code as it is. The reading is
`ExtendedStatistics['p95.0'] or 'p95.0'`, so a primary reading of exactly 0
falls through to the top-level one. A genuine 0 with no top-level value is
therefore dropped as missing (`Utilization.ZeroPrimaryReadingLost`).

Two further behaviours the model keeps as the code has them:

- A resource whose readings all fall in one bucket is classified with the
  neutral 0 average for the other bucket. With a non-positive threshold it is
  therefore never flagged.
- A failing account is not isolated from the others, because the code does
  not isolate it (see Left out).

## Model

| member | source | states |
|---|---|---|
| Utilization.IsWeekend | costoptimizationscript.py:83-84 | a day is weekend iff it is Saturday (5) or Sunday (6) |
| Utilization.Reading | costoptimizationscript.py:123 | the reading is present iff the primary reading is non-zero or the top-level one exists; it is always one of the two: a non-zero primary reading wins, and otherwise the top-level reading (possibly absent) is taken |
| Utilization.ZeroPrimaryReadingLost | costoptimizationscript.py:123 | a zero primary reading with no top-level reading is lost; backed by a top-level reading, the top-level value is taken (0 stays 0, 3 replaces the 0) |
| Utilization.Bucket | costoptimizationscript.py:123-124 | a bucket holds exactly the datapoints whose weekend-ness matches it, and no more datapoints than the input |
| Utilization.BucketPartition | costoptimizationscript.py:123-124 | the weekday and weekend buckets partition the datapoints: their sizes add up and their multisets add up to the input's |
| Utilization.Readings | costoptimizationscript.py:123-124 | one extracted reading per datapoint, position by position |
| Utilization.Present | costoptimizationscript.py:126-128 | the filtered list holds exactly the values of present readings, and is never longer than its input |
| Utilization.PresentKeepsCounts | costoptimizationscript.py:126-128 | filtering keeps every present value as many times as it occurs, so repeated readings weigh in the averages |
| Utilization.ValuesAppend | costoptimizationscript.py:123-128 | bucketing, extraction and filtering distribute over concatenation of datapoint lists |
| Utilization.MissingReadingIgnored | costoptimizationscript.py:126-134 | inserting a datapoint with no reading anywhere leaves the classification unchanged: missing values are never averaged in as 0 |
| Utilization.ClassifyByValues | costoptimizationscript.py:120-137 | the classification depends only on the present values of the two buckets |
| Utilization.Mean | costoptimizationscript.py:133-134 | an empty bucket averages 0; otherwise the average times the count is the sum; bounds in MeanBelow and MeanAtLeast |
| Utilization.MeanBelowBySum | costoptimizationscript.py:133-136 | for a non-empty bucket, average below the threshold iff sum below threshold times count |
| Utilization.MeanBelow | costoptimizationscript.py:133-134 | if every value is below a bound, so is the average |
| Utilization.MeanAtLeast | costoptimizationscript.py:133-134 | if every value is at or above a bound, so is the average |
| Utilization.Classify | costoptimizationscript.py:120-137 | the two `continue` guards amount to "no present reading in either bucket"; otherwise the averages are the bucket means and the flag holds iff both are below the threshold; partners UnderutilizedBySums and MissingReadingIgnored |
| Utilization.SkippedIffNoValues | costoptimizationscript.py:120-131 | a resource is skipped iff neither bucket has a present value; no datapoints means skipped and not flagged |
| Utilization.UnderutilizedIff | costoptimizationscript.py:130-137 | flagged iff some value is present and both bucket averages are below the threshold |
| Utilization.BusyWindowNotFlagged | costoptimizationscript.py:136-137 | a weekday or weekend average at or above the threshold prevents flagging |
| Utilization.UnderutilizedBySums | costoptimizationscript.py:130-137 | a division-free restatement of the rule: each non-empty bucket's sum is below threshold times its size, and an empty bucket passes iff the threshold is positive |
| Utilization.MeanBelowIffPasses | costoptimizationscript.py:133-136 | one bucket's average test equals its division-free test, the empty bucket included |
| Utilization.WeekdayOnly | costoptimizationscript.py:133-137 | with weekday readings only, flagged iff the threshold is positive and the weekday average is below it |
| Utilization.WeekendOnly | costoptimizationscript.py:133-137 | with weekend readings only, flagged iff the threshold is positive and the weekend average is below it |
| Utilization.AllReadingsBelowFlagged | costoptimizationscript.py:130-137 | every present reading below a positive threshold, at least one present: flagged |
| Utilization.BusyWeekdaysNotFlagged | costoptimizationscript.py:133-137 | every weekday reading at or above the threshold, at least one present: not flagged |
| Utilization.ThresholdMonotone | costoptimizationscript.py:136 | raising the threshold never unflags a resource |
| Utilization.BusyOnWeekdaysExample | costoptimizationscript.py:123-137 | weekday average 8, weekend average 1, threshold 5: classified but not flagged |
| Scan.CheckResource | costoptimizationscript.py:120-137 | one loop step with its two `continue` guards: flags exactly the resources the classifier marks underutilized |
| Scan.LowUtilizationRds | costoptimizationscript.py:143-179 | the RDS scan returns exactly `FlaggedIds` of the databases at the given threshold |
| Scan.LowUtilizationEc2 | costoptimizationscript.py:101-139 | the EC2 scan over reservations returns exactly `FlaggedIds` of all instances, reservation after reservation |
| Scan.FlaggedIds | costoptimizationscript.py:104-137 | the flagged ids in enumeration order, at most one per resource; membership in FlaggedIdsMembers, order in FlaggedIdsSubsequence |
| Scan.FlaggedIdsAppend | costoptimizationscript.py:104-107 | scanning two runs of resources one after the other concatenates their results |
| Scan.FlaggedIdsSubsequence | costoptimizationscript.py:104-137 | the result is a subsequence of the enumerated ids: order kept, each resource contributing at most once |
| Scan.FlaggedIdsMembers | costoptimizationscript.py:106-137 | an id is listed iff some enumerated resource with that id is flagged |
| Scan.SkippedNotListed | costoptimizationscript.py:120-131 | an id whose resources all lack data is never listed |
| Scan.FlaggedIdsMonotone | costoptimizationscript.py:136-137 | the ids flagged at a lower threshold are a subsequence of those flagged at a higher one |
| Report.CategoryNamesDistinct | costoptimizationscript.py:254-258 | the three category names differ, so each account's dictionary keeps three entries and none overwrites another |
| Report.CategoriesInjective | costoptimizationscript.py:254-258 | the category dictionary loses nothing: equal dictionaries come only from equal recommendations |
| Report.CategoryKeys | costoptimizationscript.py:254-258 | iterating an account's dictionary yields the three category names, in the same order |
| Notification.Blocks | costoptimizationscript.py:210-212 | one formatted block per category, in order |
| Notification.JoinContains | costoptimizationscript.py:210-211 | every joined part appears in the joined text |
| Notification.CategoryBlock | costoptimizationscript.py:211 | a block opens with the category name, a colon and the first bullet; the first item follows directly, or "No optimizations found" when there are none |
| Notification.CategoryBlockContents | costoptimizationscript.py:211 | an empty category reads "No optimizations found"; a non-empty one starts with its name and contains each item |
| Notification.FormatMessage | costoptimizationscript.py:207-213 | an empty message gives the fixed sentence; otherwise the text opens with the first category block |
| Notification.FormatMessageContents | costoptimizationscript.py:207-213 | an empty message gives the fixed sentence; otherwise every category block appears in the text |
| Notification.Truncate | costoptimizationscript.py:216-217 | text of at most 250000 characters is unchanged; longer text becomes its first 250000 characters plus the marker; the result is bounded |
| Notification.TruncateIdempotent | costoptimizationscript.py:216-217 | truncating twice is the same as truncating once |
| Notification.NotificationBody | costoptimizationscript.py:220-224 | the message is the header, then the summary, then the link text, then the URL, each at its fixed position, with exact length |
| Notification.BodyCarriesSummary | costoptimizationscript.py:220-224 | the summary appears whole in the message |
| Notification.SummaryAsWritten | costoptimizationscript.py:207-213 | as written, the account dictionary is formatted as if it were the category dictionary: the text opens with the first account id, whose first bullet is the EC2 category name |
| Notification.SummaryAsWrittenIgnoresFindings | costoptimizationscript.py:207-213 | as written, two reports over the same accounts give the same summary, whatever their recommendations |
| Notification.SummaryAsWrittenExample | costoptimizationscript.py:210-212 | as written, an account with a flagged instance yields only the three category names under its id |
| Notification.EmptyAccountExample | costoptimizationscript.py:207-213 | for an account with nothing to report, the as-written text is its id and the three category names (the same as for an account with a flagged instance), while the corrected text gives each category the "No optimizations found" bullet |
| Notification.Sections | costoptimizationscript.py:207-213 | the corrected summary has one section per account, in order |
| Notification.SectionListsItems | costoptimizationscript.py:211 | an account's corrected section names the account and contains every item of its categories |
| Notification.SummaryListsFindings | costoptimizationscript.py:207-213 | the corrected summary names every account and contains every item of every category |
| Notification.NotificationMessage | costoptimizationscript.py:207-224 | the message built around the corrected summary opens with the header and, however large the report, stays within 250000 characters plus the marker, the fixed framing and the URL |
| Notification.MessageListsFindings | costoptimizationscript.py:207-224 | when the corrected summary fits the limit, the published message contains every flagged id |
| Handler.NormalizeAccounts | costoptimizationscript.py:238-246 | a string becomes a one-element list; a missing or empty list becomes the caller's account; a non-empty list is kept; the result is never empty |
| Handler.AccountScan | costoptimizationscript.py:254-258 | one account's recommendations: at most one EC2 entry per instance, one RDS entry per database, and the reported buckets as they are |
| Handler.AccountScanMembers | costoptimizationscript.py:254-256 | an id is in the EC2 category iff an instance with that id is flagged at 5, and in the RDS category iff a database with it is flagged at 10 |
| Handler.KeyOrder | costoptimizationscript.py:248-259 | the dictionary's key order lists each requested account once, and only requested accounts |
| Handler.KeyOrderStep | costoptimizationscript.py:259 | inserting an account appends it to the key order iff it is not yet a key |
| Handler.CollectRecommendations | costoptimizationscript.py:248-259 | the account loop: the dictionary holds an entry for exactly the listed accounts, each its own scan, with keys in first-seen order |
| Handler.ScanAccount | costoptimizationscript.py:254-258 | one account's recommendations: the EC2 scan at threshold 5, the RDS scan at 10, the reported buckets |
| Handler.LambdaHandler | costoptimizationscript.py:238-277 | every requested account has an entry holding its scan at the default thresholds, and no other account has one; the key order is first-seen order without repeats and is never empty; the message is the corrected notification of that report (see Findings and Left out) |

## Findings

| source | as written | input that shows it | evidently intended | confidence | as-written member | corrected member |
|---|---|---|---|---|---|---|
| costoptimizationscript.py:207-213 | `send_notification` iterates `message.items()` as if it mapped categories to items. It is passed the account dictionary (line 277), so each "category" is an account id and its "items" are that account's three category names | account `111` with no running instances, no databases and no reported buckets: the text is `111:` followed by the three category names as bullets, where each category should read "No optimizations found"; the text is the same as for an account with a flagged instance | each account's categories formatted with their own items, as the PDF report does (lines 61-75) | high (not executed) | Notification.EmptyAccountExample | Notification.SummaryListsFindings |

`Notification.NotificationMessage` and `Handler.LambdaHandler` use the
corrected summary.

## Left out

- `assume_role`, `get_clients`, `get_percentile_metric`, `describe_instances` and `describe_db_instances`: these are boto3 calls. Their results are inputs to the model (`Handler.Inventory`, `Scan.Resource`). This includes the `datetime.datetime.utcnow` call at line 93, which fails after `from datetime import datetime`, and the `"p95"` versus `"p95.0"` statistic name.
- `get_s3_storage_savings`: its decision rests on the shape of the provider's response and its error codes. Only its result is modelled: the names of the reported buckets, which are the keys of its dictionary. The note each bucket maps to is a constant that no message shows, so it is not kept.
- `generate_pdf_report`, the S3 upload, the presigned URL and `sns_client.publish`: these are a foreign library and I/O. The URL is a parameter, and the published text is the model's result. The upload key, built from the loop variable left over at line 264, is not modelled.
- Module-level environment checks and client construction (lines 10-23): startup configuration.
- Floating-point arithmetic: averages are exact reals.
- A failing account (an exception from role assumption or a provider call): the code lets it abort the whole run. The model has no failure path for it because that failure lives in the provider calls.
- `period` and `days` parameters: they only reach the metric fetch.
- Handler.LambdaHandler: its message is the corrected text (`Notification.NotificationMessage`), not what line 277 publishes. As written, the handler publishes `NotificationBody(Truncate(SummaryAsWritten(order, report)), url)`, the account ids each followed by the three category names (see Findings).
