/**
  The text of the SNS notification: each category rendered as its name and a
  bulleted list (or "No optimizations found"), the blocks joined by newlines,
  the result cut to the message-size limit with a marker appended, and the
  whole framed by a header and the report link.
 */
module Notification {
  import opened Report

  const NoRecommendations := "No cost optimization recommendations found."
  const NoOptimizations := "No optimizations found"
  const Bullet := "\n  - "

  /** The longest formatted text sent as it is, and what replaces the rest. */
  const MaxSummaryLength: nat := 250000
  const TruncationMarker := "\n\n[Message Truncated]"

  const Header := "AWS Cost Optimization Recommendations:\n\n"
  const LinkIntro := "\n\n\U{1F4CE} Download the full report (valid for 1 hour):\n"

  /** Python's `sep.join(parts)`; the joined text starts with the first part. */
  function Join(sep: string, parts: seq<string>): (joined: string)
    ensures parts != [] ==> |parts[0]| <= |joined| && joined[..|parts[0]|] == parts[0]
  {
    if parts == [] then ""
    else if |parts| == 1 then parts[0]
    else parts[0] + sep + Join(sep, parts[1..])
  }

  /** One category: its name, then each item on a bulleted line, or the
      "No optimizations found" bullet when it has none. The block opens with the
      name and the first bullet, and the first item follows it directly. */
  function CategoryBlock(category: string, items: seq<string>): (block: string)
    ensures |category| + 1 + |Bullet| <= |block|
    ensures block[..|category| + 1 + |Bullet|] == category + ":" + Bullet
    ensures items == [] ==> block[|category| + 1 + |Bullet|..] == NoOptimizations
    ensures items != [] ==> IsAt(block, items[0], |category| + 1 + |Bullet|)
  {
    if items != [] then category + ":" + Bullet + Join(Bullet, items)
    else category + ":" + Bullet + NoOptimizations
  }

  function Blocks(entries: seq<(string, seq<string>)>): (blocks: seq<string>)
    ensures |blocks| == |entries|
    ensures forall k :: 0 <= k < |entries| ==> blocks[k] == CategoryBlock(entries[k].0, entries[k].1)
  {
    if entries == [] then [] else [CategoryBlock(entries[0].0, entries[0].1)] + Blocks(entries[1..])
  }

  /** The formatting of `send_notification`: a fixed sentence for an empty
      message, otherwise the category blocks one per line, the first block at
      the start. */
  function FormatMessage(entries: seq<(string, seq<string>)>): (text: string)
    ensures entries == [] ==> text == NoRecommendations
    ensures entries != [] ==> IsAt(text, CategoryBlock(entries[0].0, entries[0].1), 0)
  {
    if entries == [] then NoRecommendations else Join("\n", Blocks(entries))
  }

  /** The cut to the message-size limit. */
  function Truncate(text: string): (r: string)
    ensures |text| <= MaxSummaryLength ==> r == text
    ensures |text| > MaxSummaryLength ==>
      |r| == MaxSummaryLength + |TruncationMarker|
      && r[..MaxSummaryLength] == text[..MaxSummaryLength]
      && r[MaxSummaryLength..] == TruncationMarker
    ensures |r| <= MaxSummaryLength + |TruncationMarker|
  {
    if |text| > MaxSummaryLength then text[..MaxSummaryLength] + TruncationMarker else text
  }

  /** The message published: header, the (truncated) summary, the link. */
  function NotificationBody(summary: string, url: string): (body: string)
    ensures |body| == |Header| + |summary| + |LinkIntro| + |url|
    ensures body[..|Header|] == Header
    ensures body[|Header|..|Header| + |summary|] == summary
    ensures body[|Header| + |summary|..|body| - |url|] == LinkIntro
    ensures body[|body| - |url|..] == url
  {
    Header + summary + LinkIntro + url
  }

  // ---------------------------------------------------------------------------
  // The text built from a scan report, as written and as evidently intended

  /** As written: `send_notification` receives the account dictionary, so each
      "category" is an account id and its "items" are the keys of that
      account's category dictionary, the three category names. The text opens
      with the first account id, whose first bullet is the EC2 category name. */
  function SummaryAsWritten(order: seq<string>, report: map<string, Recommendations>): (text: string)
    requires forall a :: a in order ==> a in report
    ensures order == [] ==> text == NoRecommendations
    ensures order != [] ==> IsAt(text, order[0] + ":" + Bullet + Ec2Category, 0)
  {
    FormatMessage(seq(|order|, k requires 0 <= k < |order| => (order[k], CategoryKeys(report[order[k]]))))
  }

  /** One account's part of the intended summary: its id, then its categories. */
  function AccountSection(account: string, rec: Recommendations): string
  {
    account + ":\n" + FormatMessage(Categories(rec))
  }

  function Sections(order: seq<string>, report: map<string, Recommendations>): (sections: seq<string>)
    requires forall a :: a in order ==> a in report
    ensures |sections| == |order|
    ensures forall k :: 0 <= k < |order| ==> sections[k] == AccountSection(order[k], report[order[k]])
  {
    if order == [] then [] else [AccountSection(order[0], report[order[0]])] + Sections(order[1..], report)
  }

  /** Intended: every account's categories formatted with their items. */
  function Summary(order: seq<string>, report: map<string, Recommendations>): string
    requires forall a :: a in order ==> a in report
  {
    if order == [] then NoRecommendations else Join("\n", Sections(order, report))
  }

  /** The message built around the corrected summary for a scan report and a
      report link: however large the report, it opens with the header and its
      length stays within the limit plus the fixed framing. */
  function NotificationMessage(order: seq<string>, report: map<string, Recommendations>, url: string): (message: string)
    requires forall a :: a in order ==> a in report
    ensures IsAt(message, Header, 0)
    ensures |message| <= |Header| + MaxSummaryLength + |TruncationMarker| + |LinkIntro| + |url|
  {
    NotificationBody(Truncate(Summary(order, report)), url)
  }

  // ---------------------------------------------------------------------------
  // Substrings

  predicate IsAt(text: string, part: string, i: int)
  {
    0 <= i && i + |part| <= |text| && text[i..i + |part|] == part
  }

  ghost predicate Contains(text: string, part: string)
  {
    exists i :: IsAt(text, part, i)
  }

  lemma ContainsMiddle(a: string, b: string, c: string)
    ensures Contains(a + b + c, b)
  {
    assert (a + b + c)[|a|..|a| + |b|] == b;
    assert IsAt(a + b + c, b, |a|);
  }

  lemma ContainsTransitive(x: string, y: string, z: string)
    requires Contains(x, y) && Contains(y, z)
    ensures Contains(x, z)
  {
    var i :| IsAt(x, y, i);
    var j :| IsAt(y, z, j);
    var inner := x[i..i + |y|][j..j + |z|];
    var direct := x[i + j..i + j + |z|];
    forall t | 0 <= t < |z|
      ensures inner[t] == direct[t]
    {
    }
    assert inner == direct;
    assert IsAt(x, z, i + j);
  }

  /** Each part of a join appears in it. */
  lemma {:induction false} JoinContains(sep: string, parts: seq<string>, k: nat)
    requires k < |parts|
    ensures Contains(Join(sep, parts), parts[k])
  {
    if |parts| == 1 {
      ContainsMiddle("", parts[0], "");
      assert "" + parts[0] + "" == parts[0];
    } else if k == 0 {
      ContainsMiddle("", parts[0], sep + Join(sep, parts[1..]));
      assert "" + parts[0] + (sep + Join(sep, parts[1..])) == Join(sep, parts);
    } else {
      JoinContains(sep, parts[1..], k - 1);
      ContainsMiddle(parts[0] + sep, Join(sep, parts[1..]), "");
      assert parts[0] + sep + Join(sep, parts[1..]) + "" == Join(sep, parts);
      ContainsTransitive(Join(sep, parts), Join(sep, parts[1..]), parts[k]);
    }
  }

  // ---------------------------------------------------------------------------
  // Properties of the formatting

  /** An empty category gets the "No optimizations found" bullet; a non-empty
      one lists each of its items. */
  lemma CategoryBlockContents(category: string, items: seq<string>)
    ensures items == [] ==> CategoryBlock(category, items) == category + ":" + Bullet + NoOptimizations
    ensures CategoryBlock(category, items)[..|category| + 1 + |Bullet|] == category + ":" + Bullet
    ensures forall k :: 0 <= k < |items| ==> Contains(CategoryBlock(category, items), items[k])
  {
    forall k | 0 <= k < |items|
      ensures Contains(CategoryBlock(category, items), items[k])
    {
      JoinContains(Bullet, items, k);
      ContainsMiddle(category + ":" + Bullet, Join(Bullet, items), "");
      assert category + ":" + Bullet + Join(Bullet, items) + "" == CategoryBlock(category, items);
      ContainsTransitive(CategoryBlock(category, items), Join(Bullet, items), items[k]);
    }
  }

  /** An empty message gives the fixed sentence; otherwise every category block
      appears in the text. */
  lemma FormatMessageContents(entries: seq<(string, seq<string>)>)
    ensures entries == [] ==> FormatMessage(entries) == NoRecommendations
    ensures forall k :: 0 <= k < |entries| ==>
      Contains(FormatMessage(entries), CategoryBlock(entries[k].0, entries[k].1))
  {
    forall k | 0 <= k < |entries|
      ensures Contains(FormatMessage(entries), CategoryBlock(entries[k].0, entries[k].1))
    {
      JoinContains("\n", Blocks(entries), k);
    }
  }

  /** Truncating twice is truncating once. */
  lemma TruncateIdempotent(text: string)
    ensures Truncate(Truncate(text)) == Truncate(text)
  {
    if |text| > MaxSummaryLength {
      var once := Truncate(text);
      assert once[..MaxSummaryLength] + TruncationMarker == once;
    }
  }

  /** As written, the summary does not depend on the recommendations at all:
      two reports over the same accounts give the same text. */
  lemma SummaryAsWrittenIgnoresFindings(order: seq<string>, r1: map<string, Recommendations>, r2: map<string, Recommendations>)
    requires forall a :: a in order ==> a in r1 && a in r2
    ensures SummaryAsWritten(order, r1) == SummaryAsWritten(order, r2)
  {
    var e1 := seq(|order|, k requires 0 <= k < |order| => (order[k], CategoryKeys(r1[order[k]])));
    var e2 := seq(|order|, k requires 0 <= k < |order| => (order[k], CategoryKeys(r2[order[k]])));
    assert e1 == e2;
  }

  /** As written, an account with a flagged instance yields only the three
      category names under its id: the instance id is nowhere in the text. */
  lemma SummaryAsWrittenExample()
    ensures SummaryAsWritten(["111"], map["111" := Recommendations(["i-0abc"], [], [])])
      == "111" + ":" + Bullet + Ec2Category + Bullet + RdsCategory + Bullet + S3Category
  {
    var report := map["111" := Recommendations(["i-0abc"], [], [])];
    var names := [Ec2Category, RdsCategory, S3Category];
    var entries := seq(1, k requires 0 <= k < 1 => (["111"][k], CategoryKeys(report[["111"][k]])));
    assert entries == [("111", names)];
    assert Join(Bullet, names[2..]) == S3Category;
    assert Join(Bullet, names[1..]) == RdsCategory + Bullet + S3Category;
    assert Join(Bullet, names) == Ec2Category + Bullet + (RdsCategory + Bullet + S3Category);
    assert Blocks(entries) == [CategoryBlock("111", names)];
  }

  /** An account with nothing to report: as written, its id and the three
      category names, the same text as for an account with a flagged instance;
      corrected, each category with the "No optimizations found" bullet. */
  lemma EmptyAccountExample()
    ensures SummaryAsWritten(["111"], map["111" := Recommendations([], [], [])])
      == "111" + ":" + Bullet + Ec2Category + Bullet + RdsCategory + Bullet + S3Category
    ensures Summary(["111"], map["111" := Recommendations([], [], [])])
      == "111" + ":\n" + EmptyCategories()
  {
    SummaryAsWrittenIgnoresFindings(["111"], map["111" := Recommendations([], [], [])],
      map["111" := Recommendations(["i-0abc"], [], [])]);
    SummaryAsWrittenExample();
    EmptyCategoriesText();
    assert Sections(["111"], map["111" := Recommendations([], [], [])])
      == ["111" + ":\n" + FormatMessage(Categories(Recommendations([], [], [])))];
  }

  /** The corrected text of an account's three empty categories. */
  function EmptyCategories(): string
  {
    Ec2Category + ":" + Bullet + NoOptimizations + "\n"
      + (RdsCategory + ":" + Bullet + NoOptimizations + "\n"
      + (S3Category + ":" + Bullet + NoOptimizations))
  }

  lemma EmptyCategoriesText()
    ensures FormatMessage(Categories(Recommendations([], [], []))) == EmptyCategories()
  {
    var blocks := Blocks(Categories(Recommendations([], [], [])));
    assert blocks == [Ec2Category + ":" + Bullet + NoOptimizations,
      RdsCategory + ":" + Bullet + NoOptimizations, S3Category + ":" + Bullet + NoOptimizations];
    assert Join("\n", blocks[2..]) == blocks[2];
    assert Join("\n", blocks[1..]) == blocks[1] + "\n" + blocks[2];
  }

  /** An account's section names the account and lists every item of each of
      its categories. */
  lemma SectionListsItems(account: string, rec: Recommendations, c: nat, item: string)
    requires c < 3 && item in Categories(rec)[c].1
    ensures Contains(AccountSection(account, rec), account + ":\n")
    ensures Contains(AccountSection(account, rec), item)
  {
    HeadedListsItems(account + ":\n", Categories(rec), c, item);
  }

  lemma HeadedListsItems(heading: string, entries: seq<(string, seq<string>)>, c: nat, item: string)
    requires c < |entries| && item in entries[c].1
    ensures Contains(heading + FormatMessage(entries), heading)
    ensures Contains(heading + FormatMessage(entries), item)
  {
    var block := CategoryBlock(entries[c].0, entries[c].1);
    var i :| 0 <= i < |entries[c].1| && entries[c].1[i] == item;
    CategoryBlockContents(entries[c].0, entries[c].1);
    FormatMessageContents(entries);
    ContainsTransitive(FormatMessage(entries), block, item);
    HeadedContains(heading, FormatMessage(entries), item);
  }

  /** Text under a heading keeps the heading and every part of the text. */
  lemma HeadedContains(heading: string, text: string, part: string)
    requires Contains(text, part)
    ensures Contains(heading + text, heading)
    ensures Contains(heading + text, part)
  {
    ContainsMiddle("", heading, text);
    assert "" + heading + text == heading + text;
    ContainsMiddle(heading, text, "");
    assert heading + text + "" == heading + text;
    ContainsTransitive(heading + text, text, part);
  }

  /** Intended: every account id and every item of every category of every
      account appears in the summary. */
  lemma SummaryListsFindings(order: seq<string>, report: map<string, Recommendations>, k: nat, c: nat, item: string)
    requires forall a :: a in order ==> a in report
    requires k < |order| && c < 3
    requires item in Categories(report[order[k]])[c].1
    ensures Contains(Summary(order, report), order[k] + ":\n")
    ensures Contains(Summary(order, report), item)
  {
    var section := AccountSection(order[k], report[order[k]]);
    JoinContains("\n", Sections(order, report), k);
    SectionListsItems(order[k], report[order[k]], c, item);
    ContainsTransitive(Summary(order, report), section, order[k] + ":\n");
    ContainsTransitive(Summary(order, report), section, item);
  }

  /** The published message carries the summary whole after the header. */
  lemma BodyCarriesSummary(summary: string, url: string)
    ensures Contains(NotificationBody(summary, url), summary)
  {
    ContainsMiddle(Header, summary, LinkIntro + url);
    assert Header + summary + (LinkIntro + url) == NotificationBody(summary, url);
  }

  /** End to end: when the summary fits the limit, the published message names
      every flagged resource. */
  lemma MessageListsFindings(order: seq<string>, report: map<string, Recommendations>, url: string, k: nat, c: nat, item: string)
    requires forall a :: a in order ==> a in report
    requires k < |order| && c < 3
    requires item in Categories(report[order[k]])[c].1
    requires |Summary(order, report)| <= MaxSummaryLength
    ensures Contains(NotificationMessage(order, report, url), item)
  {
    var summary := Summary(order, report);
    SummaryListsFindings(order, report, k, c, item);
    assert Truncate(summary) == summary;
    BodyCarriesSummary(summary, url);
    ContainsTransitive(NotificationBody(summary, url), summary, item);
  }
}
