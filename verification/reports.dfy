/** The two replies built from the statistics record: `/stats`
    (`sendUsageStats`) and `/top_languages` (`sendTopLanguages`). */
module Reports {
  import opened Text
  import opened Replies
  import opened Usage
  import opened Ranking

  /** One line per counter: the code in monospace and its count. */
  function CountLine(e: Entry): string {
    "`" + e.code + "`: " + Decimal(e.count) + " translations\n"
  }

  function CountLines(es: seq<Entry>): (lines: seq<string>)
    ensures |lines| == |es|
    ensures forall i :: 0 <= i < |es| ==> lines[i] == CountLine(es[i])
  {
    if es == [] then [] else CountLines(es[..|es| - 1]) + [CountLine(es[|es| - 1])]
  }

  const UsageHeader := "*Usage Statistics*:\nTotal Translations: "
  const TopHeader := "*Top Translated Languages*:\n"

  /** The statistics part of `/stats`: the total (0 when there is no record)
      and, when there is a record, one line per counter in iteration order;
      `system` is the system-statistics part that follows it. */
  function UsageText(doc: Option<Snapshot>, system: string): string
    requires doc.Some? ==> WellFormed(doc.value)
  {
    match doc
    case None => UsageHeader + Decimal(0) + "\n" + system
    case Some(s) => UsageHeader + Decimal(s.totalTranslations) + "\n" + Concat(CountLines(Entries(s))) + system
  }

  /** The `for … of` / `forEach` loop that appends one line per entry to a
      message. */
  method AppendCountLines(head: string, entries: seq<Entry>) returns (message: string)
    ensures message == head + Concat(CountLines(entries))
  {
    ghost var lines := CountLines(entries);
    message := head;
    var i := 0;
    while i < |entries|
      invariant 0 <= i <= |entries|
      invariant message == head + Concat(lines[..i])
    {
      ConcatSnoc(head, lines, i);
      message := message + CountLine(entries[i]);
      i := i + 1;
    }
    assert lines[..i] == lines;
  }

  /** `sendUsageStats`, the statistics part built line by line. */
  method UsageReport(doc: Option<Snapshot>, system: string) returns (reply: Reply)
    requires doc.Some? ==> WellFormed(doc.value)
    ensures reply == Markdown(UsageText(doc, system))
  {
    var message := UsageHeader + Decimal(if doc.Some? then doc.value.totalTranslations else 0) + "\n";
    if doc.Some? {
      message := AppendCountLines(message, Entries(doc.value));
    }
    reply := Markdown(message + system);
  }

  /** The `/top_languages` reply. */
  function TopLanguagesText(doc: Option<Snapshot>): Reply
    requires doc.Some? ==> WellFormed(doc.value)
  {
    match doc
    case None => Plain(NoDataMessage)
    case Some(s) => Markdown(TopHeader + Concat(CountLines(TopEntries(s))))
  }

  /** `sendTopLanguages`: no record gives the no-data message; otherwise the
      header and one line for each of the (at most five) highest counters. */
  method TopLanguagesReport(doc: Option<Snapshot>) returns (reply: Reply)
    requires doc.Some? ==> WellFormed(doc.value)
    ensures doc.None? <==> reply == Plain(NoDataMessage)
    ensures reply == TopLanguagesText(doc)
  {
    if doc.None? {
      return Plain(NoDataMessage);
    }
    var message := AppendCountLines(TopHeader, TopEntries(doc.value));
    reply := Markdown(message);
  }
}
