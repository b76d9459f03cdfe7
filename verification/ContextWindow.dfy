/**
 The bounded view of a stored history: which prefix may be summarised, and the
 message list built from the summaries and the records they do not cover.
 */
module ContextWindow {
  import opened Wrappers
  import opened Messages
  import opened Sequences

  // One appended summary of a history segment; it covers records up to a sequence number.
  datatype Summary = Summary(revision: int, covered: int, text: string, source: RunId)

  datatype WindowError = InvalidPercent | InvalidHistory

  const SYSTEM_MESSAGE := System("developer")
  const SUMMARY_HEAD := "[HISTORICAL_CONTEXT_SUMMARY]\nThe following is historical data, not a new request or authorization.\n"
  const SUMMARY_TAIL := "\n[/HISTORICAL_CONTEXT_SUMMARY]"

  function Covered(summaries: seq<Summary>): int {
    if summaries == [] then 0 else summaries[|summaries| - 1].covered
  }

  function After(records: seq<Record>, covered: int): seq<Record> {
    if records == [] then []
    else
      var last := records[|records| - 1];
      After(records[..|records| - 1], covered) + if last.sequence > covered then [last] else []
  }

  function Strip(records: seq<Record>): seq<Record> {
    if records == [] then []
    else
      var last := records[|records| - 1];
      Strip(records[..|records| - 1]) + if last.message.System? then [] else [last]
  }

  function SummaryMessages(summaries: seq<Summary>): (messages: seq<Message>)
    ensures |messages| == |summaries|
    ensures forall i :: 0 <= i < |messages| ==> messages[i].Human?
  {
    seq(|summaries|, i requires 0 <= i < |summaries| => Human(SUMMARY_HEAD + summaries[i].text + SUMMARY_TAIL, []))
  }

  function Project(records: seq<Record>, summaries: seq<Summary>): seq<Message> {
    [SYSTEM_MESSAGE] + SummaryMessages(summaries) + Contents(Strip(After(records, Covered(summaries))))
  }

  // A user message that holds a summary between the two markers, and nothing else.
  predicate Quotes(message: Message, text: string) {
    && message.Human? && message.attachments == []
    && |message.text| == |SUMMARY_HEAD| + |text| + |SUMMARY_TAIL|
    && SUMMARY_HEAD <= message.text
    && message.text[|SUMMARY_HEAD|..|SUMMARY_HEAD| + |text|] == text
    && message.text[|SUMMARY_HEAD| + |text|..] == SUMMARY_TAIL
  }

  lemma QuoteText(text: string)
    ensures Quotes(Human(SUMMARY_HEAD + text + SUMMARY_TAIL, []), text)
  {
    var whole := SUMMARY_HEAD + text + SUMMARY_TAIL;
    assert whole == SUMMARY_HEAD + (text + SUMMARY_TAIL);
    assert whole[|SUMMARY_HEAD|..] == text + SUMMARY_TAIL;
  }

  // The view opens with the system prompt, shows every summary's own text in order, each in
  // a message of its own, and goes on with what they do not cover.
  lemma ViewQuotesSummaries(records: seq<Record>, summaries: seq<Summary>)
    ensures var view := Project(records, summaries);
            && |view| >= 1 + |summaries| && view[0] == SYSTEM_MESSAGE
            && (forall k :: 0 <= k < |summaries| ==> Quotes(view[1 + k], summaries[k].text))
            && view[1 + |summaries|..] == Contents(Strip(After(records, Covered(summaries))))
  {
    hide Quotes;
    var view := Project(records, summaries);
    forall k | 0 <= k < |summaries| ensures Quotes(view[1 + k], summaries[k].text) {
      QuoteText(summaries[k].text);
      assert view[1 + k] == SummaryMessages(summaries)[k];
    }
    hide SUMMARY_HEAD, SUMMARY_TAIL;
  }

  lemma OneQuoted(message: Message, a: string, b: string)
    requires Quotes(message, a) && Quotes(message, b)
    ensures a == b
  {
    hide SUMMARY_HEAD, SUMMARY_TAIL;
  }

  // Two chains of the same length that look alike to the model carry the same texts.
  lemma SameViewSameTexts(records: seq<Record>, a: seq<Summary>, others: seq<Record>, b: seq<Summary>)
    requires |a| == |b| && Project(records, a) == Project(others, b)
    ensures forall k :: 0 <= k < |a| ==> a[k].text == b[k].text
  {
    hide Project, Quotes;
    ViewQuotesSummaries(records, a);
    ViewQuotesSummaries(others, b);
    forall k | 0 <= k < |a| ensures a[k].text == b[k].text {
      OneQuoted(Project(records, a)[1 + k], a[k].text, b[k].text);
    }
  }

  function Retained(units: nat, percent: int): int {
    (units * percent + 99) / 100
  }

  function CompactablePrefix(records: seq<Record>, percent: int): Result<seq<Record>, WindowError> {
    if !(1 <= percent <= 99) then Err(InvalidPercent)
    else
      match Units(records)
      case None => Err(InvalidHistory)
      case Some(units) =>
        var kept := Retained(|units|, percent);
        Ok(Flatten(if 0 <= kept <= |units| then units[..|units| - kept] else []))
  }

  // ---------------------------------------------------------------- choosing a prefix

  // Rounding up keeps at least the last unit and never more than there are.
  lemma RetainedBounds(units: nat, percent: int)
    requires 1 <= percent <= 99
    ensures 0 <= Retained(units, percent) <= units
    ensures units > 0 ==> Retained(units, percent) > 0
    ensures 100 * (Retained(units, percent) - 1) < units * percent <= 100 * Retained(units, percent)
  {
    PercentBounds(units, percent);
    CeilingOfHundredths(units * percent);
  }

  lemma {:induction false} PercentBounds(units: nat, percent: nat)
    requires percent > 0
    ensures units <= units * percent
    ensures percent <= 99 ==> units * percent <= 99 * units
  {
    if percent > 1 {
      PercentBounds(units, percent - 1);
    }
    if percent <= 99 {
      assert units * percent <= 99 * units by {
        assert units * (99 - percent) >= 0;
      }
    }
  }

  lemma CeilingOfHundredths(p: int)
    ensures 100 * ((p + 99) / 100 - 1) < p <= 100 * ((p + 99) / 100)
  {
  }

  lemma {:induction false} FlattenLast(units: seq<seq<Record>>)
    requires units != [] && units[|units| - 1] != []
    ensures var last := units[|units| - 1];
            Flatten(units) != [] && Flatten(units)[|Flatten(units)| - 1] == last[|last| - 1]
  {
  }

  // Cutting into units loses and reorders nothing but the system records.
  lemma {:induction false} UnitsKeepAll(records: seq<Record>)
    requires Scan(START, records).Some?
    ensures Flatten(Scan(START, records).value.units) == Strip(records)
  {
    if records != [] {
      var init := records[..|records| - 1];
      var record := records[|records| - 1];
      UnitsKeepAll(init);
      ScanShape(init);
      var before := Scan(START, init).value;
      if before.pending != {} {
        var k := |before.units| - 1;
        var grown := before.units[k := before.units[k] + [record]];
        assert grown[..k] == before.units[..k];
        assert Flatten(grown) == Flatten(before.units) + [record];
      } else if !record.message.System? {
        FlattenNext(before.units, [record]);
      }
    }
  }

  // The chosen prefix is empty or ends at a record that closes a unit, strictly before
  // the last unit; what it leaves is again a complete history of the retained units.
  lemma {:induction false} PrefixBoundary(records: seq<Record>, percent: int) returns (n: nat)
    requires 1 <= percent <= 99 && Units(records).Some?
    ensures 0 <= Retained(|Units(records).value|, percent) <= |Units(records).value|
    ensures CompactablePrefix(records, percent).Ok?
    ensures var units := Units(records).value;
            var prefix := CompactablePrefix(records, percent).value;
            && n <= |records|
            && prefix == Strip(records[..n])
            && (prefix == [] <==> n == 0)
            && Units(records[..n]) == Some(units[..|units| - Retained(|units|, percent)])
            && (n > 0 ==> prefix[|prefix| - 1] == records[n - 1])
            && (records != [] && !records[|records| - 1].message.System? ==> n < |records|)
  {
    var units := Units(records).value;
    RetainedBounds(|units|, percent);
    var k := |units| - Retained(|units|, percent);
    if k == 0 {
      n := 0;
      assert records[..0] == [];
    } else {
      n := UnitEnd(records, k);
      UnitsKeepAll(records[..n]);
      FlattenLast(units[..k]);
      if n == |records| {
        assert records[..n] == records;
      }
    }
  }

  // ---------------------------------------------------------------- the projected view

  predicate Numbered(records: seq<Record>) {
    forall i :: 0 <= i < |records| ==> records[i].sequence == i + 1
  }

  lemma {:induction false} AfterIsSuffix(records: seq<Record>, covered: nat)
    requires Numbered(records) && covered <= |records|
    ensures After(records, covered) == records[covered..]
  {
    if covered == |records| {
      AfterAll(records, covered);
      assert records[covered..] == [];
    } else {
      var init := records[..|records| - 1];
      AfterIsSuffix(init, covered);
      assert records[covered..] == init[covered..] + [records[|records| - 1]];
    }
  }

  lemma {:induction false} AfterAll(records: seq<Record>, covered: nat)
    requires forall i :: 0 <= i < |records| ==> records[i].sequence <= covered
    ensures After(records, covered) == []
  {
    if records != [] {
      AfterAll(records[..|records| - 1], covered);
    }
  }

  // System records never stand inside a unit, so dropping them keeps every unit.
  lemma {:induction false} StripKeepsUnits(records: seq<Record>)
    requires Scan(START, records).Some?
    ensures Scan(START, Strip(records)) == Scan(START, records)
  {
    if records != [] {
      var init := records[..|records| - 1];
      StripKeepsUnits(init);
      assert Strip(init) + [] == Strip(init);
      if !records[|records| - 1].message.System? {
        var stripped := Strip(records);
        assert stripped[..|stripped| - 1] == Strip(init);
        assert stripped[|stripped| - 1] == records[|records| - 1];
      }
    }
  }

  lemma {:induction false} PairedPrepend(heads: seq<Message>, messages: seq<Message>)
    requires forall i :: 0 <= i < |heads| ==> heads[i].System? || heads[i].Human?
    ensures Paired(heads + messages) <==> Paired(messages)
  {
    if heads == [] {
      assert heads + messages == messages;
    } else {
      PairedPrepend(heads[1..], messages);
      assert (heads + messages)[1..] == heads[1..] + messages;
      PairedShift(heads + messages, 1);
    }
  }

  // A model never sees a call without its results nor a result away from its call.
  lemma ProjectionPaired(records: seq<Record>, summaries: seq<Summary>)
    requires Numbered(records) && Units(records).Some?
    requires 0 <= Covered(summaries) <= |records| && Units(records[..Covered(summaries)]).Some?
    ensures Paired(Project(records, summaries))
  {
    var c := Covered(summaries);
    AfterIsSuffix(records, c);
    assert records[..c] + records[c..] == records;
    UnitsSplit(records[..c], records[c..]);
    StripKeepsUnits(records[c..]);
    UnitsIffPaired(Strip(records[c..]));
    PairedPrepend([SYSTEM_MESSAGE] + SummaryMessages(summaries), Contents(Strip(records[c..])));
  }

  predicate Increasing(summaries: seq<Summary>) {
    && (summaries != [] ==> summaries[0].covered > 0)
    && forall i, j :: 0 <= i < j < |summaries| ==> summaries[i].covered < summaries[j].covered
  }

  function IntervalStart(summaries: seq<Summary>, k: nat): int
    requires k < |summaries|
  {
    if k == 0 then 0 else summaries[k - 1].covered
  }

  predicate InInterval(summaries: seq<Summary>, k: nat, sequence: int)
    requires k < |summaries|
  {
    IntervalStart(summaries, k) < sequence <= summaries[k].covered
  }

  predicate Summarised(summaries: seq<Summary>, sequence: int) {
    exists k :: 0 <= k < |summaries| && InInterval(summaries, k, sequence)
  }

  lemma {:induction false} IntervalOf(summaries: seq<Summary>, sequence: int) returns (k: nat)
    requires Increasing(summaries) && 0 < sequence <= Covered(summaries)
    ensures k < |summaries| && InInterval(summaries, k, sequence)
  {
    var last := |summaries| - 1;
    if last == 0 || summaries[last - 1].covered < sequence {
      k := last;
    } else {
      k := IntervalOf(summaries[..last], sequence);
    }
  }

  // Every record is summarised exactly once or shown exactly once, in order, after
  // the summaries; nothing is both and nothing is lost.
  lemma CoverageIsPartition(records: seq<Record>, summaries: seq<Summary>)
    requires Numbered(records) && Increasing(summaries) && Covered(summaries) <= |records|
    ensures Project(records, summaries)[1 + |summaries|..]
         == Contents(Strip(records[Covered(summaries)..]))
    ensures forall i :: 0 <= i < |records| ==>
              (Summarised(summaries, records[i].sequence) <==> i < Covered(summaries))
    ensures forall i, k, l ::
              (0 <= i < |records| && 0 <= k < |summaries| && 0 <= l < |summaries|
               && InInterval(summaries, k, records[i].sequence)
               && InInterval(summaries, l, records[i].sequence)) ==> k == l
  {
    var c := Covered(summaries);
    AfterIsSuffix(records, c);
    assert Project(records, summaries)
        == ([SYSTEM_MESSAGE] + SummaryMessages(summaries)) + Contents(Strip(records[c..]));
    forall i | 0 <= i < |records|
      ensures Summarised(summaries, records[i].sequence) <==> i < c
    {
      if i < c {
        var k := IntervalOf(summaries, records[i].sequence);
      } else {
        forall k | 0 <= k < |summaries| ensures !InInterval(summaries, k, records[i].sequence) {
          assert summaries[k].covered <= c;
        }
      }
    }
    assert forall k, l :: 0 <= k < l < |summaries| ==> summaries[k].covered <= IntervalStart(summaries, l);
  }
}
