/** Records printed as section 2 of RFC 4180 has it, and read back. */
module CsvPrint {
  import opened Basics
  import opened Rows
  import opened Csv
  import opened CsvDocument

  /**
   * A field in quotes where section 2 of RFC 4180 has them, for a quote, a
   * delimiter or a line ending in it; and where one empty field stands alone.
   */
  function PrintField(text: Text, alone: bool): Printed {
    Printed(text, QUOTE in text || !Bare(text) || (alone && text == []))
  }

  function PrintRow(fields: seq<Text>): seq<Printed> {
    seq(|fields|, i requires 0 <= i < |fields| => PrintField(fields[i], |fields| == 1))
  }

  /** One line for each record, each with an ending of its own. */
  function PrintItems(records: seq<seq<Text>>, ends: seq<Ending>): seq<Item>
    requires |ends| == |records|
  {
    if records == [] then []
    else
      var n := |records| - 1;
      PrintItems(records[..n], ends[..n]) + [Row(PrintRow(records[n]), ends[n])]
  }

  /** The file, its last record with a line ending or without. */
  function Print(records: seq<seq<Text>>, ends: seq<Ending>): Document
    requires |ends| == |records| || |ends| + 1 == |records|
  {
    if |ends| == |records| then Document(PrintItems(records, ends), Nothing)
    else
      var last := records[|ends|];
      Document(PrintItems(records[..|ends|], ends), if last == [] then Nothing else Reopened(PrintRow(last)))
  }

  /** A record within the limits on fields and their lengths. */
  ghost predicate Printable(fields: seq<Text>, utf8: Text -> bool) {
    1 <= |fields| <= MAX_FIELDS && forall text <- fields :: |text| <= MAX_FIELD && utf8(text)
  }

  function FieldLists(records: seq<Record>): seq<seq<Text>> {
    if records == [] then [] else FieldLists(records[..|records| - 1]) + [records[|records| - 1].fields]
  }

  lemma FieldListsSnoc(records: seq<Record>, record: Record)
    ensures FieldLists(records + [record]) == FieldLists(records) + [record.fields]
  {
    assert (records + [record])[..|records|] == records;
  }

  lemma RowIsWritable(fields: seq<Text>, utf8: Text -> bool)
    requires Printable(fields, utf8)
    ensures WritableRow(PrintRow(fields), utf8) && Texts(PrintRow(fields)) == fields
  {
    var cells := PrintRow(fields);
    forall cell <- cells
      ensures Writable(cell, utf8)
    {
      var i :| 0 <= i < |cells| && cells[i] == cell;
      assert fields[i] in fields;
    }
    if |fields| == 1 {
      assert cells[0] == PrintField(fields[0], true);
    }
  }

  /** What is printed of some records is a file's lines, and holds those records. */
  ghost predicate Prints(items: seq<Item>, records: seq<seq<Text>>, utf8: Text -> bool) {
    WritableItems(items, utf8) && FieldLists(RecordsOf(items)) == records
  }

  lemma OneMoreLine(items: seq<Item>, records: seq<seq<Text>>, fields: seq<Text>, end: Ending, utf8: Text -> bool)
    requires Prints(items, records, utf8) && Printable(fields, utf8)
    ensures Prints(items + [Row(PrintRow(fields), end)], records + [fields], utf8)
  {
    var item := Row(PrintRow(fields), end);
    RowIsWritable(fields, utf8);
    WritableSnoc(items, item, utf8);
    ItemsSnoc(items, item);
    FieldListsSnoc(RecordsOf(items), Record(LineAfter(items), fields));
  }

  lemma {:induction false} ItemsPrint(records: seq<seq<Text>>, ends: seq<Ending>, utf8: Text -> bool)
    requires |ends| == |records| && forall fields <- records :: Printable(fields, utf8)
    ensures Prints(PrintItems(records, ends), records, utf8)
  {
    if records != [] {
      var n := |records| - 1;
      var before, last, end := records[..n], records[n], ends[n];
      var items := PrintItems(before, ends[..n]);
      assert records == before + [last];
      assert Printable(last, utf8);
      ItemsPrint(before, ends[..n], utf8);
      OneMoreLine(items, before, last, end, utf8);
      assert PrintItems(records, ends) == items + [Row(PrintRow(last), end)];
    }
  }

  /** The row a file ends in without a line ending is a row all the same. */
  lemma LastRowCloses(fields: seq<Text>, utf8: Text -> bool)
    requires Printable(fields, utf8)
    ensures var tail := Reopened(PrintRow(fields));
            && WritableTail(tail, utf8)
            && tail.Partial? && !tail.open.InQuotes? && Closes(tail, utf8)
            && Texts(tail.cells + [Closing(tail.open)]) == fields
  {
    var cells := PrintRow(fields);
    RowIsWritable(fields, utf8);
    ReopenedWritable(cells, utf8);
    var tail := Reopened(cells);
    var last := |cells| - 1;
    assert Writable(cells[last], utf8);
    assert tail.cells == cells[..last] && Closing(tail.open) == cells[last];
    assert cells[..last] + [cells[last]] == cells;
  }

  /**
   * Any list of non-empty records, printed with any mix of line endings, the last
   * one optional, reads back as exactly those records.
   */
  lemma PrintedReadsBack(records: seq<seq<Text>>, ends: seq<Ending>, utf8: Text -> bool)
    requires |ends| == |records| || |ends| + 1 == |records|
    requires forall fields <- records :: Printable(fields, utf8)
    ensures var r := ReadAll(TextOf(Print(records, ends)), utf8, U64_MAX);
            r.Ok? && FieldLists(r.value.records) == records
  {
    if |ends| == |records| {
      ItemsPrint(records, ends, utf8);
    } else {
      ItemsPrint(records[..|ends|], ends, utf8);
      assert records == records[..|ends|] + [records[|ends|]];
      LastRowReads(PrintItems(records[..|ends|], ends), records[..|ends|], records[|ends|], utf8);
    }
    RoundTrip(Print(records, ends), utf8);
  }

  lemma LastRowReads(items: seq<Item>, records: seq<seq<Text>>, fields: seq<Text>, utf8: Text -> bool)
    requires Prints(items, records, utf8) && Printable(fields, utf8)
    ensures var d := Document(items, Reopened(PrintRow(fields)));
            && WritableDocument(d, utf8) && Complete(d, utf8)
            && FieldLists(AllRecords(d)) == records + [fields]
  {
    LastRowCloses(fields, utf8);
    FieldListsSnoc(RecordsOf(items), Record(LineAfter(items), fields));
  }
}
