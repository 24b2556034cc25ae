/**
 * What a CSV file is, written down without the reader: rows of cells, each bare
 * or quoted, blank lines, and any mix of the three line endings. The reader
 * accepts exactly these texts and hands back exactly their cells and lines.
 */
module CsvDocument {
  import opened Basics
  import opened Rows
  import opened Csv

  // ----- The grammar ------------------------------------------------------------

  /** One field as it is written: the text it stands for, and whether in quotes. */
  datatype Printed = Printed(text: Text, quoted: bool)

  datatype Ending = Cr | Lf | CrLf

  /** One finished line of a file. */
  datatype Item =
    | Blank(end: Ending)
    | Row(cells: seq<Printed>, end: Ending)

  /** The field a file breaks off in. */
  datatype Open =
    | AtStart
    | InBare(text: Text)
    | InQuotes(text: Text)
    | AfterQuote(text: Text)

  /** What follows the last line ending: nothing, or the start of a row. */
  datatype Tail = Nothing | Partial(cells: seq<Printed>, open: Open)

  /** Any file, broken off at any byte. */
  datatype Document = Document(items: seq<Item>, tail: Tail)

  /** Every quote doubled, as section 2 of RFC 4180 asks. */
  function Escape(text: Text): Text {
    if text == [] then []
    else
      var last := text[|text| - 1];
      Escape(text[..|text| - 1]) + (if last == QUOTE then [QUOTE, QUOTE] else [last])
  }

  function CellText(cell: Printed): Text {
    if cell.quoted then [QUOTE] + Escape(cell.text) + [QUOTE] else cell.text
  }

  /** Cells with a delimiter behind each. */
  function CellsText(cells: seq<Printed>): Text {
    if cells == [] then []
    else CellsText(cells[..|cells| - 1]) + CellText(cells[|cells| - 1]) + [DELIMITER]
  }

  function RowText(cells: seq<Printed>): Text {
    if cells == [] then [] else CellsText(cells[..|cells| - 1]) + CellText(cells[|cells| - 1])
  }

  function EndingText(end: Ending): Text {
    match end
    case Cr => [CR]
    case Lf => [LF]
    case CrLf => [CR, LF]
  }

  function ItemText(item: Item): Text {
    (if item.Row? then RowText(item.cells) else []) + EndingText(item.end)
  }

  function ItemsText(items: seq<Item>): Text {
    if items == [] then []
    else ItemsText(items[..|items| - 1]) + ItemText(items[|items| - 1])
  }

  function OpenText(open: Open): Text {
    match open
    case AtStart => []
    case InBare(text) => text
    case InQuotes(text) => [QUOTE] + Escape(text)
    case AfterQuote(text) => [QUOTE] + Escape(text) + [QUOTE]
  }

  function TailText(tail: Tail): Text {
    if tail.Nothing? then [] else CellsText(tail.cells) + OpenText(tail.open)
  }

  /** The bytes of a document. */
  function TextOf(d: Document): Text {
    ItemsText(d.items) + TailText(d.tail)
  }

  /** A text that may stand without quotes: a quote in it does not come first. */
  predicate Bare(text: Text) {
    && DELIMITER !in text && LF !in text && CR !in text
    && (text != [] ==> text[0] != QUOTE)
  }

  predicate Writable(cell: Printed, utf8: Text -> bool) {
    && (cell.quoted || Bare(cell.text))
    && |cell.text| <= MAX_FIELD
    && utf8(cell.text)
  }

  predicate WritableRow(cells: seq<Printed>, utf8: Text -> bool) {
    && 1 <= |cells| <= MAX_FIELDS
    // Nothing at all on a line is a blank line; one empty field needs its quotes.
    && cells != [Printed([], false)]
    && (forall cell <- cells :: Writable(cell, utf8))
  }

  predicate WritableTail(tail: Tail, utf8: Text -> bool) {
    tail.Partial? ==>
      && |tail.cells| <= MAX_FIELDS
      && (forall cell <- tail.cells :: Writable(cell, utf8))
      && match tail.open
         case AtStart => tail.cells != []
         case InBare(text) => text != [] && Bare(text) && |text| <= MAX_FIELD
         case InQuotes(text) => |text| <= MAX_FIELD
         case AfterQuote(text) => |text| <= MAX_FIELD
  }

  /** Whether the text ends in a CR that a following LF would join. */
  predicate EndsInCr(items: seq<Item>) {
    items != [] && items[|items| - 1].end == Cr
  }

  predicate WritableItems(items: seq<Item>, utf8: Text -> bool) {
    items != [] ==>
      && WritableItems(items[..|items| - 1], utf8)
      && var last := items[|items| - 1];
         if last.Row? then WritableRow(last.cells, utf8)
         // A CR and the LF behind it are one ending, written `CrLf`.
         else last.end == Lf ==> !EndsInCr(items[..|items| - 1])
  }

  predicate WritableDocument(d: Document, utf8: Text -> bool) {
    WritableItems(d.items, utf8) && WritableTail(d.tail, utf8)
  }

  // ----- What a document means ------------------------------------------------------

  /** LF bytes in a text. */
  function Lines(text: Text): nat {
    if text == [] then 0
    else Lines(text[..|text| - 1]) + if text[|text| - 1] == LF then 1 else 0
  }

  /** LF bytes inside the quotes of a row. */
  function QuotedLines(cells: seq<Printed>): nat {
    if cells == [] then 0
    else
      var last := cells[|cells| - 1];
      QuotedLines(cells[..|cells| - 1]) + if last.quoted then Lines(last.text) else 0
  }

  /**
   * The line after some finished ones: one, and one more for every line ending
   * (a CRLF is one), and one more for every LF inside quotes.
   */
  function LineAfter(items: seq<Item>): nat {
    if items == [] then 1
    else
      var last := items[|items| - 1];
      LineAfter(items[..|items| - 1]) + 1 + if last.Row? then QuotedLines(last.cells) else 0
  }

  function Texts(cells: seq<Printed>): seq<Text> {
    seq(|cells|, i requires 0 <= i < |cells| => cells[i].text)
  }

  /** The records of a file: its rows, each at the line it starts on. */
  function RecordsOf(items: seq<Item>): seq<Record> {
    if items == [] then []
    else
      var last := items[|items| - 1];
      var before := items[..|items| - 1];
      if last.Blank? then RecordsOf(before)
      else RecordsOf(before) + [Record(LineAfter(before), Texts(last.cells))]
  }

  /** The line of the last record, or the first line. */
  function LastLine(records: seq<Record>): nat {
    if records == [] then 1 else records[|records| - 1].line
  }

  function StateOf(open: Open): State {
    match open
    case AtStart => FieldStart
    case InBare(_) => Unquoted
    case InQuotes(_) => Quoted
    case AfterQuote(_) => QuoteInQuoted
  }

  function HeldText(open: Open): Text {
    if open.AtStart? then [] else open.text
  }

  /** The reader that has read a document and no more. */
  function ReaderOf(d: Document): Machine {
    var records := RecordsOf(d.items);
    var line := LineAfter(d.items);
    match d.tail
    case Nothing =>
      Machine(records, [], [], FieldStart, line, LastLine(records), false, EndsInCr(d.items))
    case Partial(cells, open) =>
      var quoted := if open.InQuotes? || open.AfterQuote? then Lines(open.text) else 0;
      Machine(records, Texts(cells), HeldText(open), StateOf(open), line + QuotedLines(cells) + quoted,
              line, true, false)
  }

  // ----- One more byte ----------------------------------------------------------------

  /** The cell an open field is, when it may close. */
  function Closing(open: Open): Printed
    requires !open.InQuotes?
  {
    Printed(HeldText(open), open.AfterQuote?)
  }

  /** The field a first byte of content opens. */
  function Opening(b: u8): Open {
    if b == QUOTE then InQuotes([]) else InBare([b])
  }

  /** The open field with one more byte of content, when it takes it. */
  function Typed(open: Open, b: u8): Option<Open> {
    match open
    case AtStart => Some(Opening(b))
    case InBare(text) => if |text| < MAX_FIELD then Some(InBare(text + [b])) else None
    case InQuotes(text) =>
      if b == QUOTE then Some(AfterQuote(text))
      else if |text| < MAX_FIELD then Some(InQuotes(text + [b]))
      else None
    case AfterQuote(text) =>
      if b == QUOTE && |text| < MAX_FIELD then Some(InQuotes(text + [QUOTE])) else None
  }

  predicate Closes(tail: Tail, utf8: Text -> bool)
    requires tail.Partial? && !tail.open.InQuotes?
  {
    |tail.cells| < MAX_FIELDS && utf8(HeldText(tail.open))
  }

  /** A finished line whose CR turned out to be the first half of a CRLF. */
  function Joined(items: seq<Item>): seq<Item>
    requires items != []
  {
    items[..|items| - 1] + [items[|items| - 1].(end := CrLf)]
  }

  /** The document one byte longer, when there is one. */
  function Extend(d: Document, b: u8, utf8: Text -> bool): Option<Document> {
    if d.tail.Nothing? then
      if b == LF && EndsInCr(d.items) then Some(Document(Joined(d.items), Nothing))
      else if b == LF then Some(Document(d.items + [Blank(Lf)], Nothing))
      else if b == CR then Some(Document(d.items + [Blank(Cr)], Nothing))
      else if b == DELIMITER then
        if utf8([]) then Some(Document(d.items, Partial([Printed([], false)], AtStart))) else None
      else Some(Document(d.items, Partial([], Opening(b))))
    else if !d.tail.open.InQuotes? && (b == DELIMITER || b == LF || b == CR) then
      if !Closes(d.tail, utf8) then None
      else
        var cells := d.tail.cells + [Closing(d.tail.open)];
        if b == DELIMITER then Some(Document(d.items, Partial(cells, AtStart)))
        else Some(Document(d.items + [Row(cells, if b == LF then Lf else Cr)], Nothing))
    else
      var open := Typed(d.tail.open, b);
      if open.None? then None else Some(Document(d.items, Partial(d.tail.cells, open.value)))
  }

  // ----- The parts grow at the end ------------------------------------------------------

  lemma CellsSnoc(cells: seq<Printed>, cell: Printed)
    ensures CellsText(cells + [cell]) == CellsText(cells) + CellText(cell) + [DELIMITER]
    ensures RowText(cells + [cell]) == CellsText(cells) + CellText(cell)
    ensures Texts(cells + [cell]) == Texts(cells) + [cell.text]
    ensures QuotedLines(cells + [cell]) == QuotedLines(cells) + if cell.quoted then Lines(cell.text) else 0
  {
    assert (cells + [cell])[..|cells|] == cells;
  }

  lemma ItemsSnoc(items: seq<Item>, item: Item)
    ensures ItemsText(items + [item]) == ItemsText(items) + ItemText(item)
    ensures LineAfter(items + [item]) == LineAfter(items) + 1 + if item.Row? then QuotedLines(item.cells) else 0
    ensures RecordsOf(items + [item]) ==
            if item.Blank? then RecordsOf(items)
            else RecordsOf(items) + [Record(LineAfter(items), Texts(item.cells))]
    ensures EndsInCr(items + [item]) == (item.end == Cr)
  {
    assert (items + [item])[..|items|] == items;
  }

  lemma TextSnoc(text: Text, b: u8)
    ensures Escape(text + [b]) == Escape(text) + (if b == QUOTE then [QUOTE, QUOTE] else [b])
    ensures Lines(text + [b]) == Lines(text) + if b == LF then 1 else 0
  {
    assert (text + [b])[..|text|] == text;
  }

  // ----- One more byte, in the text, the grammar and the reader -----------------------------

  lemma JoinedText(items: seq<Item>)
    requires EndsInCr(items)
    ensures ItemsText(Joined(items)) == ItemsText(items) + [LF]
    ensures RecordsOf(Joined(items)) == RecordsOf(items)
    ensures LineAfter(Joined(items)) == LineAfter(items)
    ensures !EndsInCr(Joined(items))
  {
    var last := |items| - 1;
    ItemsSnoc(items[..last], items[last].(end := CrLf));
  }

  lemma TypedText(open: Open, b: u8)
    requires Typed(open, b).Some?
    ensures OpenText(Typed(open, b).value) == OpenText(open) + [b]
  {
    TextSnoc(HeldText(open), b);
  }

  lemma FinishedText(items: seq<Item>)
    ensures TextOf(Document(items, Nothing)) == ItemsText(items)
  {
  }

  lemma BlankText(items: seq<Item>)
    ensures ItemsText(items + [Blank(Lf)]) == ItemsText(items) + [LF]
    ensures ItemsText(items + [Blank(Cr)]) == ItemsText(items) + [CR]
  {
    ItemsSnoc(items, Blank(Lf));
    ItemsSnoc(items, Blank(Cr));
    assert ItemText(Blank(Lf)) == [LF] && ItemText(Blank(Cr)) == [CR];
  }

  lemma ExtendTextAtLineStart(d: Document, b: u8, utf8: Text -> bool)
    requires d.tail.Nothing? && Extend(d, b, utf8).Some?
    ensures TextOf(Extend(d, b, utf8).value) == TextOf(d) + [b]
  {
    var next := Extend(d, b, utf8).value;
    FinishedText(d.items);
    if b == LF || b == CR {
      FinishedText(next.items);
      BlankText(d.items);
      if b == LF && EndsInCr(d.items) {
        JoinedText(d.items);
      }
    } else {
      CellsSnoc([], Printed([], false));
      assert TailText(next.tail) == [b];
    }
  }

  lemma ExtendText(d: Document, b: u8, utf8: Text -> bool)
    requires Extend(d, b, utf8).Some?
    ensures TextOf(Extend(d, b, utf8).value) == TextOf(d) + [b]
  {
    if d.tail.Nothing? {
      ExtendTextAtLineStart(d, b, utf8);
    } else if !d.tail.open.InQuotes? && (b == DELIMITER || b == LF || b == CR) {
      CloseText(d.items, d.tail, b);
    } else {
      var open := Typed(d.tail.open, b).value;
      TypedText(d.tail.open, b);
      assert TailText(Partial(d.tail.cells, open)) == TailText(d.tail) + [b];
      TailGrows(d.items, d.tail, Partial(d.tail.cells, open), b);
    }
  }

  lemma TailGrows(items: seq<Item>, tail: Tail, next: Tail, b: u8)
    requires TailText(next) == TailText(tail) + [b]
    ensures TextOf(Document(items, next)) == TextOf(Document(items, tail)) + [b]
  {
  }

  lemma CloseText(items: seq<Item>, tail: Tail, b: u8)
    requires tail.Partial? && !tail.open.InQuotes?
    ensures var cells := tail.cells + [Closing(tail.open)];
            if b == DELIMITER then
              TextOf(Document(items, Partial(cells, AtStart))) == TextOf(Document(items, tail)) + [b]
            else if b == LF || b == CR then
              TextOf(Document(items + [Row(cells, if b == LF then Lf else Cr)], Nothing))
              == TextOf(Document(items, tail)) + [b]
            else true
  {
    var cell := Closing(tail.open);
    var cells := tail.cells + [cell];
    assert CellText(cell) == OpenText(tail.open);
    CellsSnoc(tail.cells, cell);
    if b == DELIMITER {
      assert TailText(Partial(cells, AtStart)) == TailText(tail) + [b];
      TailGrows(items, tail, Partial(cells, AtStart), b);
    } else if b == LF || b == CR {
      var end := if b == LF then Lf else Cr;
      assert RowText(cells) == TailText(tail);
      RowEnds(items, cells, end);
      FinishedText(items + [Row(cells, end)]);
    }
  }

  lemma RowEnds(items: seq<Item>, cells: seq<Printed>, end: Ending)
    ensures ItemsText(items + [Row(cells, end)]) == ItemsText(items) + RowText(cells) + EndingText(end)
  {
    ItemsSnoc(items, Row(cells, end));
  }

  lemma WritableSnoc(items: seq<Item>, item: Item, utf8: Text -> bool)
    requires WritableItems(items, utf8)
    requires if item.Row? then WritableRow(item.cells, utf8) else item.end == Lf ==> !EndsInCr(items)
    ensures WritableItems(items + [item], utf8)
  {
    assert (items + [item])[..|items|] == items;
  }

  lemma ExtendWritable(d: Document, b: u8, utf8: Text -> bool)
    requires Extend(d, b, utf8).Some? && WritableDocument(d, utf8)
    ensures WritableDocument(Extend(d, b, utf8).value, utf8)
  {
    if d.tail.Nothing? {
      if b == LF && EndsInCr(d.items) {
        var last := |d.items| - 1;
        WritableSnoc(d.items[..last], d.items[last].(end := CrLf), utf8);
      } else if b == LF {
        WritableSnoc(d.items, Blank(Lf), utf8);
      } else if b == CR {
        WritableSnoc(d.items, Blank(Cr), utf8);
      }
    } else if !d.tail.open.InQuotes? && (b == LF || b == CR) {
      var cells := d.tail.cells + [Closing(d.tail.open)];
      assert cells[|d.tail.cells|] == Closing(d.tail.open);
      WritableSnoc(d.items, Row(cells, if b == LF then Lf else Cr), utf8);
    }
  }

  /** Closing a field in the document is closing it in the reader. */
  lemma CloseFieldFollows(items: seq<Item>, tail: Tail, utf8: Text -> bool)
    requires tail.Partial? && !tail.open.InQuotes?
    ensures var m := ReaderOf(Document(items, tail));
            EndField(m, utf8, U64_MAX) ==
            if Closes(tail, utf8)
            then Ok(ReaderOf(Document(items, Partial(tail.cells + [Closing(tail.open)], AtStart))))
            else Err(Malformed(m.recordLine, if |tail.cells| >= MAX_FIELDS then TooManyFields else NotUtf8))
  {
    CellsSnoc(tail.cells, Closing(tail.open));
  }

  /** Filing the closed fields of a row is finishing its line, but for the count. */
  lemma FiledFollows(items: seq<Item>, cells: seq<Printed>, end: Ending)
    requires cells != []
    ensures var m := ReaderOf(Document(items, Partial(cells, AtStart)));
            Filed(m.(line := m.line + 1, afterCr := end == Cr))
            == ReaderOf(Document(items + [Row(cells, end)], Nothing))
  {
    ItemsSnoc(items, Row(cells, end));
  }

  /** The reader takes a byte exactly when the document does, and ends where it ends. */
  ghost predicate Follows(r: Result<Machine, TableError>, next: Option<Document>) {
    if next.Some? then r == Ok(ReaderOf(next.value)) else r.Err? && r.error.Malformed?
  }

  /** A line ending where no row is open only counts a line. */
  lemma StepCountsLine(m: Machine, b: u8, utf8: Text -> bool)
    requires !m.started && m.state == FieldStart && (b == LF || b == CR)
    ensures Step(m, b, utf8, U64_MAX) ==
            if b == LF && m.afterCr then Ok(m.(afterCr := false))
            else Ok(m.(line := m.line + 1, afterCr := b == CR))
  {
  }

  lemma BlankReader(items: seq<Item>, end: Ending)
    ensures var m := ReaderOf(Document(items, Nothing));
            ReaderOf(Document(items + [Blank(end)], Nothing)) == m.(line := m.line + 1, afterCr := end == Cr)
  {
    ItemsSnoc(items, Blank(end));
  }

  lemma JoinedReader(items: seq<Item>)
    requires EndsInCr(items)
    ensures ReaderOf(Document(Joined(items), Nothing)) == ReaderOf(Document(items, Nothing)).(afterCr := false)
  {
    JoinedText(items);
  }

  lemma BlankFollows(items: seq<Item>, b: u8, utf8: Text -> bool)
    requires b == LF || b == CR
    ensures var d := Document(items, Nothing);
            Follows(Step(ReaderOf(d), b, utf8, U64_MAX), Extend(d, b, utf8))
  {
    StepCountsLine(ReaderOf(Document(items, Nothing)), b, utf8);
    if b == LF && EndsInCr(items) {
      JoinedReader(items);
    } else {
      BlankReader(items, if b == LF then Lf else Cr);
    }
  }

  /** The first byte of a row is read as the first byte of its first field. */
  lemma OpenFollows(items: seq<Item>, b: u8, utf8: Text -> bool)
    requires b != LF && b != CR
    ensures var d := Document(items, Nothing);
            Follows(Step(ReaderOf(d), b, utf8, U64_MAX), Extend(d, b, utf8))
  {
    var d, begun := Document(items, Nothing), Document(items, Partial([], AtStart));
    assert Texts([]) == [];
    assert Begin(ReaderOf(d).(afterCr := false)) == ReaderOf(begun);
    BeginsWith(ReaderOf(d), b, utf8);
    if b == DELIMITER {
      CloseFollows(begun, b, utf8);
    } else {
      TypedFollows(begun, b, utf8);
    }
  }

  lemma BeginsWith(m: Machine, b: u8, utf8: Text -> bool)
    requires m.state == FieldStart && b != LF && b != CR
    ensures Step(m, b, utf8, U64_MAX) == Step(Begin(m.(afterCr := false)), b, utf8, U64_MAX)
  {
  }

  lemma CloseFollows(d: Document, b: u8, utf8: Text -> bool)
    requires d.tail.Partial? && !d.tail.open.InQuotes?
    requires b == DELIMITER || b == LF || b == CR
    ensures Follows(Step(ReaderOf(d), b, utf8, U64_MAX), Extend(d, b, utf8))
  {
    CloseFieldFollows(d.items, d.tail, utf8);
    if b == DELIMITER {
      assert Step(ReaderOf(d), b, utf8, U64_MAX) == EndField(ReaderOf(d), utf8, U64_MAX);
    } else {
      EndRowFollows(d, if b == LF then Lf else Cr, utf8);
      StepEndsRow(ReaderOf(d), b, utf8);
    }
  }

  /** A line ending in an open row, outside quotes, ends the record. */
  lemma StepEndsRow(m: Machine, b: u8, utf8: Text -> bool)
    requires m.started && m.state != Quoted && !m.afterCr && (b == LF || b == CR)
    ensures Step(m, b, utf8, U64_MAX) == EndRecord(m.(line := m.line + 1, afterCr := b == CR), utf8, U64_MAX)
  {
  }

  lemma EndRowFollows(d: Document, end: Ending, utf8: Text -> bool)
    requires d.tail.Partial? && !d.tail.open.InQuotes?
    ensures var m := ReaderOf(d);
            var r := EndRecord(m.(line := m.line + 1, afterCr := end == Cr), utf8, U64_MAX);
            if Closes(d.tail, utf8)
            then r == Ok(ReaderOf(Document(d.items + [Row(d.tail.cells + [Closing(d.tail.open)], end)], Nothing)))
            else r.Err? && r.error.Malformed?
  {
    var m := ReaderOf(d);
    CloseFieldFollows(d.items, d.tail, utf8);
    CloseFieldMoved(m, m.line + 1, end == Cr, utf8);
    FiledFollows(d.items, d.tail.cells + [Closing(d.tail.open)], end);
    CellsSnoc(d.tail.cells, Closing(d.tail.open));
  }

  /** Closing a field reads neither the line count nor the CR flag. */
  lemma CloseFieldMoved(m: Machine, line: nat, afterCr: bool, utf8: Text -> bool)
    ensures var moved := EndField(m.(line := line, afterCr := afterCr), utf8, U64_MAX);
            var r := EndField(m, utf8, U64_MAX);
            moved == if r.Ok? then Ok(r.value.(line := line, afterCr := afterCr)) else r
  {
  }

  lemma TypedFollows(d: Document, b: u8, utf8: Text -> bool)
    requires d.tail.Partial?
    requires d.tail.open.InQuotes? || (b != DELIMITER && b != LF && b != CR)
    ensures Follows(Step(ReaderOf(d), b, utf8, U64_MAX), Extend(d, b, utf8))
  {
    if d.tail.open.InQuotes? {
      QuotedFollows(d, b, utf8);
    } else {
      UnquotedFollows(d, b, utf8);
    }
  }

  lemma PushUnbounded(m: Machine, b: u8)
    ensures Push(m, b, U64_MAX) ==
            if |m.field| < MAX_FIELD then Ok(m.(field := m.field + [b]))
            else Err(Malformed(m.recordLine, FieldTooLong))
  {
  }

  lemma QuotedReader(items: seq<Item>, cells: seq<Printed>, text: Text, b: u8)
    ensures var m := ReaderOf(Document(items, Partial(cells, InQuotes(text))));
            var counted := if b == LF then m.(line := m.line + 1) else m;
            ReaderOf(Document(items, Partial(cells, InQuotes(text + [b])))) == counted.(field := text + [b])
  {
    TextSnoc(text, b);
  }

  lemma QuotedFollows(d: Document, b: u8, utf8: Text -> bool)
    requires d.tail.Partial? && d.tail.open.InQuotes?
    ensures Follows(Step(ReaderOf(d), b, utf8, U64_MAX), Extend(d, b, utf8))
  {
    var m := ReaderOf(d);
    if b == QUOTE {
      assert Step(m, b, utf8, U64_MAX) == Ok(m.(state := QuoteInQuoted));
    } else {
      QuotedReader(d.items, d.tail.cells, d.tail.open.text, b);
      StepQuoted(m, b, utf8);
    }
  }

  lemma StepQuoted(m: Machine, b: u8, utf8: Text -> bool)
    requires m.state == Quoted && b != QUOTE
    ensures var counted := if b == LF then m.(line := m.line + 1) else m;
            Step(m, b, utf8, U64_MAX) ==
            if |m.field| < MAX_FIELD then Ok(counted.(field := m.field + [b]))
            else Err(Malformed(m.recordLine, FieldTooLong))
  {
    PushUnbounded(m, b);
    PushUnbounded(m.(line := m.line + 1), b);
  }

  lemma StepTypes(m: Machine, b: u8, utf8: Text -> bool)
    requires m.started && m.state != Quoted && !m.afterCr && (m.state == FieldStart ==> m.field == [])
    requires b != DELIMITER && b != LF && b != CR
    ensures Step(m, b, utf8, U64_MAX) ==
            if m.state == FieldStart && b == QUOTE then Ok(m.(state := Quoted))
            else if m.state == QuoteInQuoted && b != QUOTE then Err(Malformed(m.recordLine, TextAfterQuote))
            else if |m.field| >= MAX_FIELD then Err(Malformed(m.recordLine, FieldTooLong))
            else Ok(m.(field := m.field + [b], state := if m.state == QuoteInQuoted then Quoted else Unquoted))
  {
    PushUnbounded(m, b);
  }

  lemma UnquotedFollows(d: Document, b: u8, utf8: Text -> bool)
    requires d.tail.Partial? && !d.tail.open.InQuotes?
    requires b != DELIMITER && b != LF && b != CR
    ensures Follows(Step(ReaderOf(d), b, utf8, U64_MAX), Extend(d, b, utf8))
  {
    StepTypes(ReaderOf(d), b, utf8);
    if d.tail.open.AtStart? {
      assert HeldText(d.tail.open) + [b] == [b];
    } else if d.tail.open.AfterQuote? {
      QuotedReader(d.items, d.tail.cells, d.tail.open.text, QUOTE);
    }
  }

  lemma StepFollows(d: Document, b: u8, utf8: Text -> bool)
    requires WritableDocument(d, utf8)
    ensures Follows(Step(ReaderOf(d), b, utf8, U64_MAX), Extend(d, b, utf8))
  {
    if d.tail.Nothing? && (b == LF || b == CR) {
      BlankFollows(d.items, b, utf8);
    } else if d.tail.Nothing? {
      OpenFollows(d.items, b, utf8);
    } else if !d.tail.open.InQuotes? && (b == DELIMITER || b == LF || b == CR) {
      CloseFollows(d, b, utf8);
    } else {
      TypedFollows(d, b, utf8);
    }
  }

  // ----- From bytes to the document ---------------------------------------------------------

  const EMPTY: Document := Document([], Nothing)

  /** The one document a text is, when it is one. */
  function DocumentOf(bytes: Text, utf8: Text -> bool): Option<Document> {
    if bytes == [] then Some(EMPTY)
    else
      var before := DocumentOf(bytes[..|bytes| - 1], utf8);
      if before.None? then None else Extend(before.value, bytes[|bytes| - 1], utf8)
  }

  /**
   * After every prefix of every input, the reader is the reader of the document
   * that prefix is: its records, its open field, its line and its record's line.
   * What it refuses is no document.
   */
  lemma {:induction false} EveryPrefixIsADocument(bytes: Text, utf8: Text -> bool)
    ensures Follows(Run(bytes, utf8, U64_MAX), DocumentOf(bytes, utf8))
    ensures var d := DocumentOf(bytes, utf8);
            d.Some? ==> WritableDocument(d.value, utf8) && TextOf(d.value) == bytes
  {
    if bytes == [] {
      assert ReaderOf(EMPTY) == FRESH;
    } else {
      var n := |bytes| - 1;
      EveryPrefixIsADocument(bytes[..n], utf8);
      var d := DocumentOf(bytes[..n], utf8);
      if d.Some? {
        ByteFollows(d.value, bytes[n], utf8);
        assert bytes[..n] + [bytes[n]] == bytes;
      }
    }
  }

  lemma ByteFollows(d: Document, b: u8, utf8: Text -> bool)
    requires WritableDocument(d, utf8)
    ensures var next := Extend(d, b, utf8);
            && Follows(Step(ReaderOf(d), b, utf8, U64_MAX), next)
            && (next.Some? ==> WritableDocument(next.value, utf8) && TextOf(next.value) == TextOf(d) + [b])
  {
    StepFollows(d, b, utf8);
    if Extend(d, b, utf8).Some? {
      ExtendText(d, b, utf8);
      ExtendWritable(d, b, utf8);
    }
  }

  // ----- From the document to its bytes -------------------------------------------------------

  /** The tail that stood before the last of these cells was closed. */
  function Reopened(cells: seq<Printed>): Tail
    requires cells != []
  {
    var rest, last := cells[..|cells| - 1], cells[|cells| - 1];
    if last.quoted then Partial(rest, AfterQuote(last.text))
    else if last.text != [] then Partial(rest, InBare(last.text))
    else FieldAfter(rest)
  }

  /** The tail right behind some closed cells. */
  function FieldAfter(cells: seq<Printed>): Tail {
    if cells == [] then Nothing else Partial(cells, AtStart)
  }

  function LastByte(item: Item): u8 {
    if item.end == Cr then CR else LF
  }

  /** The document that lacks the last byte of its last line, and the byte. */
  function ShorterItem(rest: seq<Item>, last: Item): (Document, u8)
    requires last.Row? ==> last.cells != []
  {
    (if last.end == CrLf then Document(rest + [last.(end := Cr)], Nothing)
     else Document(rest, if last.Blank? then Nothing else Reopened(last.cells)),
     LastByte(last))
  }

  /** The document one byte shorter, and the byte. */
  function Shorter(d: Document): (Document, u8)
    requires d.tail.Nothing? ==> d.items != [] && (d.items[|d.items| - 1].Row? ==> d.items[|d.items| - 1].cells != [])
    requires d.tail.Partial? && d.tail.open.AtStart? ==> d.tail.cells != []
    requires d.tail.Partial? && d.tail.open.InBare? ==> d.tail.open.text != []
  {
    if d.tail.Nothing? then
      ShorterItem(d.items[..|d.items| - 1], d.items[|d.items| - 1])
    else
      var cells := d.tail.cells;
      match d.tail.open
      case AtStart => (Document(d.items, Reopened(cells)), DELIMITER)
      case InBare(text) =>
        var n := |text| - 1;
        (Document(d.items, if n == 0 then FieldAfter(cells) else Partial(cells, InBare(text[..n]))), text[n])
      case AfterQuote(text) => (Document(d.items, Partial(cells, InQuotes(text))), QUOTE)
      case InQuotes(text) =>
        if text == [] then (Document(d.items, FieldAfter(cells)), QUOTE)
        else
          var rest, last := text[..|text| - 1], text[|text| - 1];
          (Document(d.items, Partial(cells, if last == QUOTE then AfterQuote(rest) else InQuotes(rest))), last)
  }

  lemma ReopenedWritable(cells: seq<Printed>, utf8: Text -> bool)
    requires 1 <= |cells| <= MAX_FIELDS && forall cell <- cells :: Writable(cell, utf8)
    ensures WritableTail(Reopened(cells), utf8)
  {
    assert Writable(cells[|cells| - 1], utf8);
  }

  lemma ReopenedCloses(items: seq<Item>, cells: seq<Printed>, b: u8, utf8: Text -> bool)
    requires 1 <= |cells| <= MAX_FIELDS && forall cell <- cells :: Writable(cell, utf8)
    requires b == DELIMITER || ((b == LF || b == CR) && WritableRow(cells, utf8))
    ensures Extend(Document(items, Reopened(cells)), b, utf8) ==
            Some(if b == DELIMITER then Document(items, Partial(cells, AtStart))
                 else Document(items + [Row(cells, if b == LF then Lf else Cr)], Nothing))
  {
    var rest, last := cells[..|cells| - 1], cells[|cells| - 1];
    assert cells == rest + [last];
    assert Writable(last, utf8);
    if Reopened(cells).Partial? {
      assert Closing(Reopened(cells).open) == last;
    }
  }

  lemma ShorterExtends(d: Document, utf8: Text -> bool)
    requires WritableDocument(d, utf8) && d != EMPTY
    ensures var (before, b) := Shorter(d);
            WritableDocument(before, utf8) && Extend(before, b, utf8) == Some(d)
  {
    var (before, b) := Shorter(d);
    if d.tail.Nothing? {
      ShorterLine(d.items, utf8);
    } else {
      match d.tail.open
      case AtStart =>
        ReopenedWritable(d.tail.cells, utf8);
        ReopenedCloses(d.items, d.tail.cells, DELIMITER, utf8);
      case InBare(text) =>
        assert text == text[..|text| - 1] + [b];
      case InQuotes(text) =>
        if text != [] {
          assert text == text[..|text| - 1] + [b];
        }
      case AfterQuote(text) =>
    }
  }

  lemma JoinedBack(rest: seq<Item>, last: Item)
    requires last.end == CrLf
    ensures EndsInCr(rest + [last.(end := Cr)])
    ensures Joined(rest + [last.(end := Cr)]) == rest + [last]
  {
    assert (rest + [last.(end := Cr)])[..|rest|] == rest;
  }

  lemma ShorterLine(items: seq<Item>, utf8: Text -> bool)
    requires WritableItems(items, utf8) && items != []
    ensures var (before, b) := Shorter(Document(items, Nothing));
            WritableDocument(before, utf8) && Extend(before, b, utf8) == Some(Document(items, Nothing))
  {
    var rest, last := items[..|items| - 1], items[|items| - 1];
    ShorterItemExtends(rest, last, utf8);
    ShorterIsItem(items, rest, last);
  }

  lemma ShorterIsItem(items: seq<Item>, rest: seq<Item>, last: Item)
    requires items != [] && rest == items[..|items| - 1] && last == items[|items| - 1]
    requires last.Row? ==> last.cells != []
    ensures Shorter(Document(items, Nothing)) == ShorterItem(rest, last) && rest + [last] == items
  {
  }

  lemma ShorterItemExtends(rest: seq<Item>, last: Item, utf8: Text -> bool)
    requires WritableItems(rest, utf8)
    requires if last.Row? then WritableRow(last.cells, utf8) else last.end == Lf ==> !EndsInCr(rest)
    ensures var (before, b) := ShorterItem(rest, last);
            WritableDocument(before, utf8) && Extend(before, b, utf8) == Some(Document(rest + [last], Nothing))
  {
    if last.end == CrLf {
      ShorterCrLf(rest, last, utf8);
    } else if last.Row? {
      ReopenedWritable(last.cells, utf8);
      ReopenedCloses(rest, last.cells, LastByte(last), utf8);
    } else {
      ShorterBlank(rest, last, utf8);
    }
  }

  lemma ShorterCrLf(rest: seq<Item>, last: Item, utf8: Text -> bool)
    requires WritableItems(rest, utf8) && last.end == CrLf && (last.Row? ==> WritableRow(last.cells, utf8))
    ensures var (before, b) := ShorterItem(rest, last);
            WritableDocument(before, utf8) && Extend(before, b, utf8) == Some(Document(rest + [last], Nothing))
  {
    WritableSnoc(rest, last.(end := Cr), utf8);
    JoinedBack(rest, last);
  }

  lemma ShorterBlank(rest: seq<Item>, last: Item, utf8: Text -> bool)
    requires WritableItems(rest, utf8) && last.Blank? && last.end != CrLf && (last.end == Lf ==> !EndsInCr(rest))
    ensures var (before, b) := ShorterItem(rest, last);
            WritableDocument(before, utf8) && Extend(before, b, utf8) == Some(Document(rest + [last], Nothing))
  {
  }

  /** No two documents share a text, and none is lost on the way. */
  lemma {:induction false} DocumentOfText(d: Document, utf8: Text -> bool)
    requires WritableDocument(d, utf8)
    ensures DocumentOf(TextOf(d), utf8) == Some(d)
    decreases |TextOf(d)|
  {
    if d != EMPTY {
      var (before, b) := Shorter(d);
      ShorterExtends(d, utf8);
      ExtendText(before, b, utf8);
      DocumentOfText(before, utf8);
      assert TextOf(d)[..|TextOf(d)| - 1] == TextOf(before);
    }
  }

  // ----- Whole files -----------------------------------------------------------------------------

  /** A file that may end here: not inside quotes, and its last field closes. */
  predicate Complete(d: Document, utf8: Text -> bool) {
    d.tail.Partial? ==> !d.tail.open.InQuotes? && Closes(d.tail, utf8)
  }

  /** The records of a file, a last row without a line ending included. */
  function AllRecords(d: Document): seq<Record>
    requires d.tail.Partial? ==> !d.tail.open.InQuotes?
  {
    if d.tail.Nothing? then RecordsOf(d.items)
    else RecordsOf(d.items) + [Record(LineAfter(d.items), Texts(d.tail.cells + [Closing(d.tail.open)]))]
  }

  lemma FinishFollows(d: Document, utf8: Text -> bool)
    ensures var r := Finish(ReaderOf(d), utf8, U64_MAX);
            if Complete(d, utf8) then r.Ok? && r.value.records == AllRecords(d) else r.Err?
  {
    if d.tail.Partial? && !d.tail.open.InQuotes? {
      CloseFieldFollows(d.items, d.tail, utf8);
    }
  }

  /**
   * Written and read back: however a file's rows are quoted and its lines ended,
   * the reader hands back its cells, each row at the line it starts on.
   */
  lemma RoundTrip(d: Document, utf8: Text -> bool)
    requires WritableDocument(d, utf8) && Complete(d, utf8)
    ensures var r := ReadAll(TextOf(d), utf8, U64_MAX);
            r.Ok? && r.value.records == AllRecords(d)
  {
    DocumentOfText(d, utf8);
    EveryPrefixIsADocument(TextOf(d), utf8);
    FinishFollows(d, utf8);
  }

  /** Whatever the reader accepts is such a file, and those are its records. */
  lemma AcceptsOnlyDocuments(bytes: Text, utf8: Text -> bool)
    requires ReadAll(bytes, utf8, U64_MAX).Ok?
    ensures var d := DocumentOf(bytes, utf8);
            && d.Some?
            && WritableDocument(d.value, utf8)
            && Complete(d.value, utf8)
            && TextOf(d.value) == bytes
            && ReadAll(bytes, utf8, U64_MAX).value.records == AllRecords(d.value)
  {
    EveryPrefixIsADocument(bytes, utf8);
    FinishFollows(DocumentOf(bytes, utf8).value, utf8);
  }
}
