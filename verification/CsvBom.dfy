/**
 * When a byte-order mark is transparent. The mark is dropped from the first
 * field after the fields are read, so it is in the way while they are.
 */
module CsvBom {
  import opened Basics
  import opened Rows
  import opened Csv
  import opened CsvDocument
  import opened CsvTable

  /** What a UTF-8 test says of the mark: it is a whole scalar value. */
  ghost predicate TakesBom(utf8: Text -> bool) {
    forall text: Text :: utf8(BOM + text) == utf8(text)
  }

  /** The first field of the file so far. */
  function FirstText(m: Machine): Text {
    if m.records != [] && m.records[0].fields != [] then m.records[0].fields[0]
    else if m.fields != [] then m.fields[0]
    else m.field
  }

  // ----- A marked file read beside an unmarked one ---------------------------------

  function Marked(fields: seq<Text>): seq<Text>
    requires fields != []
  {
    fields[0 := BOM + fields[0]]
  }

  /** The first field is closed, or open and unquoted. */
  predicate Markable(m: Machine) {
    if m.records != [] then m.records[0].fields != []
    else m.started && (m.fields != [] || m.state == Unquoted)
  }

  /** The reader that has a byte-order mark in front of the first field. */
  function Mark(m: Machine): Machine
    requires Markable(m)
  {
    if m.records != [] then
      m.(records := m.records[0 := m.records[0].(fields := Marked(m.records[0].fields))])
    else if m.fields != [] then m.(fields := Marked(m.fields))
    else m.(field := BOM + m.field)
  }

  lemma PushMarked(m: Machine, b: u8)
    requires Markable(m) && Push(m, b, U64_MAX).Ok?
    requires |FirstText(Push(m, b, U64_MAX).value)| + |BOM| <= MAX_FIELD
    ensures Markable(Push(m, b, U64_MAX).value)
    ensures Push(Mark(m), b, U64_MAX) == Ok(Mark(Push(m, b, U64_MAX).value))
  {
    assert BOM + m.field + [b] == BOM + (m.field + [b]);
  }

  lemma EndFieldMarked(m: Machine, utf8: Text -> bool)
    requires TakesBom(utf8) && Markable(m) && m.started && EndField(m, utf8, U64_MAX).Ok?
    ensures Markable(EndField(m, utf8, U64_MAX).value)
    ensures EndField(Mark(m), utf8, U64_MAX) == Ok(Mark(EndField(m, utf8, U64_MAX).value))
  {
    var closed := EndField(m, utf8, U64_MAX).value;
    if m.records == [] && m.fields != [] {
      assert Marked(m.fields + [m.field]) == Marked(m.fields) + [m.field];
    } else if m.records == [] {
      assert closed.fields == [m.field];
      assert Marked(closed.fields) == Mark(m).fields + [Mark(m).field];
    }
  }

  lemma FiledMarked(m: Machine)
    requires Markable(m) && m.fields != []
    ensures Markable(Filed(m)) && Filed(Mark(m)) == Mark(Filed(m))
  {
    var filed := Filed(m);
    if m.records == [] {
      assert filed.records[0 := filed.records[0].(fields := Marked(m.fields))]
             == [Record(m.recordLine, Marked(m.fields))];
    } else {
      var first := m.records[0].(fields := Marked(m.records[0].fields));
      assert filed.records[0 := first] == m.records[0 := first] + [Record(m.recordLine, m.fields)];
    }
  }

  lemma NewlineMarked(m: Machine, utf8: Text -> bool)
    requires TakesBom(utf8) && Markable(m) && Newline(m, utf8, U64_MAX).Ok?
    ensures Markable(Newline(m, utf8, U64_MAX).value)
    ensures Newline(Mark(m), utf8, U64_MAX) == Ok(Mark(Newline(m, utf8, U64_MAX).value))
  {
    if m.started {
      var next := m.(line := m.line + 1);
      EndFieldMarked(next, utf8);
      FiledMarked(EndField(next, utf8, U64_MAX).value);
      assert Mark(next) == Mark(m).(line := m.line + 1);
      assert Newline(Mark(m), utf8, U64_MAX) == EndRecord(Mark(next), utf8, U64_MAX);
    }
  }

  lemma StepMarked(m: Machine, b: u8, utf8: Text -> bool)
    requires TakesBom(utf8) && Consistent(m) && Markable(m) && Step(m, b, utf8, U64_MAX).Ok?
    requires |FirstText(Step(m, b, utf8, U64_MAX).value)| + |BOM| <= MAX_FIELD
    ensures Markable(Step(m, b, utf8, U64_MAX).value)
    ensures Step(Mark(m), b, utf8, U64_MAX) == Ok(Mark(Step(m, b, utf8, U64_MAX).value))
  {
    var n := if m.state != Quoted then m.(afterCr := false) else m;
    assert Mark(n) == if m.state != Quoted then Mark(m).(afterCr := false) else Mark(m);
    if n.state != Quoted && b == LF && m.afterCr {
    } else if n.state != Quoted && b == LF {
      NewlineMarked(n, utf8);
    } else if n.state != Quoted && b == CR {
      NewlineMarked(n.(afterCr := true), utf8);
      assert Mark(n.(afterCr := true)) == Mark(n).(afterCr := true);
    } else if n.state != Quoted && b == DELIMITER {
      EndFieldMarked(Begin(n), utf8);
      assert Mark(Begin(n)) == Begin(Mark(n));
    } else {
      ContentMarked(n, b, utf8);
    }
  }

  lemma ContentMarked(m: Machine, b: u8, utf8: Text -> bool)
    requires Consistent(m) && Markable(m) && Consume(m, b, utf8, U64_MAX).Ok?
    requires m.state == Quoted || (b != LF && b != CR && b != DELIMITER)
    requires |FirstText(Consume(m, b, utf8, U64_MAX).value)| + |BOM| <= MAX_FIELD
    ensures Markable(Consume(m, b, utf8, U64_MAX).value)
    ensures Consume(Mark(m), b, utf8, U64_MAX) == Ok(Mark(Consume(m, b, utf8, U64_MAX).value))
  {
    var n := if m.state == FieldStart then Begin(m)
             else if m.state == Quoted && b == LF then m.(line := m.line + 1) else m;
    assert Mark(n) == if m.state == FieldStart then Begin(Mark(m))
                      else if m.state == Quoted && b == LF then Mark(m).(line := m.line + 1) else Mark(m);
    if b != QUOTE || m.state == Unquoted || m.state == QuoteInQuoted {
      PushMarked(n, b);
    }
  }

  // ----- The first field only grows -----------------------------------------------------

  ghost predicate Sound(m: Machine) {
    Consistent(m) && (m.records != [] ==> m.records[0].fields != [])
  }

  lemma ContentGrows(m: Machine, b: u8, utf8: Text -> bool)
    requires Sound(m) && Consume(m, b, utf8, U64_MAX).Ok?
    requires !m.afterCr && (m.state == Quoted || (b != LF && b != CR && b != DELIMITER))
    ensures var next := Consume(m, b, utf8, U64_MAX).value;
            && next.records == m.records && next.fields == m.fields && m.field <= next.field
  {
  }

  lemma StepGrows(m: Machine, b: u8, utf8: Text -> bool)
    requires Sound(m) && Step(m, b, utf8, U64_MAX).Ok?
    ensures var next := Step(m, b, utf8, U64_MAX).value;
            && Sound(next)
            && FirstText(m) <= FirstText(next)
            && (m.records != [] || m.fields != [] ==> FirstText(m) == FirstText(next))
  {
    StepKeepsConsistent(m, b, utf8, U64_MAX);
    if m.state == Quoted || (b != LF && b != CR && b != DELIMITER) {
      ContentGrows(m.(afterCr := false), b, utf8);
    }
  }

  lemma {:induction false} RunIsSound(bytes: Text, utf8: Text -> bool)
    requires Run(bytes, utf8, U64_MAX).Ok?
    ensures Sound(Run(bytes, utf8, U64_MAX).value)
  {
    if bytes != [] {
      RunIsSound(bytes[..|bytes| - 1], utf8);
      StepGrows(Run(bytes[..|bytes| - 1], utf8, U64_MAX).value, bytes[|bytes| - 1], utf8);
    }
  }

  lemma FinishGrows(m: Machine, utf8: Text -> bool)
    requires Sound(m) && Finish(m, utf8, U64_MAX).Ok?
    ensures var end := Finish(m, utf8, U64_MAX).value;
            && FirstText(end) == FirstText(m)
            && (end.records != [] <==> m.started || m.records != [])
            && (end.records != [] ==> end.records[0].fields != [])
  {
  }

  // ----- A mark before plain text ------------------------------------------------------------

  const AFTER_BOM: Machine := FRESH.(started := true, field := BOM, state := Unquoted)

  lemma BomRun(utf8: Text -> bool)
    ensures Run(BOM, utf8, U64_MAX) == Ok(AFTER_BOM)
  {
    var a, b, c: u8 := 0xEF, 0xBB, 0xBF;
    assert [] + [a] == [a] && [a] + [b] == [a, b] && [a, b] + [c] == BOM;
    RunSnoc([], a, utf8, U64_MAX);
    RunSnoc([a], b, utf8, U64_MAX);
    RunSnoc([a, b], c, utf8, U64_MAX);
  }

  lemma FirstByteMarked(b: u8, utf8: Text -> bool)
    requires TakesBom(utf8) && b != QUOTE && b != CR && b != LF
    requires Step(FRESH, b, utf8, U64_MAX).Ok?
    ensures Markable(Step(FRESH, b, utf8, U64_MAX).value)
    ensures Step(AFTER_BOM, b, utf8, U64_MAX) == Ok(Mark(Step(FRESH, b, utf8, U64_MAX).value))
  {
    var next := Step(FRESH, b, utf8, U64_MAX).value;
    if b == DELIMITER {
      assert next.fields == [[]];
      assert BOM + [] == BOM;
      assert utf8(BOM + []);
      assert Marked(next.fields) == [] + [BOM];
    } else {
      assert next.field == [b];
    }
  }

  lemma {:induction false} RunMarked(bytes: Text, utf8: Text -> bool)
    requires TakesBom(utf8) && Run(bytes, utf8, U64_MAX).Ok?
    requires bytes != [] && bytes[0] != QUOTE && bytes[0] != CR && bytes[0] != LF
    requires |FirstText(Run(bytes, utf8, U64_MAX).value)| + |BOM| <= MAX_FIELD
    ensures Markable(Run(bytes, utf8, U64_MAX).value)
    ensures Run(BOM + bytes, utf8, U64_MAX) == Ok(Mark(Run(bytes, utf8, U64_MAX).value))
  {
    var n := |bytes| - 1;
    var before := Run(bytes[..n], utf8, U64_MAX).value;
    RunSnoc(BOM + bytes[..n], bytes[n], utf8, U64_MAX);
    assert BOM + bytes[..n] + [bytes[n]] == BOM + bytes;
    if n == 0 {
      assert BOM + bytes[..0] == BOM;
      BomRun(utf8);
      FirstByteMarked(bytes[0], utf8);
    } else {
      RunIsSound(bytes[..n], utf8);
      StepGrows(before, bytes[n], utf8);
      RunMarked(bytes[..n], utf8);
      StepMarked(before, bytes[n], utf8);
    }
  }

  lemma FinishMarked(m: Machine, utf8: Text -> bool)
    requires TakesBom(utf8) && Sound(m) && Markable(m) && Finish(m, utf8, U64_MAX).Ok?
    ensures var end := Finish(m, utf8, U64_MAX).value;
            var marked := Finish(Mark(m), utf8, U64_MAX);
            marked.Ok? && StripBom(marked.value.records) == end.records
  {
    var end := Finish(m, utf8, U64_MAX).value;
    if m.started {
      EndFieldMarked(m, utf8);
      FiledMarked(EndField(m, utf8, U64_MAX).value);
    }
    assert Finish(Mark(m), utf8, U64_MAX) == Ok(Mark(end));
    StripMarked(end);
  }

  lemma StripMarked(m: Machine)
    requires Markable(m) && m.records != []
    ensures StripBom(Mark(m).records) == m.records
  {
    var first := m.records[0];
    assert (BOM + first.fields[0])[|BOM|..] == first.fields[0];
    assert Marked(first.fields)[0 := first.fields[0]] == first.fields;
    assert [first] + m.records[1..] == m.records;
  }

  // ----- A mark before a blank line --------------------------------------------------------------

  /** The reader that holds one more record in front. */
  function Shift(m: Machine, extra: Record): Machine {
    m.(records := [extra] + m.records)
  }

  lemma StepShifted(m: Machine, b: u8, extra: Record, utf8: Text -> bool)
    requires Step(m, b, utf8, U64_MAX).Ok?
    ensures Step(Shift(m, extra), b, utf8, U64_MAX) == Ok(Shift(Step(m, b, utf8, U64_MAX).value, extra))
  {
    var record := Record(m.recordLine, m.fields + [m.field]);
    assert [extra] + m.records + [record] == [extra] + (m.records + [record]);
  }

  lemma BlankAfterBom(b: u8, utf8: Text -> bool)
    requires TakesBom(utf8) && utf8([]) && (b == CR || b == LF)
    ensures Step(FRESH, b, utf8, U64_MAX).Ok?
    ensures Step(AFTER_BOM, b, utf8, U64_MAX) == Ok(Shift(Step(FRESH, b, utf8, U64_MAX).value, Record(1, [BOM])))
  {
    assert BOM + [] == BOM;
    assert utf8(BOM + []);
    assert [] + [BOM] == [BOM];
    assert [] + [Record(1, [BOM])] == [Record(1, [BOM])] + [];
  }

  lemma {:induction false} RunShifted(bytes: Text, utf8: Text -> bool)
    requires TakesBom(utf8) && utf8([]) && Run(bytes, utf8, U64_MAX).Ok?
    requires bytes != [] && (bytes[0] == CR || bytes[0] == LF)
    ensures Run(BOM + bytes, utf8, U64_MAX) == Ok(Shift(Run(bytes, utf8, U64_MAX).value, Record(1, [BOM])))
  {
    var n := |bytes| - 1;
    RunSnoc(BOM + bytes[..n], bytes[n], utf8, U64_MAX);
    assert BOM + bytes[..n] + [bytes[n]] == BOM + bytes;
    if n == 0 {
      assert BOM + bytes[..0] == BOM;
      BomRun(utf8);
      BlankAfterBom(bytes[0], utf8);
    } else {
      RunShifted(bytes[..n], utf8);
      StepShifted(Run(bytes[..n], utf8, U64_MAX).value, bytes[n], Record(1, [BOM]), utf8);
    }
  }

  lemma FinishShifted(m: Machine, extra: Record, utf8: Text -> bool)
    requires Finish(m, utf8, U64_MAX).Ok?
    ensures Finish(Shift(m, extra), utf8, U64_MAX) == Ok(Shift(Finish(m, utf8, U64_MAX).value, extra))
  {
    var record := Record(m.recordLine, m.fields + [m.field]);
    assert [extra] + m.records + [record] == [extra] + (m.records + [record]);
  }

  // ----- A mark before a quoted field ------------------------------------------------------------

  predicate Special(b: u8) {
    b == DELIMITER || b == CR || b == LF
  }

  /** The bytes before the first delimiter or line ending. */
  function Plain(bytes: Text): Text {
    if bytes == [] then []
    else
      var n := |bytes| - 1;
      if Plain(bytes[..n]) == bytes[..n] && !Special(bytes[n]) then bytes else Plain(bytes[..n])
  }

  lemma {:induction false} PlainIsLongest(bytes: Text, start: Text)
    requires start <= bytes && forall b <- start :: !Special(b)
    ensures start <= Plain(bytes) <= bytes
    ensures forall b <- Plain(bytes) :: !Special(b)
  {
    if bytes != [] {
      var n := |bytes| - 1;
      if start == bytes {
        PlainIsLongest(bytes[..n], start[..n]);
      } else {
        PlainIsLongest(bytes[..n], start);
      }
    }
  }

  /** Once a first field is open and unquoted a quote is data: it runs to the first delimiter or ending. */
  ghost predicate ReadsPlain(m: Machine, lead: Text, bytes: Text) {
    if Plain(bytes) == bytes
    then m == AFTER_BOM.(field := lead + bytes)
    else (m.records != [] || m.fields != []) && FirstText(m) == lead + Plain(bytes)
  }

  /** The first field open, one more byte joins it or ends it. */
  ghost predicate Continues(next: Machine, text: Text, b: u8) {
    if Special(b) then (next.records != [] || next.fields != []) && FirstText(next) == text
    else next == AFTER_BOM.(field := text + [b])
  }

  lemma StepContinues(text: Text, b: u8, utf8: Text -> bool)
    requires Step(AFTER_BOM.(field := text), b, utf8, U64_MAX).Ok?
    ensures Continues(Step(AFTER_BOM.(field := text), b, utf8, U64_MAX).value, text, b)
  {
  }

  lemma NextReadsPlain(m: Machine, next: Machine, lead: Text, bytes: Text, b: u8)
    requires ReadsPlain(m, lead, bytes)
    requires if Plain(bytes) == bytes then Continues(next, lead + bytes, b)
             else (next.records != [] || next.fields != []) && FirstText(next) == FirstText(m)
    ensures ReadsPlain(next, lead, bytes + [b])
  {
    assert (bytes + [b])[..|bytes|] == bytes;
    assert lead + bytes + [b] == lead + (bytes + [b]);
    PlainIsLongest(bytes, []);
  }

  lemma StepReadsPlain(m: Machine, lead: Text, bytes: Text, b: u8, utf8: Text -> bool)
    requires Sound(m) && ReadsPlain(m, lead, bytes) && Step(m, b, utf8, U64_MAX).Ok?
    ensures ReadsPlain(Step(m, b, utf8, U64_MAX).value, lead, bytes + [b])
  {
    if Plain(bytes) == bytes {
      StepContinues(lead + bytes, b, utf8);
    } else {
      StepGrows(m, b, utf8);
      StillClosed(m, b, utf8);
    }
    NextReadsPlain(m, Step(m, b, utf8, U64_MAX).value, lead, bytes, b);
  }

  lemma {:induction false} RunReadsPlain(bytes: Text, utf8: Text -> bool)
    requires Run(BOM + bytes, utf8, U64_MAX).Ok?
    ensures ReadsPlain(Run(BOM + bytes, utf8, U64_MAX).value, BOM, bytes)
  {
    if bytes == [] {
      assert BOM + bytes == BOM;
      BomRun(utf8);
    } else {
      var rest, last := bytes[..|bytes| - 1], bytes[|bytes| - 1];
      var marked := BOM + rest;
      assert rest + [last] == bytes;
      assert marked + [last] == BOM + bytes;
      RunSnoc(marked, last, utf8, U64_MAX);
      RunReadsPlain(rest, utf8);
      RunIsSound(marked, utf8);
      StepReadsPlain(Run(marked, utf8, U64_MAX).value, BOM, rest, last, utf8);
    }
  }

  /** Where ordinary text or a delimiter opens the file, the same without the mark. */
  predicate OpensPlain(bytes: Text) {
    bytes != [] && bytes[0] != QUOTE && bytes[0] != CR && bytes[0] != LF
  }

  lemma {:induction false} RunReadsText(bytes: Text, utf8: Text -> bool)
    requires OpensPlain(bytes) && Run(bytes, utf8, U64_MAX).Ok?
    ensures ReadsPlain(Run(bytes, utf8, U64_MAX).value, [], bytes)
  {
    var rest, last := bytes[..|bytes| - 1], bytes[|bytes| - 1];
    assert rest + [last] == bytes;
    if rest == [] {
      assert Run(rest, utf8, U64_MAX) == Ok(FRESH);
      assert Plain(rest) == rest && [] + bytes == bytes == [last];
    } else {
      RunReadsText(rest, utf8);
      RunIsSound(rest, utf8);
      StepReadsPlain(Run(rest, utf8, U64_MAX).value, [], rest, last, utf8);
    }
  }

  /** The first field of such a file can be seen on its bytes. */
  lemma FirstTextIsPlain(bytes: Text, utf8: Text -> bool)
    requires OpensPlain(bytes) && ReadAll(bytes, utf8, U64_MAX).Ok?
    ensures FirstText(ReadAll(bytes, utf8, U64_MAX).value) == Plain(bytes)
    ensures ReadAll(bytes, utf8, U64_MAX).value.records != []
  {
    RunReadsText(bytes, utf8);
    RunIsSound(bytes, utf8);
    FinishGrows(Run(bytes, utf8, U64_MAX).value, utf8);
  }

  /** Without the mark, a first field in quotes is what stands between them. */
  ghost predicate ReadsQuoted(m: Machine, bytes: Text) {
    if m.records == [] && m.fields == [] then
      && m.started
      && (m.state == Quoted || m.state == QuoteInQuoted)
      && bytes == [QUOTE] + Escape(m.field) + (if m.state == Quoted then [] else [QUOTE])
    else [QUOTE] + Escape(FirstText(m)) + [QUOTE] <= bytes
  }

  /** Closing the first field makes it the first field. */
  lemma CloseFirst(m: Machine, b: u8, utf8: Text -> bool)
    requires m.records == [] && m.fields == [] && m.started && m.state == QuoteInQuoted && !m.afterCr
    requires b != QUOTE && Step(m, b, utf8, U64_MAX).Ok?
    ensures var next := Step(m, b, utf8, U64_MAX).value;
            (next.records != [] || next.fields != []) && FirstText(next) == m.field
  {
  }

  lemma OpenReadsQuoted(m: Machine, bytes: Text, b: u8, utf8: Text -> bool)
    requires Sound(m) && ReadsQuoted(m, bytes) && Step(m, b, utf8, U64_MAX).Ok?
    requires m.records == [] && m.fields == [] && (m.state == Quoted || b == QUOTE)
    ensures ReadsQuoted(Step(m, b, utf8, U64_MAX).value, bytes + [b])
  {
    if b == QUOTE && m.state == Quoted {
      assert Step(m, b, utf8, U64_MAX) == Ok(m.(state := QuoteInQuoted));
      assert bytes + [b] == [QUOTE] + Escape(m.field) + [QUOTE];
    } else {
      if m.state == Quoted {
        StepQuoted(m, b, utf8);
      } else {
        StepTypes(m, b, utf8);
      }
      TextSnoc(m.field, b);
      assert bytes + [b] == [QUOTE] + Escape(m.field + [b]) + [];
    }
  }

  lemma StepReadsQuoted(m: Machine, bytes: Text, b: u8, utf8: Text -> bool)
    requires Sound(m) && ReadsQuoted(m, bytes) && Step(m, b, utf8, U64_MAX).Ok?
    ensures ReadsQuoted(Step(m, b, utf8, U64_MAX).value, bytes + [b])
  {
    if m.records == [] && m.fields == [] && (m.state == Quoted || b == QUOTE) {
      OpenReadsQuoted(m, bytes, b, utf8);
    } else {
      var next := Step(m, b, utf8, U64_MAX).value;
      if m.records == [] && m.fields == [] {
        CloseFirst(m, b, utf8);
      } else {
        StepGrows(m, b, utf8);
        StillClosed(m, b, utf8);
      }
      PrefixGrows([QUOTE] + Escape(FirstText(next)) + [QUOTE], bytes, b);
    }
  }

  lemma PrefixGrows(start: Text, bytes: Text, b: u8)
    requires start <= bytes
    ensures start <= bytes + [b]
  {
  }

  lemma StillClosed(m: Machine, b: u8, utf8: Text -> bool)
    requires m.records != [] || m.fields != []
    requires Step(m, b, utf8, U64_MAX).Ok?
    ensures var next := Step(m, b, utf8, U64_MAX).value; next.records != [] || next.fields != []
  {
  }

  lemma {:induction false} RunReadsQuoted(bytes: Text, utf8: Text -> bool)
    requires bytes != [] && bytes[0] == QUOTE && Run(bytes, utf8, U64_MAX).Ok?
    ensures ReadsQuoted(Run(bytes, utf8, U64_MAX).value, bytes)
  {
    var n := |bytes| - 1;
    if n == 0 {
      assert bytes == [QUOTE] + Escape([]) + [];
    } else {
      RunReadsQuoted(bytes[..n], utf8);
      RunIsSound(bytes[..n], utf8);
      StepReadsQuoted(Run(bytes[..n], utf8, U64_MAX).value, bytes[..n], bytes[n], utf8);
      assert bytes[..n] + [bytes[n]] == bytes;
    }
  }

  lemma {:induction false} EscapeKeeps(text: Text)
    ensures |Escape(text)| >= |text|
    ensures (forall b <- text :: !Special(b)) ==> forall b <- Escape(text) :: !Special(b)
  {
    if text != [] {
      EscapeKeeps(text[..|text| - 1]);
    }
  }

  /** No text between quotes is what a reader behind a mark makes of it. */
  lemma QuotedIsNotPlain(text: Text, bytes: Text)
    requires [QUOTE] + Escape(text) + [QUOTE] <= bytes
    ensures Plain(bytes) != text
  {
    EscapeKeeps(text);
    PlainIsLongest(bytes, []);
    var written := [QUOTE] + Escape(text) + [QUOTE];
    if Plain(bytes) == text {
      PlainIsLongest(bytes, written);
    }
  }

  // ----- Exactly when the mark is transparent -----------------------------------------------------

  /** A file with a mark reads as the file without one. */
  ghost predicate Transparent(bytes: Text, utf8: Text -> bool)
    requires ReadAll(bytes, utf8, U64_MAX).Ok?
  {
    var marked := ReadAll(BOM + bytes, utf8, U64_MAX);
    marked.Ok? && StripBom(marked.value.records) == ReadAll(bytes, utf8, U64_MAX).value.records
  }

  lemma TransparentBeforeText(bytes: Text, utf8: Text -> bool)
    requires TakesBom(utf8) && ReadAll(bytes, utf8, U64_MAX).Ok?
    requires OpensPlain(bytes) && |Plain(bytes)| + |BOM| <= MAX_FIELD
    ensures Transparent(bytes, utf8)
  {
    var m := Run(bytes, utf8, U64_MAX).value;
    RunIsSound(bytes, utf8);
    FinishGrows(m, utf8);
    FirstTextIsPlain(bytes, utf8);
    RunMarked(bytes, utf8);
    FinishMarked(m, utf8);
  }

  lemma OpaqueAlone(utf8: Text -> bool)
    requires ReadAll([], utf8, U64_MAX).Ok?
    ensures !Transparent([], utf8)
  {
    BomRun(utf8);
    assert BOM + [] == BOM;
    if ReadAll(BOM, utf8, U64_MAX).Ok? {
      FinishGrows(AFTER_BOM, utf8);
    }
  }

  lemma OpaqueBeforeBlank(bytes: Text, utf8: Text -> bool)
    requires TakesBom(utf8) && utf8([]) && ReadAll(bytes, utf8, U64_MAX).Ok?
    requires bytes != [] && (bytes[0] == CR || bytes[0] == LF)
    ensures !Transparent(bytes, utf8)
  {
    RunShifted(bytes, utf8);
    FinishShifted(Run(bytes, utf8, U64_MAX).value, Record(1, [BOM]), utf8);
  }

  lemma OpaqueBeforeQuote(bytes: Text, utf8: Text -> bool)
    requires ReadAll(bytes, utf8, U64_MAX).Ok?
    requires bytes != [] && bytes[0] == QUOTE
    ensures !Transparent(bytes, utf8)
  {
    if ReadAll(BOM + bytes, utf8, U64_MAX).Ok? {
      var m, marked := Run(bytes, utf8, U64_MAX).value, Run(BOM + bytes, utf8, U64_MAX).value;
      RunIsSound(bytes, utf8);
      RunIsSound(BOM + bytes, utf8);
      FinishGrows(m, utf8);
      FinishGrows(marked, utf8);
      RunReadsQuoted(bytes, utf8);
      RunReadsPlain(bytes, utf8);
      PlainIsLongest(bytes, []);
      QuotedIsNotPlain(FirstText(m), bytes);
      var records := ReadAll(BOM + bytes, utf8, U64_MAX).value.records;
      assert StripBom(records)[0].fields[0] == Plain(bytes);
    }
  }

  /** The first field is never longer than a field may grow. */
  lemma StepBounded(m: Machine, b: u8, utf8: Text -> bool)
    requires Sound(m) && |FirstText(m)| <= MAX_FIELD && Step(m, b, utf8, U64_MAX).Ok?
    ensures |FirstText(Step(m, b, utf8, U64_MAX).value)| <= MAX_FIELD
  {
    StepGrows(m, b, utf8);
  }

  lemma {:induction false} RunBounded(bytes: Text, utf8: Text -> bool)
    requires Run(bytes, utf8, U64_MAX).Ok?
    ensures |FirstText(Run(bytes, utf8, U64_MAX).value)| <= MAX_FIELD
  {
    if bytes != [] {
      var rest, last := bytes[..|bytes| - 1], bytes[|bytes| - 1];
      RunBounded(rest, utf8);
      RunIsSound(rest, utf8);
      StepBounded(Run(rest, utf8, U64_MAX).value, last, utf8);
    }
  }

  /** Behind the mark a first field with no room for it is refused, or read as something else. */
  lemma OpaqueBeforeLongest(bytes: Text, utf8: Text -> bool)
    requires ReadAll(bytes, utf8, U64_MAX).Ok? && ReadAll(bytes, utf8, U64_MAX).value.records != []
    requires |FirstText(ReadAll(bytes, utf8, U64_MAX).value)| + |BOM| > MAX_FIELD
    ensures !Transparent(bytes, utf8)
  {
    if ReadAll(BOM + bytes, utf8, U64_MAX).Ok? {
      var marked := Run(BOM + bytes, utf8, U64_MAX).value;
      RunIsSound(bytes, utf8);
      FinishGrows(Run(bytes, utf8, U64_MAX).value, utf8);
      RunIsSound(BOM + bytes, utf8);
      RunBounded(BOM + bytes, utf8);
      FinishGrows(marked, utf8);
      RunReadsPlain(bytes, utf8);
      PlainIsLongest(bytes, []);
      var records := ReadAll(BOM + bytes, utf8, U64_MAX).value.records;
      assert StripBom(records)[0].fields[0] == Plain(bytes);
    }
  }

  /**
   * A byte-order mark is transparent exactly when ordinary text or a delimiter
   * stands behind it and the bytes up to the first delimiter or ending leave room
   * for it in a field. Before a quoted first field, a blank line or the end of the
   * file it is not: the field keeps its quotes, or an empty record appears.
   */
  lemma BomIsTransparentExactly(bytes: Text, utf8: Text -> bool)
    requires TakesBom(utf8) && utf8([]) && ReadAll(bytes, utf8, U64_MAX).Ok?
    ensures Transparent(bytes, utf8) <==>
            && bytes != [] && bytes[0] != QUOTE && bytes[0] != CR && bytes[0] != LF
            && |Plain(bytes)| + |BOM| <= MAX_FIELD
  {
    if bytes == [] {
      OpaqueAlone(utf8);
    } else if bytes[0] == QUOTE {
      OpaqueBeforeQuote(bytes, utf8);
    } else if bytes[0] == CR || bytes[0] == LF {
      OpaqueBeforeBlank(bytes, utf8);
    } else if |Plain(bytes)| + |BOM| > MAX_FIELD {
      FirstTextIsPlain(bytes, utf8);
      OpaqueBeforeLongest(bytes, utf8);
    } else {
      TransparentBeforeText(bytes, utf8);
    }
  }
}
