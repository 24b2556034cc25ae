/** The bytes a CSV is written with, and how long a field and how wide a record may be. */
module CsvLimits {
  import opened Basics
  import opened Rows
  import opened Csv

  /** A byte that is no quote, comma, LF or CR. */
  predicate Ordinary(b: u8) {
    b != 34 && b != 44 && b != 10 && b != 13
  }

  /** The reader in an unquoted first field, with some text in it. */
  function InText(text: Text): Machine {
    FRESH.(started := true, field := text, state := Unquoted)
  }

  lemma FirstByte(b: u8, utf8: Text -> bool)
    requires Ordinary(b)
    ensures Step(FRESH, b, utf8, U64_MAX) == Ok(InText([b]))
  {
    JoinsNothing(b);
  }

  lemma NextByte(text: Text, b: u8, utf8: Text -> bool)
    requires Ordinary(b)
    ensures Step(InText(text), b, utf8, U64_MAX) ==
            if |text| < 8388608 then Ok(InText(text + [b])) else Err(Malformed(1, FieldTooLong))
  {
  }

  predicate AllOrdinary(text: Text) {
    forall i :: 0 <= i < |text| ==> Ordinary(text[i])
  }

  /** The last byte of a text, and those before it. */
  lemma LastOf(text: Text) returns (rest: Text, last: u8)
    requires text != [] && AllOrdinary(text)
    ensures text == rest + [last] && AllOrdinary(rest) && Ordinary(last)
  {
    rest, last := text[..|text| - 1], text[|text| - 1];
  }

  /** What the reader makes of a text that is one field. */
  function AsText(text: Text): Result<Machine, TableError> {
    if |text| <= 8388608 then Ok(InText(text)) else Err(Malformed(1, FieldTooLong))
  }

  lemma {:induction false} TextRuns(text: Text, utf8: Text -> bool)
    requires text != [] && AllOrdinary(text)
    ensures Run(text, utf8, U64_MAX) == AsText(text)
    decreases |text|
  {
    var rest, last := LastOf(text);
    RunSnoc(rest, last, utf8, U64_MAX);
    if rest == [] {
      FirstByte(last, utf8);
      JoinsNothing(last);
    } else {
      TextRuns(rest, utf8);
      NextByte(rest, last, utf8);
    }
  }

  /** A field of 8 MiB reads as the one record it is, and one byte more is refused at its line. */
  lemma FieldLimit(text: Text, utf8: Text -> bool)
    requires text != [] && utf8(text) && AllOrdinary(text)
    ensures var read := ReadAll(text, utf8, U64_MAX);
            if |text| <= 8388608 then read.Ok? && read.value.records == [Record(1, [text])]
            else read == Err(Malformed(1, FieldTooLong))
  {
    TextRuns(text, utf8);
    JoinsNothing(text);
    JoinsNothing([text]);
    JoinsNothing(Record(1, [text]));
  }

  lemma JoinsNothing<T>(one: T)
    ensures [] + [one] == [one]
  {
  }

  function Commas(n: nat): Text {
    seq(n, _ => 44)
  }

  function Empties(n: nat): seq<Text> {
    seq(n, _ => [])
  }

  lemma {:induction false} CommasRun(n: nat, utf8: Text -> bool)
    requires utf8([]) && n > 0
    ensures Run(Commas(n), utf8, U64_MAX) ==
            if n <= 4096 then Ok(FRESH.(started := true, fields := Empties(n)))
            else Err(Malformed(1, TooManyFields))
  {
    assert Commas(n) == Commas(n - 1) + [44] && Empties(n) == Empties(n - 1) + [[]];
    RunSnoc(Commas(n - 1), 44, utf8, U64_MAX);
    if n == 1 {
      assert Run(Commas(0), utf8, U64_MAX) == Ok(FRESH);
    } else {
      CommasRun(n - 1, utf8);
    }
  }

  /** A record of 4096 fields reads, and one of more is refused at its line. */
  lemma WidthLimit(n: nat, utf8: Text -> bool)
    requires utf8([]) && n > 0
    ensures var read := ReadAll(Commas(n), utf8, U64_MAX);
            if n + 1 <= 4096 then read.Ok? && read.value.records == [Record(1, Empties(n + 1))]
            else read == Err(Malformed(1, TooManyFields))
  {
    CommasRun(n, utf8);
    assert Empties(n + 1) == Empties(n) + [[]];
  }

  lemma Taken(before: Text, b: u8, m: Machine, utf8: Text -> bool)
    requires Run(before, utf8, U64_MAX) == Ok(m)
    ensures Run(before + [b], utf8, U64_MAX) == Step(m, b, utf8, U64_MAX)
  {
    RunSnoc(before, b, utf8, U64_MAX);
  }

  /** A first field closed, and a second opened with a quote. */
  function InQuotes(first: Text): Machine {
    FRESH.(started := true, fields := [first], state := Quoted)
  }

  /** A text of one byte, a comma, and a quote that opens a field. */
  lemma ExampleOpens(before: Text, utf8: Text -> bool)
    requires Run(before, utf8, U64_MAX) == Ok(FRESH) && utf8([97])
    ensures Run(before + [97] + [44] + [34], utf8, U64_MAX) == Ok(InQuotes([97]))
  {
    Taken(before, 97, FRESH, utf8);
    FirstByte(97, utf8);
    Taken(before + [97], 44, InText([97]), utf8);
    JoinsNothing<Text>([97]);
    Taken(before + [97] + [44], 34, FRESH.(started := true, fields := [[97]]), utf8);
  }

  /** Two quotes that stand for one, and the one that closes the field. */
  lemma ExampleCloses(before: Text, utf8: Text -> bool)
    requires Run(before, utf8, U64_MAX) == Ok(InQuotes([97]))
    ensures Run(before + [34] + [34] + [34], utf8, U64_MAX) ==
            Ok(InQuotes([97]).(field := [34], state := QuoteInQuoted))
  {
    Taken(before, 34, InQuotes([97]), utf8);
    Taken(before + [34], 34, InQuotes([97]).(state := QuoteInQuoted), utf8);
    JoinsNothing<u8>(34);
    Taken(before + [34] + [34], 34, InQuotes([97]).(field := [34]), utf8);
  }

  /** A CR and an LF behind it end one line. */
  lemma ExampleEnds(before: Text, utf8: Text -> bool)
    requires Run(before, utf8, U64_MAX) == Ok(InQuotes([97]).(field := [34], state := QuoteInQuoted)) && utf8([34])
    ensures Run(before + [13] + [10], utf8, U64_MAX) ==
            Ok(FRESH.(records := [Record(1, [[97], [34]])], line := 2))
  {
    Taken(before, 13, InQuotes([97]).(field := [34], state := QuoteInQuoted), utf8);
    assert [[97]] + [[34]] == [[97], [34]];
    JoinsNothing(Record(1, [[97], [34]]));
    Taken(before + [13], 10, FRESH.(records := [Record(1, [[97], [34]])], line := 2, afterCr := true), utf8);
  }

  /** One byte more, and the end of the file. */
  lemma ExampleFinishes(before: Text, utf8: Text -> bool)
    requires Run(before, utf8, U64_MAX) == Ok(FRESH.(records := [Record(1, [[97], [34]])], line := 2)) && utf8([98])
    ensures var read := ReadAll(before + [98], utf8, U64_MAX);
            read.Ok? && read.value.records == [Record(1, [[97], [34]]), Record(2, [[98]])]
  {
    var m := FRESH.(records := [Record(1, [[97], [34]])], line := 2);
    Taken(before, 98, m, utf8);
    JoinsNothing<u8>(98);
    JoinsNothing<Text>([98]);
    assert Step(m, 98, utf8, U64_MAX) ==
           Ok(m.(started := true, recordLine := 2, field := [98], state := Unquoted));
    assert [Record(1, [[97], [34]])] + [Record(2, [[98]])] == [Record(1, [[97], [34]]), Record(2, [[98]])];
  }

  /**
   * A file by its bytes: `a`, a comma, a quote in quotes, a CRLF and `b` read as two
   * records, the second at line 2, the text of the quoted field being one quote.
   */
  lemma ExampleReads(utf8: Text -> bool)
    requires utf8([97]) && utf8([34]) && utf8([98])
    ensures var read := ReadAll([97, 44, 34, 34, 34, 34, 13, 10, 98], utf8, U64_MAX);
            read.Ok? && read.value.records == [Record(1, [[97], [34]]), Record(2, [[98]])]
  {
    var start: Text := [];
    ExampleOpens(start, utf8);
    var first := start + [97] + [44] + [34];
    ExampleCloses(first, utf8);
    var second := first + [34] + [34] + [34];
    ExampleEnds(second, utf8);
    var third := second + [13] + [10];
    ExampleFinishes(third, utf8);
    assert third + [98] == [97, 44, 34, 34, 34, 34, 13, 10, 98];
  }
}
