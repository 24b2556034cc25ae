/** The line a refusal names, whatever mix of endings and blank lines precedes it. */
module CsvLines {
  import opened Basics
  import opened Rows
  import opened Csv
  import opened CsvDocument

  /** The line of the record a reader is in, or would begin. */
  function CurrentLine(m: Machine): nat {
    if m.started then m.recordLine else m.line
  }

  /** Malformed, at a line. */
  predicate Blames(error: TableError, line: nat) {
    error.Malformed? && error.line == line
  }

  lemma StepBlames(m: Machine, b: u8, utf8: Text -> bool)
    requires Consistent(m) && Step(m, b, utf8, U64_MAX).Err?
    ensures Blames(Step(m, b, utf8, U64_MAX).error, CurrentLine(m))
  {
  }

  lemma FinishBlames(m: Machine, utf8: Text -> bool)
    requires Consistent(m) && Finish(m, utf8, U64_MAX).Err?
    ensures Blames(Finish(m, utf8, U64_MAX).error, CurrentLine(m))
  {
  }

  /** How far a refused text reads. */
  lemma {:induction false} ReadsTo(bytes: Text, utf8: Text -> bool) returns (n: nat)
    requires Run(bytes, utf8, U64_MAX).Err?
    ensures n < |bytes| && Run(bytes[..n], utf8, U64_MAX).Ok?
    ensures Step(Run(bytes[..n], utf8, U64_MAX).value, bytes[n], utf8, U64_MAX) == Run(bytes, utf8, U64_MAX)
    ensures Run(bytes[..n + 1], utf8, U64_MAX).Err?
  {
    n := |bytes| - 1;
    if Run(bytes[..n], utf8, U64_MAX).Err? {
      var rest := bytes[..n];
      n := ReadsTo(rest, utf8);
      assert rest[..n] == bytes[..n] && rest[..n + 1] == bytes[..n + 1];
    } else {
      assert bytes[..n + 1] == bytes;
    }
  }

  /** The document a text is a beginning of no longer, and the text before that. */
  ghost predicate BreaksAt(bytes: Text, n: nat, d: Document, utf8: Text -> bool) {
    && n <= |bytes|
    && DocumentOf(bytes[..n], utf8) == Some(d)
    && (n < |bytes| ==> DocumentOf(bytes[..n + 1], utf8).None?)
  }

  /**
   * A malformed file is refused at the line the record it breaks off in starts
   * on: one, and one more for every line ending before it (a CRLF is one) and
   * every LF inside quotes before it.
   */
  lemma EveryErrorNamesItsRecord(bytes: Text, utf8: Text -> bool)
    requires ReadAll(bytes, utf8, U64_MAX).Err?
    ensures exists n, d ::
              BreaksAt(bytes, n, d, utf8) && Blames(ReadAll(bytes, utf8, U64_MAX).error, LineAfter(d.items))
  {
    if Run(bytes, utf8, U64_MAX).Err? {
      var n := ReadsTo(bytes, utf8);
      EveryPrefixIsADocument(bytes[..n], utf8);
      EveryPrefixIsADocument(bytes[..n + 1], utf8);
      RunKeepsConsistent(bytes[..n], utf8, U64_MAX);
      var d := DocumentOf(bytes[..n], utf8).value;
      StepBlames(ReaderOf(d), bytes[n], utf8);
      assert BreaksAt(bytes, n, d, utf8);
    } else {
      EveryPrefixIsADocument(bytes, utf8);
      RunKeepsConsistent(bytes, utf8, U64_MAX);
      var d := DocumentOf(bytes, utf8).value;
      FinishBlames(ReaderOf(d), utf8);
      assert bytes[..|bytes|] == bytes;
      assert BreaksAt(bytes, |bytes|, d, utf8);
    }
  }
}
