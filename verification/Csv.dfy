/** The byte-at-a-time CSV reader, and the memory its records are charged. */
module Csv {
  import opened Basics
  import opened Rows

  const QUOTE: u8 := 34
  const DELIMITER: u8 := 44
  const LF: u8 := 10
  const CR: u8 := 13

  /** Longest a field may grow. */
  const MAX_FIELD: nat := 8 * 1024 * 1024

  /** A record's fields, with the number of its first line. */
  datatype Record = Record(line: nat, fields: seq<Text>)

  datatype State = FieldStart | Unquoted | Quoted | QuoteInQuoted

  /**
   * What the reader has made of the bytes so far. The bytes its records are
   * charged are a function of the records, so they are no part of it.
   */
  datatype Machine = Machine(
    records: seq<Record>,
    fields: seq<Text>,
    field: Text,
    state: State,
    line: nat,
    recordLine: nat,
    started: bool,
    afterCr: bool)

  const FRESH: Machine := Machine([], [], [], FieldStart, 1, 1, false, false)

  // ----- What memory things cost, exactly ---------------------------------

  /** Bytes the fields of one record cost as cells. */
  function FieldsCost(fields: seq<Text>): nat {
    if fields == [] then 0
    else FieldsCost(fields[..|fields| - 1]) + |fields[|fields| - 1]| + CELL_OVERHEAD
  }

  /** Bytes one record costs as a row. */
  function RecordCost(fields: seq<Text>): nat {
    FieldsCost(fields) + ROW_OVERHEAD
  }

  /** Bytes a list of records costs as rows. */
  function TotalCost(records: seq<Record>): nat {
    if records == [] then 0
    else TotalCost(records[..|records| - 1]) + RecordCost(records[|records| - 1].fields)
  }

  lemma FieldsCostSnoc(fields: seq<Text>, field: Text)
    ensures FieldsCost(fields + [field]) == FieldsCost(fields) + |field| + CELL_OVERHEAD
  {
    assert (fields + [field])[..|fields|] == fields;
  }

  lemma TotalCostSnoc(records: seq<Record>, record: Record)
    ensures TotalCost(records + [record]) == TotalCost(records) + RecordCost(record.fields)
  {
    assert (records + [record])[..|records|] == records;
  }

  // ----- The reader as a function of its state ------------------------------

  /**
   * Whether the records, the record being read and `open` more bytes are within
   * the ceiling. No saturating total passes the largest one.
   */
  predicate Fits(m: Machine, open: nat, ceiling: nat) {
    U64_MAX <= ceiling || TotalCost(m.records) + RecordCost(m.fields) + open <= ceiling
  }

  function Push(m: Machine, b: u8, ceiling: nat): Result<Machine, TableError> {
    if |m.field| >= MAX_FIELD then Err(Malformed(m.recordLine, FieldTooLong))
    else if !Fits(m, |m.field| + 1 + CELL_OVERHEAD, ceiling) then Err(OverResidentCeiling(ceiling))
    else Ok(m.(field := m.field + [b]))
  }

  function Opened(pushed: Result<Machine, TableError>, state: State): Result<Machine, TableError> {
    if pushed.Err? then pushed else Ok(pushed.value.(state := state))
  }

  function Begin(m: Machine): Machine {
    if m.started then m else m.(started := true, recordLine := m.line)
  }

  function EndField(m: Machine, utf8: Text -> bool, ceiling: nat): Result<Machine, TableError> {
    if |m.fields| >= MAX_FIELDS then Err(Malformed(m.recordLine, TooManyFields))
    else if !utf8(m.field) then Err(Malformed(m.recordLine, NotUtf8))
    else
      var next := m.(
        fields := m.fields + [m.field],
        field := [],
        state := FieldStart);
      if Fits(next, 0, ceiling) then Ok(next) else Err(OverResidentCeiling(ceiling))
  }

  /** The closed fields moved into a completed record. */
  function Filed(m: Machine): Machine {
    m.(
      fields := [],
      records := m.records + [Record(m.recordLine, m.fields)],
      started := false)
  }

  function EndRecord(m: Machine, utf8: Text -> bool, ceiling: nat): Result<Machine, TableError> {
    var closed := EndField(m, utf8, ceiling);
    if closed.Err? then closed else Ok(Filed(closed.value))
  }

  function Newline(m: Machine, utf8: Text -> bool, ceiling: nat): Result<Machine, TableError> {
    var next := m.(line := m.line + 1);
    if !m.started then Ok(next) else EndRecord(next, utf8, ceiling)
  }

  /** Feed one byte. */
  function Step(m: Machine, b: u8, utf8: Text -> bool, ceiling: nat): Result<Machine, TableError> {
    if m.state != Quoted && b == LF && m.afterCr then Ok(m.(afterCr := false))
    else Consume(if m.state != Quoted then m.(afterCr := false) else m, b, utf8, ceiling)
  }

  /** Feed one byte that is not the LF of a CRLF. */
  function Consume(m: Machine, b: u8, utf8: Text -> bool, ceiling: nat): Result<Machine, TableError> {
    match m.state
    case FieldStart =>
      if b == QUOTE then Ok(Begin(m).(state := Quoted))
      else if b == DELIMITER then EndField(Begin(m), utf8, ceiling)
      else if b == LF then Newline(m, utf8, ceiling)
      else if b == CR then Newline(m.(afterCr := true), utf8, ceiling)
      else Opened(Push(Begin(m), b, ceiling), Unquoted)
    case Unquoted =>
      if b == DELIMITER then EndField(m, utf8, ceiling)
      else if b == LF then Newline(m, utf8, ceiling)
      else if b == CR then Newline(m.(afterCr := true), utf8, ceiling)
      else Push(m, b, ceiling)
    case Quoted =>
      if b == QUOTE then Ok(m.(state := QuoteInQuoted))
      else if b == LF then Push(m.(line := m.line + 1), b, ceiling)
      else Push(m, b, ceiling)
    case QuoteInQuoted =>
      if b == QUOTE then Opened(Push(m, b, ceiling), Quoted)
      else if b == DELIMITER then EndField(m, utf8, ceiling)
      else if b == LF then Newline(m, utf8, ceiling)
      else if b == CR then Newline(m.(afterCr := true), utf8, ceiling)
      else Err(Malformed(m.recordLine, TextAfterQuote))
  }

  /** The reader after every byte of `bytes`, or what it refused them for. */
  function Run(bytes: Text, utf8: Text -> bool, ceiling: nat): Result<Machine, TableError> {
    if bytes == [] then Ok(FRESH)
    else
      var before := Run(bytes[..|bytes| - 1], utf8, ceiling);
      if before.Err? then before else Step(before.value, bytes[|bytes| - 1], utf8, ceiling)
  }

  /** The machine after the last byte: an open record is filed, an open quote refused. */
  function Finish(m: Machine, utf8: Text -> bool, ceiling: nat): Result<Machine, TableError> {
    if m.state == Quoted then Err(Malformed(m.recordLine, NeverClosed))
    else if m.started then EndRecord(m, utf8, ceiling)
    else Ok(m)
  }

  /** The machine for a whole text. */
  function ReadAll(bytes: Text, utf8: Text -> bool, ceiling: nat): Result<Machine, TableError> {
    var m := Run(bytes, utf8, ceiling);
    if m.Err? then m else Finish(m.value, utf8, ceiling)
  }

  lemma RunSnoc(bytes: Text, b: u8, utf8: Text -> bool, ceiling: nat)
    ensures Run(bytes + [b], utf8, ceiling) ==
            var m := Run(bytes, utf8, ceiling);
            if m.Err? then m else Step(m.value, b, utf8, ceiling)
  {
    assert (bytes + [b])[..|bytes|] == bytes;
  }

  /** A refusal partway through is the refusal of the whole input. */
  lemma {:induction false} RunPrefix(bytes: Text, rest: Text, utf8: Text -> bool, ceiling: nat)
    requires Run(bytes, utf8, ceiling).Err?
    ensures Run(bytes + rest, utf8, ceiling) == Run(bytes, utf8, ceiling)
  {
    if rest == [] {
      assert bytes + rest == bytes;
    } else {
      var n := |rest| - 1;
      var longer := bytes + rest[..n];
      assert longer + [rest[n]] == bytes + rest;
      RunPrefix(bytes, rest[..n], utf8, ceiling);
      RunSnoc(longer, rest[n], utf8, ceiling);
    }
  }

  // ----- What every byte keeps ------------------------------------------------

  /** The invariants of the machine between two bytes. */
  ghost predicate Consistent(m: Machine) {
    && (m.state == FieldStart ==> m.field == [])
    && (m.state != FieldStart || m.fields != [] ==> m.started)
    && (m.afterCr ==> !m.started)
    && |m.field| <= MAX_FIELD
    && |m.fields| <= MAX_FIELDS
  }

  lemma EndFieldKeeps(m: Machine, utf8: Text -> bool, ceiling: nat)
    requires Consistent(m.(afterCr := false)) && m.started
    requires EndField(m, utf8, ceiling).Ok?
    ensures var c := EndField(m, utf8, ceiling).value;
            && Consistent(c.(afterCr := false))
            && Fits(c, 0, ceiling)
            && c == m.(fields := m.fields + [m.field], field := [], state := FieldStart)
  {
  }

  lemma EndRecordKeeps(m: Machine, utf8: Text -> bool, ceiling: nat)
    requires Consistent(m.(afterCr := false)) && m.started
    requires EndField(m, utf8, ceiling).Ok?
    ensures EndRecord(m, utf8, ceiling) == Ok(Filed(EndField(m, utf8, ceiling).value))
    ensures Consistent(Filed(EndField(m, utf8, ceiling).value))
  {
    EndFieldKeeps(m, utf8, ceiling);
  }

  lemma NewlineKeeps(m: Machine, utf8: Text -> bool, ceiling: nat)
    requires Consistent(m.(afterCr := false))
    requires Newline(m, utf8, ceiling).Ok?
    ensures Consistent(Newline(m, utf8, ceiling).value)
  {
    var next := m.(line := m.line + 1);
    if m.started {
      assert Newline(m, utf8, ceiling) == EndRecord(next, utf8, ceiling);
      EndRecordKeeps(next, utf8, ceiling);
    } else {
      assert Newline(m, utf8, ceiling) == Ok(next);
    }
  }

  /** A byte that closes nothing. */
  lemma ContentKeeps(m: Machine, b: u8, utf8: Text -> bool, ceiling: nat)
    requires Consistent(m) && Consume(m, b, utf8, ceiling).Ok?
    requires !m.afterCr && (m.state == Quoted || (b != LF && b != CR && b != DELIMITER))
    ensures Consistent(Consume(m, b, utf8, ceiling).value)
  {
  }

  lemma StepKeepsConsistent(m: Machine, b: u8, utf8: Text -> bool, ceiling: nat)
    requires Consistent(m)
    requires Step(m, b, utf8, ceiling).Ok?
    ensures Consistent(Step(m, b, utf8, ceiling).value)
  {
    var n := if m.state != Quoted then m.(afterCr := false) else m;
    if n.state != Quoted && b == LF && m.afterCr {
    } else if n.state != Quoted && b == LF {
      NewlineKeeps(n, utf8, ceiling);
    } else if n.state != Quoted && b == CR {
      NewlineKeeps(n.(afterCr := true), utf8, ceiling);
    } else if n.state != Quoted && b == DELIMITER {
      EndFieldKeeps(Begin(n), utf8, ceiling);
    } else {
      ContentKeeps(n, b, utf8, ceiling);
    }
  }

  lemma {:induction false} RunKeepsConsistent(bytes: Text, utf8: Text -> bool, ceiling: nat)
    requires Run(bytes, utf8, ceiling).Ok?
    ensures Consistent(Run(bytes, utf8, ceiling).value)
  {
    if bytes != [] {
      RunKeepsConsistent(bytes[..|bytes| - 1], utf8, ceiling);
      StepKeepsConsistent(Run(bytes[..|bytes| - 1], utf8, ceiling).value, bytes[|bytes| - 1], utf8, ceiling);
    }
  }

  // ----- The reader itself ----------------------------------------------------

  /** A saturating total of field costs, one field on. */
  lemma ChargedField(fields: seq<Text>, text: Text)
    ensures SatAdd(Sat(FieldsCost(fields)), |text| + CELL_OVERHEAD) == Sat(FieldsCost(fields + [text]))
  {
    FieldsCostSnoc(fields, text);
    SatStep(FieldsCost(fields), |text| + CELL_OVERHEAD, FieldsCost(fields + [text]));
  }

  /** A saturating total of record costs, one record on. */
  lemma ChargedRecord(records: seq<Record>, record: Record)
    ensures SatAdd(Sat(TotalCost(records)), SatAdd(Sat(FieldsCost(record.fields)), ROW_OVERHEAD))
            == Sat(TotalCost(records + [record]))
  {
    TotalCostSnoc(records, record);
    SatNested(TotalCost(records), FieldsCost(record.fields), ROW_OVERHEAD, TotalCost(records + [record]));
  }

  /** The machine as an object, its totals saturating. `utf8` says which texts are UTF-8. */
  class Reader {
    var records: seq<Record>
    var fields: seq<Text>
    var field: Text
    var state: State
    var line: nat
    var recordLine: nat
    var started: bool
    var afterCr: bool
    var held: nat
    var record: nat
    const ceiling: nat
    const utf8: Text -> bool

    ghost function Value(): Machine
      reads this
    {
      Machine(records, fields, field, state, line, recordLine, started, afterCr)
    }

    /** The running totals are the exact ones, as far as a `u64` can hold them. */
    ghost predicate Valid()
      reads `records, `fields, `held, `record
    {
      held == Sat(TotalCost(records)) && record == Sat(FieldsCost(fields))
    }

    /** The outcome `r` and the state left behind are the ones `expected` names. */
    ghost predicate Agrees(expected: Result<Machine, TableError>, r: Outcome<TableError>)
      reads this
    {
      match expected
      case Ok(m) => r == Pass && Value() == m && Valid()
      case Err(e) => r == Fail(e)
    }

    constructor (ceiling: nat, utf8: Text -> bool)
      ensures Valid() && Value() == FRESH && this.ceiling == ceiling && this.utf8 == utf8
    {
      records, fields, field, state := [], [], [], FieldStart;
      line, recordLine, started, afterCr := 1, 1, false, false;
      held, record := 0, 0;
      this.ceiling, this.utf8 := ceiling, utf8;
    }

    /** The saturating check is the exact one. */
    method Charge(open: nat) returns (r: Outcome<TableError>)
      requires Valid()
      ensures r == if Fits(Value(), open, ceiling) then Pass else Fail(OverResidentCeiling(ceiling))
    {
      var row := SatAdd(record, ROW_OVERHEAD + open);
      if SatAdd(held, row) > ceiling {
        return Fail(OverResidentCeiling(ceiling));
      }
      return Pass;
    }

    method PushByte(b: u8) returns (r: Outcome<TableError>)
      requires Valid()
      modifies `field
      ensures Agrees(Push(old(Value()), b, ceiling), r)
    {
      if |field| >= MAX_FIELD {
        return Fail(Malformed(recordLine, FieldTooLong));
      }
      r := Charge(|field| + 1 + CELL_OVERHEAD);
      if r.Fail? {
        return;
      }
      field := field + [b];
      return Pass;
    }

    method BeginRecord()
      modifies `started, `recordLine
      ensures Value() == Begin(old(Value()))
    {
      if !started {
        started, recordLine := true, line;
      }
    }

    method CloseField() returns (r: Outcome<TableError>)
      requires Valid()
      modifies this
      ensures Agrees(EndField(old(Value()), utf8, ceiling), r)
    {
      if |fields| >= MAX_FIELDS {
        return Fail(Malformed(recordLine, TooManyFields));
      }
      var text := field;
      field := [];
      if !utf8(text) {
        return Fail(Malformed(recordLine, NotUtf8));
      }
      ChargedField(fields, text);
      record := SatAdd(record, |text| + CELL_OVERHEAD);
      fields := fields + [text];
      state := FieldStart;
      ghost var was := old(Value());
      assert Value() == was.(fields := was.fields + [was.field], field := [], state := FieldStart);
      r := Charge(0);
    }

    method CloseRecord() returns (r: Outcome<TableError>)
      requires Valid()
      modifies this
      ensures Agrees(EndRecord(old(Value()), utf8, ceiling), r)
    {
      r := CloseField();
      if r.Fail? {
        return;
      }
      ChargedRecord(records, Record(recordLine, fields));
      var row := SatAdd(record, ROW_OVERHEAD);
      record := 0;
      held := SatAdd(held, row);
      records := records + [Record(recordLine, fields)];
      fields := [];
      started := false;
      return Pass;
    }

    method EndLine() returns (r: Outcome<TableError>)
      requires Valid()
      modifies this
      ensures Agrees(Newline(old(Value()), utf8, ceiling), r)
    {
      line := line + 1;
      if !started {
        return Pass;
      }
      r := CloseRecord();
    }

    method Byte(b: u8) returns (r: Outcome<TableError>)
      requires Valid()
      modifies this
      ensures Agrees(Step(old(Value()), b, utf8, ceiling), r)
    {
      if state != Quoted {
        if b == LF && afterCr {
          afterCr := false;
          return Pass;
        }
        afterCr := false;
      }
      match state {
        case FieldStart => r := AtFieldStart(b);
        case Unquoted => r := InField(b);
        case Quoted => r := InQuotes(b);
        case QuoteInQuoted => r := AfterQuote(b);
      }
    }

    method AtFieldStart(b: u8) returns (r: Outcome<TableError>)
      requires Valid() && state == FieldStart
      modifies this
      ensures Agrees(Consume(old(Value()), b, utf8, ceiling), r)
    {
      if b == QUOTE {
        BeginRecord();
        state := Quoted;
        return Pass;
      } else if b == DELIMITER {
        BeginRecord();
        r := CloseField();
      } else if b == LF {
        r := EndLine();
      } else if b == CR {
        afterCr := true;
        r := EndLine();
      } else {
        BeginRecord();
        r := PushByte(b);
        if r.Fail? {
          return;
        }
        state := Unquoted;
        return Pass;
      }
    }

    method InField(b: u8) returns (r: Outcome<TableError>)
      requires Valid() && state == Unquoted
      modifies this
      ensures Agrees(Consume(old(Value()), b, utf8, ceiling), r)
    {
      if b == DELIMITER {
        r := CloseField();
      } else if b == LF {
        r := EndLine();
      } else if b == CR {
        afterCr := true;
        r := EndLine();
      } else {
        r := PushByte(b);
      }
    }

    method InQuotes(b: u8) returns (r: Outcome<TableError>)
      requires Valid() && state == Quoted
      modifies this
      ensures Agrees(Consume(old(Value()), b, utf8, ceiling), r)
    {
      if b == QUOTE {
        state := QuoteInQuoted;
        return Pass;
      } else if b == LF {
        line := line + 1;
      }
      r := PushByte(b);
    }

    method AfterQuote(b: u8) returns (r: Outcome<TableError>)
      requires Valid() && state == QuoteInQuoted
      modifies this
      ensures Agrees(Consume(old(Value()), b, utf8, ceiling), r)
    {
      if b == QUOTE {
        r := PushByte(QUOTE);
        if r.Fail? {
          return;
        }
        state := Quoted;
        return Pass;
      } else if b == DELIMITER {
        r := CloseField();
      } else if b == LF {
        r := EndLine();
      } else if b == CR {
        afterCr := true;
        r := EndLine();
      } else {
        return Fail(Malformed(recordLine, TextAfterQuote));
      }
    }

    method Close() returns (r: Outcome<TableError>)
      requires Valid()
      modifies this
      ensures Agrees(Finish(old(Value()), utf8, ceiling), r)
    {
      if state == Quoted {
        return Fail(Malformed(recordLine, NeverClosed));
      }
      if started {
        r := CloseRecord();
        if r.Fail? {
          return;
        }
      }
      return Pass;
    }
  }

  /** The bytes a buffered reader hands over, chunk by chunk. */
  function Flatten(chunks: seq<Text>): Text {
    if chunks == [] then [] else Flatten(chunks[..|chunks| - 1]) + chunks[|chunks| - 1]
  }

  lemma {:induction false} FlattenSplit(chunks: seq<Text>, n: nat)
    requires n <= |chunks|
    ensures Flatten(chunks) == Flatten(chunks[..n]) + Flatten(chunks[n..])
  {
    if n == |chunks| {
      assert chunks[..n] == chunks;
    } else {
      var last := |chunks| - 1;
      FlattenSplit(chunks[..last], n);
      assert chunks[..last][..n] == chunks[..n];
      assert chunks[..last][n..] == chunks[n..][..|chunks[n..]| - 1];
    }
  }

  lemma RunStep(before: Text, chunk: Text, n: nat, utf8: Text -> bool, ceiling: nat)
    requires n < |chunk|
    ensures var m := Run(before + chunk[..n], utf8, ceiling);
            Run(before + chunk[..n + 1], utf8, ceiling) ==
            if m.Err? then m else Step(m.value, chunk[n], utf8, ceiling)
  {
    RunSnoc(before + chunk[..n], chunk[n], utf8, ceiling);
    assert before + chunk[..n] + [chunk[n]] == before + chunk[..n + 1];
  }

  lemma RefusedForGood(before: Text, chunk: Text, n: nat, utf8: Text -> bool, ceiling: nat)
    requires n <= |chunk| && Run(before + chunk[..n], utf8, ceiling).Err?
    ensures Run(before + chunk, utf8, ceiling) == Run(before + chunk[..n], utf8, ceiling)
  {
    RunPrefix(before + chunk[..n], chunk[n..], utf8, ceiling);
    assert before + chunk[..n] + chunk[n..] == before + chunk;
  }

  /** Feed one chunk to a reader that has taken `before`. */
  method Feed(csv: Reader, chunk: Text, ghost before: Text) returns (r: Outcome<TableError>)
    requires csv.Valid() && Run(before, csv.utf8, csv.ceiling) == Ok(csv.Value())
    modifies csv
    ensures csv.Agrees(Run(before + chunk, csv.utf8, csv.ceiling), r)
  {
    assert before + chunk[..0] == before;
    for i := 0 to |chunk|
      invariant csv.Valid() && Run(before + chunk[..i], csv.utf8, csv.ceiling) == Ok(csv.Value())
    {
      RunStep(before, chunk, i, csv.utf8, csv.ceiling);
      r := csv.Byte(chunk[i]);
      if r.Fail? {
        RefusedForGood(before, chunk, i + 1, csv.utf8, csv.ceiling);
        return;
      }
    }
    assert chunk[..|chunk|] == chunk;
    r := Pass;
  }

  /** Read every record, whatever pieces the bytes arrive in. */
  method Records(chunks: seq<Text>, utf8: Text -> bool, ceiling: nat)
      returns (r: Result<(seq<Record>, nat), TableError>)
    ensures match ReadAll(Flatten(chunks), utf8, ceiling)
            case Ok(m) => r == Ok((m.records, Sat(TotalCost(m.records))))
            case Err(e) => r == Err(e)
  {
    var csv := new Reader(ceiling, utf8);
    for i := 0 to |chunks|
      invariant fresh(csv) && csv.ceiling == ceiling && csv.utf8 == utf8
      invariant csv.Valid() && Run(Flatten(chunks[..i]), utf8, ceiling) == Ok(csv.Value())
    {
      assert chunks[..i + 1][..i] == chunks[..i];
      var fed := Feed(csv, chunks[i], Flatten(chunks[..i]));
      if fed.Fail? {
        FlattenSplit(chunks, i + 1);
        RunPrefix(Flatten(chunks[..i + 1]), Flatten(chunks[i + 1..]), utf8, ceiling);
        return Err(fed.error);
      }
    }
    assert chunks[..|chunks|] == chunks;
    var closed := csv.Close();
    if closed.Fail? {
      return Err(closed.error);
    }
    return Ok((csv.records, csv.held));
  }
}
