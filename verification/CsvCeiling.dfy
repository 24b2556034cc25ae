/** The resident ceiling decides whether a CSV is admitted, and never what it reads as. */
module CsvCeiling {
  import opened Basics
  import opened Rows
  import opened Csv

  // ----- Two readers in lockstep ------------------------------------------------

  /** `bounded` is `unbounded`, unless the ceiling refused it. */
  ghost predicate Lockstep(bounded: Result<Machine, TableError>, unbounded: Result<Machine, TableError>, ceiling: nat) {
    bounded == unbounded || bounded == Err(OverResidentCeiling(ceiling))
  }

  lemma StepLockstep(m: Machine, b: u8, utf8: Text -> bool, ceiling: nat)
    ensures Lockstep(Step(m, b, utf8, ceiling), Step(m, b, utf8, U64_MAX), ceiling)
  {
  }

  lemma {:induction false} RunLockstep(bytes: Text, utf8: Text -> bool, ceiling: nat)
    ensures Lockstep(Run(bytes, utf8, ceiling), Run(bytes, utf8, U64_MAX), ceiling)
  {
    if bytes != [] {
      var n := |bytes| - 1;
      RunLockstep(bytes[..n], utf8, ceiling);
      var before := Run(bytes[..n], utf8, ceiling);
      if before.Ok? {
        StepLockstep(before.value, bytes[n], utf8, ceiling);
      }
    }
  }

  /**
   * Whatever the input, a ceiling either refuses it or changes nothing: the same
   * records, or the same error on the same line.
   */
  lemma CeilingNeverChangesContent(bytes: Text, utf8: Text -> bool, ceiling: nat)
    ensures Lockstep(ReadAll(bytes, utf8, ceiling), ReadAll(bytes, utf8, U64_MAX), ceiling)
    ensures !Refusal(ReadAll(bytes, utf8, U64_MAX))
  {
    RunLockstep(bytes, utf8, ceiling);
    NeverRefused(bytes, utf8);
  }

  ghost predicate Refusal(r: Result<Machine, TableError>) {
    r.Err? && r.error.OverResidentCeiling?
  }

  lemma StepNeverRefused(m: Machine, b: u8, utf8: Text -> bool)
    ensures !Refusal(Step(m, b, utf8, U64_MAX))
  {
  }

  /** No saturating total passes the largest ceiling. */
  lemma {:induction false} NeverRefused(bytes: Text, utf8: Text -> bool)
    ensures !Refusal(Run(bytes, utf8, U64_MAX))
  {
    if bytes != [] {
      var n := |bytes| - 1;
      NeverRefused(bytes[..n], utf8);
      if Run(bytes[..n], utf8, U64_MAX).Ok? {
        StepNeverRefused(Run(bytes[..n], utf8, U64_MAX).value, bytes[n], utf8);
      }
    }
  }

  // ----- The open record's share of the charge ------------------------------------

  /** Bytes the reader holds: completed records, closed fields and the open one. */
  function Peak(m: Machine): nat {
    TotalCost(m.records) +
    (if m.fields == [] && m.field == [] then 0 else RecordCost(m.fields)) +
    (if m.field == [] then 0 else |m.field| + CELL_OVERHEAD)
  }

  /** What the records would cost if the file ended here. */
  function Due(m: Machine): nat {
    TotalCost(m.records) +
    (if m.started then RecordCost(m.fields) + |m.field| + CELL_OVERHEAD else 0)
  }

  // ----- The peak ---------------------------------------------------------------------

  lemma PushPeak(m: Machine, b: u8, ceiling: nat)
    requires Consistent(m) && Push(m, b, ceiling).Ok?
    ensures ceiling < U64_MAX ==> Peak(Push(m, b, ceiling).value) <= ceiling
  {
  }

  lemma EndFieldPeak(m: Machine, utf8: Text -> bool, ceiling: nat)
    requires Consistent(m.(afterCr := false)) && m.started && EndField(m, utf8, ceiling).Ok?
    ensures ceiling < U64_MAX ==> Peak(EndField(m, utf8, ceiling).value) <= ceiling
  {
    EndFieldKeeps(m, utf8, ceiling);
  }

  lemma FiledPeak(m: Machine)
    requires m.fields != [] && m.field == []
    ensures Peak(Filed(m)) == Peak(m)
  {
    TotalCostSnoc(m.records, Record(m.recordLine, m.fields));
  }

  lemma NewlinePeak(m: Machine, utf8: Text -> bool, ceiling: nat)
    requires Consistent(m.(afterCr := false)) && Newline(m, utf8, ceiling).Ok?
    requires ceiling < U64_MAX ==> Peak(m) <= ceiling
    ensures ceiling < U64_MAX ==> Peak(Newline(m, utf8, ceiling).value) <= ceiling
  {
    var next := m.(line := m.line + 1);
    if m.started {
      assert Newline(m, utf8, ceiling) == EndRecord(next, utf8, ceiling);
      EndFieldPeak(next, utf8, ceiling);
      EndFieldKeeps(next, utf8, ceiling);
      FiledPeak(EndField(next, utf8, ceiling).value);
    } else {
      assert Newline(m, utf8, ceiling) == Ok(next);
    }
  }

  lemma StepPeak(m: Machine, b: u8, utf8: Text -> bool, ceiling: nat)
    requires Consistent(m) && Step(m, b, utf8, ceiling).Ok?
    requires ceiling < U64_MAX ==> Peak(m) <= ceiling
    ensures ceiling < U64_MAX ==> Peak(Step(m, b, utf8, ceiling).value) <= ceiling
  {
    var n := if m.state != Quoted then m.(afterCr := false) else m;
    if n.state != Quoted && b == LF && m.afterCr {
    } else if n.state != Quoted && b == LF {
      NewlinePeak(n, utf8, ceiling);
    } else if n.state != Quoted && b == CR {
      NewlinePeak(n.(afterCr := true), utf8, ceiling);
    } else if n.state != Quoted && b == DELIMITER {
      EndFieldPeak(Begin(n), utf8, ceiling);
    } else {
      ContentPeak(n, b, utf8, ceiling);
    }
  }

  /** A byte that closes nothing. */
  lemma ContentPeak(m: Machine, b: u8, utf8: Text -> bool, ceiling: nat)
    requires Consistent(m) && Consume(m, b, utf8, ceiling).Ok?
    requires !m.afterCr && (m.state == Quoted || (b != LF && b != CR && b != DELIMITER))
    requires ceiling < U64_MAX ==> Peak(m) <= ceiling
    ensures ceiling < U64_MAX ==> Peak(Consume(m, b, utf8, ceiling).value) <= ceiling
  {
    var n := if m.state == FieldStart then Begin(m)
             else if m.state == Quoted && b == LF then m.(line := m.line + 1) else m;
    if b == QUOTE && (m.state == FieldStart || m.state == Quoted) {
      assert Peak(Consume(m, b, utf8, ceiling).value) == Peak(m);
    } else {
      assert Consume(m, b, utf8, ceiling).value.(state := n.state) == Push(n, b, ceiling).value;
      PushPeak(n, b, ceiling);
    }
  }

  /**
   * At every byte of every input not refused so far, what the reader holds is
   * within the ceiling.
   */
  lemma {:induction false} PeakBound(bytes: Text, utf8: Text -> bool, ceiling: nat)
    requires Run(bytes, utf8, ceiling).Ok?
    ensures var m := Run(bytes, utf8, ceiling).value;
            Consistent(m) && (ceiling < U64_MAX ==> Peak(m) <= ceiling)
  {
    RunKeepsConsistent(bytes, utf8, ceiling);
    if bytes != [] {
      var n := |bytes| - 1;
      PeakBound(bytes[..n], utf8, ceiling);
      StepPeak(Run(bytes[..n], utf8, ceiling).value, bytes[n], utf8, ceiling);
    }
  }

  // ----- Exactly which files are refused --------------------------------------------------

  lemma EndFieldDue(m: Machine, utf8: Text -> bool, ceiling: nat)
    requires Consistent(m.(afterCr := false)) && m.started && EndField(m, utf8, U64_MAX).Ok?
    ensures var closed := EndField(m, utf8, U64_MAX).value;
            && Due(m) <= Due(closed)
            && Due(m) == Due(Filed(closed))
    ensures EndField(m, utf8, ceiling).Err? && ceiling < U64_MAX ==> Due(m) > ceiling
  {
    EndFieldKeeps(m, utf8, U64_MAX);
    var closed := EndField(m, utf8, U64_MAX).value;
    FieldsCostSnoc(m.fields, m.field);
    TotalCostSnoc(m.records, Record(closed.recordLine, closed.fields));
  }

  lemma NewlineDue(m: Machine, utf8: Text -> bool, ceiling: nat)
    requires Consistent(m.(afterCr := false)) && Newline(m, utf8, U64_MAX).Ok?
    ensures Due(m) == Due(Newline(m, utf8, U64_MAX).value)
    ensures Newline(m, utf8, ceiling).Err? && ceiling < U64_MAX ==> Due(m) > ceiling
  {
    var next := m.(line := m.line + 1);
    if m.started {
      assert Newline(m, utf8, U64_MAX) == EndRecord(next, utf8, U64_MAX);
      assert Newline(m, utf8, ceiling) == EndRecord(next, utf8, ceiling);
      EndFieldDue(next, utf8, ceiling);
    } else {
      assert Newline(m, utf8, U64_MAX) == Ok(next);
    }
  }

  lemma PushDue(m: Machine, b: u8, ceiling: nat)
    requires Consistent(m) && m.started && Push(m, b, U64_MAX).Ok?
    ensures Due(m) <= Due(Push(m, b, U64_MAX).value)
    ensures Push(m, b, ceiling).Err? && ceiling < U64_MAX ==> Due(Push(m, b, U64_MAX).value) > ceiling
  {
  }

  lemma StepDue(m: Machine, b: u8, utf8: Text -> bool, ceiling: nat)
    requires Consistent(m) && Step(m, b, utf8, U64_MAX).Ok?
    ensures Due(m) <= Due(Step(m, b, utf8, U64_MAX).value)
    ensures Step(m, b, utf8, ceiling).Err? && ceiling < U64_MAX
            ==> Due(Step(m, b, utf8, U64_MAX).value) > ceiling
  {
    var n := if m.state != Quoted then m.(afterCr := false) else m;
    if n.state != Quoted && b == LF && m.afterCr {
    } else if n.state != Quoted && b == LF {
      NewlineDue(n, utf8, ceiling);
    } else if n.state != Quoted && b == CR {
      NewlineDue(n.(afterCr := true), utf8, ceiling);
    } else if n.state != Quoted && b == DELIMITER {
      EndFieldDue(Begin(n), utf8, ceiling);
    } else {
      ContentDue(n, b, utf8, ceiling);
    }
  }

  lemma ContentDue(m: Machine, b: u8, utf8: Text -> bool, ceiling: nat)
    requires Consistent(m) && Consume(m, b, utf8, U64_MAX).Ok?
    requires !m.afterCr && (m.state == Quoted || (b != LF && b != CR && b != DELIMITER))
    ensures Due(m) <= Due(Consume(m, b, utf8, U64_MAX).value)
    ensures Consume(m, b, utf8, ceiling).Err? && ceiling < U64_MAX
            ==> Due(Consume(m, b, utf8, U64_MAX).value) > ceiling
  {
    var n := if m.state == FieldStart then Begin(m)
             else if m.state == Quoted && b == LF then m.(line := m.line + 1) else m;
    if b != QUOTE || m.state == Unquoted || m.state == QuoteInQuoted {
      PushDue(n, b, ceiling);
    }
  }

  lemma {:induction false} RunDue(bytes: Text, utf8: Text -> bool, ceiling: nat)
    requires Run(bytes, utf8, U64_MAX).Ok? && ceiling < U64_MAX
    ensures Run(bytes, utf8, ceiling).Err? ==> Due(Run(bytes, utf8, U64_MAX).value) > ceiling
  {
    if bytes != [] {
      var n := |bytes| - 1;
      var before := Run(bytes[..n], utf8, U64_MAX).value;
      RunDue(bytes[..n], utf8, ceiling);
      RunLockstep(bytes[..n], utf8, ceiling);
      RunKeepsConsistent(bytes[..n], utf8, U64_MAX);
      StepDue(before, bytes[n], utf8, ceiling);
    }
  }

  lemma FinishDue(m: Machine, utf8: Text -> bool, ceiling: nat)
    requires Consistent(m) && Finish(m, utf8, U64_MAX).Ok? && ceiling < U64_MAX
    requires Peak(m) <= ceiling
    ensures Finish(m, utf8, ceiling) == Err(OverResidentCeiling(ceiling)) <==> Due(m) > ceiling
  {
    if m.started {
      EndFieldDue(m, utf8, ceiling);
      if EndField(m, utf8, ceiling).Ok? {
        EndFieldPeak(m, utf8, ceiling);
        EndFieldKeeps(m, utf8, ceiling);
        FiledPeak(EndField(m, utf8, ceiling).value);
      }
    }
  }

  lemma DueAtTheEnd(m: Machine, utf8: Text -> bool)
    requires Consistent(m) && Finish(m, utf8, U64_MAX).Ok?
    ensures TotalCost(Finish(m, utf8, U64_MAX).value.records) == Due(m)
  {
    if m.started {
      EndFieldDue(m, utf8, 0);
    }
  }

  /**
   * A well-formed file is refused exactly when its records cost more than the
   * ceiling, saturating totals included.
   */
  lemma RefusedExactlyWhenTooLarge(bytes: Text, utf8: Text -> bool, ceiling: nat)
    requires ceiling < U64_MAX
    requires ReadAll(bytes, utf8, U64_MAX).Ok?
    ensures ReadAll(bytes, utf8, ceiling) == Err(OverResidentCeiling(ceiling))
            <==> TotalCost(ReadAll(bytes, utf8, U64_MAX).value.records) > ceiling
  {
    RunKeepsConsistent(bytes, utf8, U64_MAX);
    DueAtTheEnd(Run(bytes, utf8, U64_MAX).value, utf8);
    RunLockstep(bytes, utf8, ceiling);
    if Run(bytes, utf8, ceiling).Ok? {
      PeakBound(bytes, utf8, ceiling);
      FinishDue(Run(bytes, utf8, ceiling).value, utf8, ceiling);
    } else {
      RunDue(bytes, utf8, ceiling);
    }
  }
}
