/** A CSV's records as columns and rows. */
module CsvTable {
  import opened Basics
  import opened Rows
  import opened Csv
  import opened CsvCeiling

  /** The UTF-8 byte-order mark. */
  const BOM: Text := [0xEF, 0xBB, 0xBF]

  /** The records without a mark at their very beginning. */
  function StripBom(records: seq<Record>): seq<Record> {
    if records != [] && records[0].fields != [] && BOM <= records[0].fields[0] then
      var first := records[0];
      [first.(fields := first.fields[0 := first.fields[0][|BOM|..]])] + records[1..]
    else records
  }

  /** The records behind a header, where there is one. */
  function Body(records: seq<Record>, header: bool): seq<Record>
    requires header ==> records != []
  {
    if header then records[1..] else records
  }

  /** A row has a cell a field: the field's own text, or nothing where the field is empty. */
  ghost predicate RowHolds(fields: seq<Text>, row: seq<Cell>) {
    && |row| == |fields|
    && forall c :: 0 <= c < |fields| ==>
         && (row[c].None? <==> fields[c] == [])
         && (row[c].Some? ==> row[c].value == fields[c])
  }

  lemma CellsHold(fields: seq<Text>)
    ensures RowHolds(fields, CellsOfTexts(fields))
  {
  }

  /** What a CSV's records may be read as. */
  ghost predicate Tabulated(records: seq<Record>, held: nat, header: bool, schema: Schema,
                            r: Result<Parsed, TableError>) {
    if header && records == [] then r == Err(Empty)
    else if !header && schema.Auto? then r == Err(NamesRequired)
    else
      var columns := if schema.Named? then schema.names else records[0].fields;
      var body := Body(records, header);
      if columns == [] then r == Err(NoNames)
      else if body == [] then r == Err(Empty)
      else
        match r
        case Ok(parsed) => parsed.columns == columns && parsed.held == held && RowsHold(body, |columns|, parsed.rows)
        case Err(error) => Misfit(body, |columns|, error)
  }

  /** One row a record, each record as wide as asked. */
  ghost predicate RowsHold(body: seq<Record>, width: nat, rows: seq<seq<Cell>>) {
    && |rows| == |body|
    && forall i :: 0 <= i < |body| ==> |body[i].fields| == width && RowHolds(body[i].fields, rows[i])
  }

  /** The first record that is not as wide as asked is refused at its line. */
  ghost predicate Misfit(body: seq<Record>, width: nat, error: TableError) {
    exists i ::
      && 0 <= i < |body|
      && (forall j :: 0 <= j < i ==> |body[j].fields| == width)
      && |body[i].fields| != width
      && error == Malformed(body[i].line, Width(|body[i].fields|, width))
  }

  /** The rows of a body, or the refusal of the first record that is too wide or too narrow. */
  method ReadRows(body: seq<Record>, width: nat) returns (r: Result<seq<seq<Cell>>, TableError>)
    ensures r.Ok? ==> RowsHold(body, width, r.value)
    ensures r.Err? ==> Misfit(body, width, r.error)
  {
    var rows: seq<seq<Cell>> := [];
    for i := 0 to |body|
      invariant |rows| == i
      invariant forall j :: 0 <= j < i ==> |body[j].fields| == width && RowHolds(body[j].fields, rows[j])
    {
      if |body[i].fields| != width {
        return Err(Malformed(body[i].line, Width(|body[i].fields|, width)));
      }
      CellsHold(body[i].fields);
      rows := rows + [CellsOfTexts(body[i].fields)];
    }
    return Ok(rows);
  }

  /** Parsed rows, or the refusal that the records of the whole text come to. */
  method ReadCsv(chunks: seq<Text>, header: bool, schema: Schema, utf8: Text -> bool, ceiling: nat)
      returns (r: Result<Parsed, TableError>)
    ensures var read := ReadAll(Flatten(chunks), utf8, ceiling);
            if read.Err? then r == Err(read.error)
            else Tabulated(StripBom(read.value.records), Sat(TotalCost(read.value.records)), header, schema, r)
  {
    var read := Records(chunks, utf8, ceiling);
    if read.Err? {
      return Err(read.error);
    }
    var records := StripBom(read.value.0);
    var columns: seq<Text>;
    match schema {
      case Auto =>
        if !header {
          return Err(NamesRequired);
        }
        if records == [] {
          return Err(Empty);
        }
        columns := records[0].fields;
      case Named(names) =>
        if header && records == [] {
          return Err(Empty);
        }
        columns := names;
    }
    if columns == [] {
      return Err(NoNames);
    }
    var rows := ReadRows(Body(records, header), |columns|);
    if rows.Err? {
      return Err(rows.error);
    }
    if rows.value == [] {
      return Err(Empty);
    }
    return Ok(Parsed(columns, rows.value, read.value.1));
  }

  // ----- The charge covers the rows --------------------------------------------------

  lemma {:induction false} RecordCostIsFootprint(fields: seq<Text>)
    ensures FieldsCost(fields) == CellsCost(CellsOfTexts(fields))
  {
    if fields != [] {
      var n := |fields| - 1;
      RecordCostIsFootprint(fields[..n]);
      assert CellsOfTexts(fields)[..n] == CellsOfTexts(fields[..n]);
    }
  }

  lemma {:induction false} BodyCost(body: seq<Record>, rows: seq<seq<Cell>>)
    requires |rows| == |body|
    requires forall i :: 0 <= i < |body| ==> RowHolds(body[i].fields, rows[i])
    ensures RowsCost(rows) == TotalCost(body)
  {
    if body != [] {
      var n := |body| - 1;
      assert rows[n] == CellsOfTexts(body[n].fields);
      BodyCost(body[..n], rows[..n]);
      RecordCostIsFootprint(body[n].fields);
    }
  }

  lemma {:induction false} TotalCostCons(records: seq<Record>)
    requires records != []
    ensures TotalCost(records) == RecordCost(records[0].fields) + TotalCost(records[1..])
  {
    var n := |records| - 1;
    if n > 0 {
      TotalCostCons(records[..n]);
      assert records[..n][1..] == records[1..][..n - 1];
    }
  }

  lemma {:induction false} FieldsCostCons(fields: seq<Text>)
    requires fields != []
    ensures FieldsCost(fields) == |fields[0]| + CELL_OVERHEAD + FieldsCost(fields[1..])
  {
    var n := |fields| - 1;
    if n > 0 {
      FieldsCostCons(fields[..n]);
      assert fields[..n][1..] == fields[1..][..n - 1];
    }
  }

  lemma StripBomCost(records: seq<Record>)
    ensures TotalCost(StripBom(records)) <= TotalCost(records)
  {
    var stripped := StripBom(records);
    if stripped != records {
      TotalCostCons(records);
      TotalCostCons(stripped);
      FieldsCostCons(records[0].fields);
      FieldsCostCons(stripped[0].fields);
    }
  }

  /**
   * What the parse charged covers every row it hands over, so a ceiling the read
   * passed bounds the rows themselves.
   */
  lemma ChargeCoversRows(bytes: Text, header: bool, schema: Schema, utf8: Text -> bool, ceiling: nat,
                         r: Result<Parsed, TableError>)
    requires ceiling < U64_MAX
    requires ReadAll(bytes, utf8, ceiling).Ok? && r.Ok?
    requires var m := ReadAll(bytes, utf8, ceiling).value;
             Tabulated(StripBom(m.records), Sat(TotalCost(m.records)), header, schema, r)
    ensures RowsCost(r.value.rows) <= r.value.held <= ceiling
  {
    var m := ReadAll(bytes, utf8, ceiling).value;
    var records := StripBom(m.records);
    EndsWithin(bytes, utf8, ceiling);
    StripBomCost(m.records);
    if header {
      TotalCostCons(records);
    }
    BodyCost(Body(records, header), r.value.rows);
  }

  lemma EndsWithin(bytes: Text, utf8: Text -> bool, ceiling: nat)
    requires ReadAll(bytes, utf8, ceiling).Ok? && ceiling < U64_MAX
    ensures var m := ReadAll(bytes, utf8, ceiling).value;
            TotalCost(m.records) <= ceiling
  {
    PeakBound(bytes, utf8, ceiling);
    var m := Run(bytes, utf8, ceiling).value;
    if m.started {
      EndFieldPeak(m, utf8, ceiling);
      EndFieldKeeps(m, utf8, ceiling);
      FiledPeak(EndField(m, utf8, ceiling).value);
    }
  }
}
