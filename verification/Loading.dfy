/** A CSV or JSON file loaded into an indexed table, under one ceiling for both steps. */
module Loading {
  import opened Basics
  import opened Rows
  import opened Csv
  import opened CsvCeiling
  import opened CsvTable
  import opened Tables
  import Json

  /** A file: the bytes of a CSV, or the elements of a JSON document. */
  datatype File = CsvFile(bytes: Text, header: bool) | JsonFile(source: Json.Source)

  /** What is being loaded: the file, how it is to be read, and the key it is indexed by. */
  datatype Load = Load(file: File, schema: Schema, index: Index)

  /** The parsers and the allocator a load leans on. */
  datatype Host = Host(utf8: Text -> bool, lib: Library, alloc: Allocator)

  /** What a file under a ceiling parses as. */
  ghost predicate Parses(host: Host, load: Load, ceiling: nat, parsed: Parsed) {
    match load.file
    case CsvFile(bytes, header) =>
      var read := ReadAll(bytes, host.utf8, ceiling);
      && read.Ok?
      && Tabulated(StripBom(read.value.records), Sat(TotalCost(read.value.records)), header, load.schema, Ok(parsed))
    case JsonFile(source) =>
      Json.Reference(load.schema, source, ceiling) == Ok(parsed)
  }

  /** A load under a ceiling comes to a table, by way of its parsed rows. */
  ghost predicate Loads(host: Host, load: Load, ceiling: nat, parsed: Parsed, table: Table) {
    Parses(host, load, ceiling, parsed) && Built(host.lib, host.alloc, parsed, load.index, ceiling) == Ok(table)
  }

  /** A file that comes in pieces, or a document of well-formed objects. */
  ghost predicate Delivers(load: Load, chunks: seq<Text>) {
    match load.file
    case CsvFile(bytes, _) => Flatten(chunks) == bytes
    case JsonFile(source) => Json.ValidItems(source.items)
  }

  /** Parse a file, whichever it is. */
  method ReadFile(host: Host, load: Load, chunks: seq<Text>, ceiling: nat) returns (r: Result<Parsed, TableError>)
    requires Delivers(load, chunks) && ceiling <= U64_MAX
    ensures r.Ok? ==> Parses(host, load, ceiling, r.value)
    ensures r.Err? ==> forall parsed :: !Parses(host, load, ceiling, parsed)
  {
    match load.file {
      case CsvFile(bytes, header) => r := ReadCsv(chunks, header, load.schema, host.utf8, ceiling);
      case JsonFile(source) => r := Json.ReadJson(load.schema, source, ceiling);
    }
  }

  /** The load as it runs: parse, then index, under the same ceiling. */
  method LoadFile(host: Host, load: Load, chunks: seq<Text>, ceiling: nat) returns (r: Result<Table, TableError>)
    requires Delivers(load, chunks) && ceiling <= U64_MAX
    ensures r.Ok? ==> exists parsed :: Loads(host, load, ceiling, parsed, r.value)
    ensures r.Err? ==> forall parsed, table :: !Loads(host, load, ceiling, parsed, table)
  {
    var parsed := ReadFile(host, load, chunks, ceiling);
    if parsed.Err? {
      return Err(parsed.error);
    }
    ParsedIsAffordable(host, load, ceiling, parsed.value);
    r := Build(host.lib, host.alloc, parsed.value, load.index, ceiling);
    if r.Err? {
      forall other, table | Loads(host, load, ceiling, other, table)
        ensures false
      {
        ParsedOnce(host, load, ceiling, parsed.value, other);
      }
    } else {
      assert Loads(host, load, ceiling, parsed.value, r.value);
    }
  }

  /** What a parse charges is a saturated total within its ceiling. */
  lemma ParsedIsAffordable(host: Host, load: Load, ceiling: nat, parsed: Parsed)
    requires Parses(host, load, ceiling, parsed) && ceiling <= U64_MAX
    ensures parsed.held <= U64_MAX && parsed.held <= ceiling
  {
    match load.file
    case CsvFile(bytes, _) =>
      if ceiling < U64_MAX {
        EndsWithin(bytes, host.utf8, ceiling);
      }
    case JsonFile(source) =>
      Json.AdmittedIsWithin(load.schema, source.items, ceiling);
  }

  lemma TabulatedOnce(records: seq<Record>, held: nat, header: bool, schema: Schema, a: Parsed, b: Parsed)
    requires Tabulated(records, held, header, schema, Ok(a)) && Tabulated(records, held, header, schema, Ok(b))
    ensures a == b
  {
    var body := Body(records, header);
    forall i | 0 <= i < |body|
      ensures a.rows[i] == b.rows[i]
    {
      assert RowHolds(body[i].fields, a.rows[i]) && RowHolds(body[i].fields, b.rows[i]);
    }
    assert a.rows == b.rows;
  }

  lemma ParsedOnce(host: Host, load: Load, ceiling: nat, a: Parsed, b: Parsed)
    requires Parses(host, load, ceiling, a) && Parses(host, load, ceiling, b)
    ensures a == b
  {
    match load.file
    case CsvFile(bytes, header) =>
      var records := ReadAll(bytes, host.utf8, ceiling).value.records;
      TabulatedOnce(StripBom(records), Sat(TotalCost(records)), header, load.schema, a, b);
    case JsonFile(_) =>
  }

  // ----- The ceiling decides admission, and never content --------------------------------------

  /** A CSV read under one ceiling reads the same under every larger one. */
  lemma MoreRoomSameRead(bytes: Text, utf8: Text -> bool, c: nat, d: nat)
    requires c <= d <= U64_MAX && ReadAll(bytes, utf8, c).Ok?
    ensures ReadAll(bytes, utf8, d) == ReadAll(bytes, utf8, c)
  {
    CeilingNeverChangesContent(bytes, utf8, c);
    CeilingNeverChangesContent(bytes, utf8, d);
    if d < U64_MAX {
      EndsWithin(bytes, utf8, c);
      RefusedExactlyWhenTooLarge(bytes, utf8, d);
    }
  }

  lemma ParsesUnderMore(host: Host, load: Load, c: nat, d: nat, parsed: Parsed)
    requires c <= d <= U64_MAX && Parses(host, load, c, parsed)
    ensures Parses(host, load, d, parsed)
  {
    match load.file
    case CsvFile(bytes, _) => MoreRoomSameRead(bytes, host.utf8, c, d);
    case JsonFile(source) => Json.MoreRoomSameTable(load.schema, source, c, d);
  }

  /** A file that loads under one ceiling loads as the same table under every larger one. */
  lemma LoadsUnderMore(host: Host, load: Load, c: nat, d: nat, parsed: Parsed, table: Table)
    requires c <= d <= U64_MAX
    ensures Loads(host, load, c, parsed, table) ==> Loads(host, load, d, parsed, table)
  {
    if Loads(host, load, c, parsed, table) {
      ParsesUnderMore(host, load, c, d, parsed);
    }
  }

  /** Whatever the ceilings, a file loads as one table or not at all. */
  lemma OneTable(host: Host, load: Load, c: nat, d: nat, parsed: Parsed, table: Table, parsed': Parsed, table': Table)
    requires c <= U64_MAX && d <= U64_MAX
    ensures Loads(host, load, c, parsed, table) && Loads(host, load, d, parsed', table')
            ==> parsed == parsed' && table == table'
  {
    if Loads(host, load, c, parsed, table) && Loads(host, load, d, parsed', table') {
      var more := if c <= d then d else c;
      ParsesUnderMore(host, load, c, more, parsed);
      ParsesUnderMore(host, load, d, more, parsed');
      ParsedOnce(host, load, more, parsed, parsed');
    }
  }

  // ----- Exactly which ceilings admit a file ------------------------------------------------------

  /** Whether each element's text fits beside the rows before it; a CSV's bytes are no part of its rows' charge. */
  ghost predicate TextsFit(load: Load, ceiling: nat) {
    load.file.JsonFile? ==> Json.TextFits(load.schema, load.file.source.items, ceiling)
  }

  lemma CsvParsesExactly(host: Host, load: Load, ceiling: nat, parsed: Parsed)
    requires load.file.CsvFile? && ceiling < U64_MAX && Parses(host, load, U64_MAX, parsed)
    ensures Parses(host, load, ceiling, parsed) <==> parsed.held <= ceiling
  {
    var bytes := load.file.bytes;
    CeilingNeverChangesContent(bytes, host.utf8, ceiling);
    RefusedExactlyWhenTooLarge(bytes, host.utf8, ceiling);
    assert parsed.held == Sat(TotalCost(ReadAll(bytes, host.utf8, U64_MAX).value.records));
  }

  lemma JsonParsesExactly(host: Host, load: Load, ceiling: nat, parsed: Parsed)
    requires load.file.JsonFile? && Json.ValidItems(load.file.source.items)
    requires ceiling < U64_MAX && Parses(host, load, U64_MAX, parsed)
    ensures Parses(host, load, ceiling, parsed) <==> parsed.held <= ceiling && TextsFit(load, ceiling)
  {
    var items := load.file.source.items;
    forall i | 0 <= i < |items|
      ensures items[i].element.AnObject?
    {
      var before, item, rest := items[..i], items[i], items[i + 1..];
      assert items == before + [item] + rest;
      Json.PartIsObject(load.schema, before, item, before + [item], rest, items, U64_MAX);
    }
    Json.AdmittedIsWithin(load.schema, items, U64_MAX);
    Json.RefusedExactlyWhenTooLarge(load.schema, items, ceiling);
  }

  /**
   * A file that loads under the largest ceiling loads under another exactly when
   * its rows, its names and its index together cost no more than that one, and,
   * of a JSON document, no element's text is too much beside the rows before it.
   */
  lemma LoadsExactlyWhenAffordable(host: Host, load: Load, ceiling: nat, parsed: Parsed, table: Table)
    requires load.file.JsonFile? ==> Json.ValidItems(load.file.source.items)
    requires ceiling < U64_MAX
    ensures Loads(host, load, U64_MAX, parsed, table) ==>
              (Loads(host, load, ceiling, parsed, table) <==>
                && TableCost(host.lib, host.alloc, parsed, load.index, table.keyColumn) <= ceiling
                && TextsFit(load, ceiling))
  {
    if Loads(host, load, U64_MAX, parsed, table) {
      match load.file
      case CsvFile(_, _) => CsvParsesExactly(host, load, ceiling, parsed);
      case JsonFile(_) => JsonParsesExactly(host, load, ceiling, parsed);
    }
  }

  /** What a parse charged covers the rows it hands over. */
  lemma ParsedCoversRows(host: Host, load: Load, ceiling: nat, parsed: Parsed)
    requires ceiling < U64_MAX && Parses(host, load, ceiling, parsed)
    ensures RowsCost(parsed.rows) <= parsed.held
  {
    match load.file
    case CsvFile(bytes, header) =>
      ChargeCoversRows(bytes, header, load.schema, host.utf8, ceiling, Ok(parsed));
    case JsonFile(source) =>
      Json.AdmittedIsWithin(load.schema, source.items, ceiling);
  }

  /** What a loaded table holds, index included, is within the ceiling it was loaded under. */
  lemma LoadedWithin(host: Host, load: Load, ceiling: nat, parsed: Parsed, table: Table)
    requires ceiling < U64_MAX
    ensures Loads(host, load, ceiling, parsed, table) ==>
              RowsCost(table.rows) + ColumnsCost(table.columns)
              + KeysCost(host.lib, host.alloc, load.index, table.rows, table.keyColumn) <= ceiling
  {
    if Loads(host, load, ceiling, parsed, table) {
      ParsedCoversRows(host, load, ceiling, parsed);
    }
  }
}
