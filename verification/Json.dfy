/** The streaming JSON reader, which widens the rows it has as keys turn up. */
module Json {
  import opened Basics
  import opened Rows
  import opened Order

  /** A JSON value: null, a string, or anything else as its own compact text. */
  datatype Value = Null | Str(text: Text) | Other(json: Text)

  /** An object: its values, and its keys in the order they are walked. */
  datatype Object = Object(keys: seq<Text>, values: map<Text, Value>) {
    ghost predicate Valid() {
      forall k :: k in keys <==> k in values
    }
  }

  datatype Element = AnObject(entry: Object) | NotAnyObject

  /** One array element, and how many reads of the document parsing it takes. */
  datatype Item = Item(element: Element, taken: nat)

  /** How the document goes on behind its last element. */
  datatype Ending =
    | Closed
    | Trailing
    | Broken(taken: nat)

  datatype Source = Source(items: seq<Item>, ending: Ending)

  function CellOf(entry: Object, column: Text): Cell {
    if column !in entry.values then None
    else match entry.values[column]
      case Null => None
      case Str(text) => CellOfText(text)
      case Other(json) => Some(json)
  }

  function RowOf(entry: Object, columns: seq<Text>): seq<Cell> {
    seq(|columns|, c requires 0 <= c < |columns| => CellOf(entry, columns[c]))
  }

  // ----- The two-pass reading -----------------------------------------------------

  /** Every key of every object. */
  function KeysOf(objects: seq<Object>): set<Text> {
    if objects == [] then {}
    else KeysOf(objects[..|objects| - 1]) + objects[|objects| - 1].values.Keys
  }

  /** The column names of a document: the ones stated, or its keys in order. */
  ghost predicate ColumnsOf(schema: Schema, objects: seq<Object>, columns: seq<Text>) {
    match schema
    case Named(names) => columns == names
    case Auto => Sorted(columns) && forall k :: k in columns <==> k in KeysOf(objects)
  }

  /** One row an object, as wide as the columns. */
  function Render(objects: seq<Object>, columns: seq<Text>): seq<seq<Cell>> {
    seq(|objects|, i requires 0 <= i < |objects| => RowOf(objects[i], columns))
  }

  function Insert<T>(s: seq<T>, at: nat, x: T): seq<T>
    requires at <= |s|
  {
    s[..at] + [x] + s[at..]
  }

  function PlaceIn(columns: seq<Text>, key: Text): (at: nat)
    ensures at <= |columns|
  {
    var at := Place(columns, key);
    if at <= |columns| then at else 0
  }

  /** Some names with more keys taken in, in order. */
  function Collected(columns: seq<Text>, keys: seq<Text>): seq<Text> {
    if keys == [] then columns
    else
      var so := Collected(columns, keys[..|keys| - 1]);
      var key := keys[|keys| - 1];
      if key in so then so else Insert(so, PlaceIn(so, key), key)
  }

  /** The names a first pass over the whole document would collect. */
  function Columns(schema: Schema, objects: seq<Object>): seq<Text> {
    if schema.Named? then schema.names
    else if objects == [] then []
    else Collected(Columns(schema, objects[..|objects| - 1]), objects[|objects| - 1].keys)
  }

  /** What the table costs once the document is read in two passes. */
  function Cost(schema: Schema, objects: seq<Object>): nat {
    RowsCost(Render(objects, Columns(schema, objects)))
  }

  // ----- Widening ------------------------------------------------------------------

  lemma {:induction false} KeysKnown(objects: seq<Object>, i: nat)
    requires i < |objects|
    ensures objects[i].values.Keys <= KeysOf(objects)
  {
    if i < |objects| - 1 {
      KeysKnown(objects[..|objects| - 1], i);
    }
  }

  /** A key no object has is an absent cell in every row. */
  lemma RenderWidened(objects: seq<Object>, columns: seq<Text>, at: nat, key: Text)
    requires at <= |columns| && key !in KeysOf(objects)
    ensures |Render(objects, Insert(columns, at, key))| == |objects|
    ensures forall i :: 0 <= i < |objects| ==>
              Render(objects, Insert(columns, at, key))[i] == Insert(Render(objects, columns)[i], at, None)
  {
    forall i | 0 <= i < |objects|
      ensures RowOf(objects[i], Insert(columns, at, key)) == Insert(RowOf(objects[i], columns), at, None)
    {
      KeysKnown(objects, i);
    }
  }

  lemma {:induction false} CellsCostSplit(a: seq<Cell>, b: seq<Cell>)
    ensures CellsCost(a + b) == CellsCost(a) + CellsCost(b)
  {
    if b == [] {
      assert a + b == a;
    } else {
      var n := |b| - 1;
      CellsCostSplit(a, b[..n]);
      assert (a + b)[..|a + b| - 1] == a + b[..n];
    }
  }

  lemma InsertedCost(row: seq<Cell>, at: nat)
    requires at <= |row|
    ensures Footprint(Insert(row, at, None)) == Footprint(row) + CELL_OVERHEAD
  {
    assert row == row[..at] + row[at..];
    CellsCostSplit(row[..at], row[at..]);
    CellsCostSplit(row[..at] + [None], row[at..]);
    CellsCostSplit(row[..at], [None]);
    assert CellsCost([None]) == CELL_OVERHEAD;
  }

  /** What widening some rows by one absent cell adds to their cost. */
  lemma {:induction false} WidenedCost(rows: seq<seq<Cell>>, wider: seq<seq<Cell>>, at: nat)
    requires |wider| == |rows|
    requires forall i :: 0 <= i < |rows| ==> at <= |rows[i]| && wider[i] == Insert(rows[i], at, None)
    ensures RowsCost(wider) == RowsCost(rows) + |rows| * CELL_OVERHEAD
  {
    if rows != [] {
      var n := |rows| - 1;
      WidenedCost(rows[..n], wider[..n], at);
      InsertedCost(rows[n], at);
    }
  }

  /** `row.insert(at, None)` in every row. */
  method WidenRows(rows: seq<seq<Cell>>, at: nat) returns (wider: seq<seq<Cell>>)
    requires forall i :: 0 <= i < |rows| ==> at <= |rows[i]|
    ensures |wider| == |rows|
    ensures forall i :: 0 <= i < |rows| ==> wider[i] == Insert(rows[i], at, None)
  {
    wider := rows;
    for i := 0 to |rows|
      invariant |wider| == |rows|
      invariant forall j :: 0 <= j < i ==> wider[j] == Insert(rows[j], at, None)
      invariant forall j :: i <= j < |rows| ==> wider[j] == rows[j]
    {
      wider := wider[i := Insert(wider[i], at, None)];
    }
  }

  /** The state of the walk: what it has is the two-pass reading of what it has seen. */
  ghost predicate Reading(objects: seq<Object>, columns: seq<Text>, rows: seq<seq<Cell>>, held: nat) {
    rows == Render(objects, columns) && held == Sat(RowsCost(rows))
  }

  /** Sorted columns holding the keys of the objects and the first `n` of one more. */
  ghost predicate Widening(objects: seq<Object>, keys: seq<Text>, n: nat, columns: seq<Text>) {
    && n <= |keys|
    && Sorted(columns)
    && forall k :: k in columns <==> k in KeysOf(objects) || k in keys[..n]
  }

  lemma InsertContains(columns: seq<Text>, at: nat, key: Text)
    requires at <= |columns|
    ensures forall k :: k in Insert(columns, at, key) <==> k in columns || k == key
  {
    forall k
      ensures k in Insert(columns, at, key) <==> k in columns || k == key
    {
      assert columns == columns[..at] + columns[at..];
    }
  }

  lemma Outnumbers(some: set<Text>, other: Text, all: set<Text>)
    requires some + {other} <= all && other !in some
    ensures |all| > |some|
  {
    assert |all| == |all - (some + {other})| + |some + {other}|;
  }

  /** Insert one new column into the names and into every row read so far. */
  method InsertColumn(ghost objects: seq<Object>, columns: seq<Text>, rows: seq<seq<Cell>>, held: nat,
                      at: nat, key: Text)
      returns (columns': seq<Text>, rows': seq<seq<Cell>>, held': nat)
    requires Reading(objects, columns, rows, held)
    requires at <= |columns| && key !in KeysOf(objects)
    ensures Reading(objects, columns', rows', held')
    ensures columns' == Insert(columns, at, key)
  {
    columns' := Insert(columns, at, key);
    rows' := WidenRows(rows, at);
    RenderWidened(objects, columns, at, key);
    assert rows' == Render(objects, columns');
    WidenedCost(rows, rows', at);
    SatStep(RowsCost(rows), |rows| * CELL_OVERHEAD, RowsCost(rows'));
    held' := SatAdd(held, |rows| * CELL_OVERHEAD);
  }

  lemma WideningGrows(objects: seq<Object>, keys: seq<Text>, n: nat, columns: seq<Text>, at: nat)
    requires Widening(objects, keys, n, columns) && n < |keys|
    requires if keys[n] in columns then at == 0 else Belongs(columns, at, keys[n])
    ensures Widening(objects, keys, n + 1, if keys[n] in columns then columns else Insert(columns, at, keys[n]))
  {
    assert keys[..n + 1] == keys[..n] + [keys[n]];
    if keys[n] !in columns {
      InsertSorted(columns, at, keys[n]);
      InsertContains(columns, at, keys[n]);
    }
  }

  lemma ColumnsCount(objects: seq<Object>, entry: Object, n: nat, columns: seq<Text>)
    requires entry.Valid() && Widening(objects, entry.keys, n, columns)
    ensures n == |entry.keys| ==> ColumnsOf(Auto, objects + [entry], columns)
    ensures n == |entry.keys| ==> |KeysOf(objects + [entry])| == |columns|
    ensures n < |entry.keys| && entry.keys[n] !in columns ==> |KeysOf(objects + [entry])| > |columns|
  {
    var all := KeysOf(objects + [entry]);
    assert (objects + [entry])[..|objects|] == objects;
    SortedCount(columns);
    if n == |entry.keys| {
      assert entry.keys[..n] == entry.keys;
      assert ToSet(columns) == all;
    } else if entry.keys[n] !in columns {
      Outnumbers(ToSet(columns), entry.keys[n], all);
    }
  }

  /** Take one object's keys into the columns and the rows. */
  method Widen(ghost objects: seq<Object>, entry: Object, columns: seq<Text>, rows: seq<seq<Cell>>, held: nat)
      returns (r: Outcome<TableError>, columns': seq<Text>, rows': seq<seq<Cell>>, held': nat)
    requires entry.Valid() && Reading(objects, columns, rows, held)
    requires ColumnsOf(Auto, objects, columns) && |columns| <= MAX_FIELDS
    ensures r == if |KeysOf(objects + [entry])| > MAX_FIELDS then Fail(TooManyKeys) else Pass
    ensures r.Pass? ==> Reading(objects, columns', rows', held')
    ensures r.Pass? ==> ColumnsOf(Auto, objects + [entry], columns') && |columns'| <= MAX_FIELDS
  {
    columns', rows', held' := columns, rows, held;
    for n := 0 to |entry.keys|
      invariant Reading(objects, columns', rows', held')
      invariant Widening(objects, entry.keys, n, columns') && |columns'| <= MAX_FIELDS
    {
      var key := entry.keys[n];
      var found, at := Search(columns', key);
      WideningGrows(objects, entry.keys, n, columns', if found then 0 else at);
      if !found {
        if |columns'| >= MAX_FIELDS {
          ColumnsCount(objects, entry, n, columns');
          return Fail(TooManyKeys), columns', rows', held';
        }
        columns', rows', held' := InsertColumn(objects, columns', rows', held', at, key);
      }
    }
    ColumnsCount(objects, entry, |entry.keys|, columns');
    r := Pass;
  }

  // ----- The names are the two-pass ones -----------------------------------------------

  ghost predicate AllValid(objects: seq<Object>) {
    forall o <- objects :: o.Valid()
  }

  lemma {:induction false} CollectedWidens(objects: seq<Object>, columns: seq<Text>, keys: seq<Text>)
    requires ColumnsOf(Auto, objects, columns)
    ensures Widening(objects, keys, |keys|, Collected(columns, keys))
  {
    if keys != [] {
      var n := |keys| - 1;
      var so := Collected(columns, keys[..n]);
      CollectedWidens(objects, columns, keys[..n]);
      assert keys[..n][..n] == keys[..n];
      assert Widening(objects, keys, n, so);
      if keys[n] !in so {
        PlaceBelongs(so, keys[n]);
      }
      WideningGrows(objects, keys, n, so, if keys[n] in so then 0 else Place(so, keys[n]));
    }
  }

  lemma {:induction false} ColumnsAreSorted(objects: seq<Object>)
    requires AllValid(objects)
    ensures ColumnsOf(Auto, objects, Columns(Auto, objects))
  {
    if objects != [] {
      var n := |objects| - 1;
      var rest, entry := objects[..n], objects[n];
      assert objects == rest + [entry];
      assert AllValid(rest) && entry.Valid();
      ColumnsAreSorted(rest);
      ColumnsStaySorted(rest, entry, Columns(Auto, rest));
    }
  }

  lemma ColumnsStaySorted(rest: seq<Object>, entry: Object, columns: seq<Text>)
    requires entry.Valid() && ColumnsOf(Auto, rest, columns)
    ensures ColumnsOf(Auto, rest + [entry], Collected(columns, entry.keys))
  {
    CollectedWidens(rest, columns, entry.keys);
    ColumnsCount(rest, entry, |entry.keys|, Collected(columns, entry.keys));
  }

  lemma ColumnsAreUnique(schema: Schema, objects: seq<Object>, columns: seq<Text>)
    requires AllValid(objects) && ColumnsOf(schema, objects, columns)
    ensures columns == Columns(schema, objects)
  {
    if schema.Auto? {
      ColumnsAreSorted(objects);
      SortedUnique(columns, Columns(schema, objects));
    }
  }

  // ----- What the document is refused for ------------------------------------------------

  function ObjectsOf(items: seq<Item>): seq<Object> {
    if items == [] then []
    else
      var last := items[|items| - 1].element;
      ObjectsOf(items[..|items| - 1]) + if last.AnObject? then [last.entry] else []
  }

  /** What one more element is refused for, behind the objects already read. */
  function Verdict(schema: Schema, before: seq<Object>, item: Item, at: nat, ceiling: nat): Outcome<TableError> {
    if item.taken + Sat(Cost(schema, before)) > ceiling then Fail(OverResidentCeiling(ceiling))
    else if item.element.NotAnyObject? then Fail(NotAnObject(at))
    else
      var all := before + [item.element.entry];
      if schema.Auto? && |KeysOf(all)| > MAX_FIELDS then Fail(TooManyKeys)
      else if Sat(Cost(schema, all)) > ceiling then Fail(OverResidentCeiling(ceiling))
      else Pass
  }

  /** The first refusal of an element, if there is one. */
  function FirstRefusal(schema: Schema, items: seq<Item>, ceiling: nat): Outcome<TableError> {
    if items == [] then Pass
    else
      var n := |items| - 1;
      var before := FirstRefusal(schema, items[..n], ceiling);
      if before.Fail? then before else Verdict(schema, ObjectsOf(items[..n]), items[n], n, ceiling)
  }

  /** What a two-pass reader would make of the document. */
  function Reference(schema: Schema, source: Source, ceiling: nat): Result<Parsed, TableError> {
    var objects := ObjectsOf(source.items);
    var columns := Columns(schema, objects);
    var refused := FirstRefusal(schema, source.items, ceiling);
    if refused.Fail? then Err(refused.error)
    else if source.ending.Broken? then
      Err(if source.ending.taken + Sat(Cost(schema, objects)) > ceiling
          then OverResidentCeiling(ceiling) else NotAnArray)
    else if source.items == [] then Err(Empty)
    else if columns == [] then Err(NoNames)
    else if source.ending.Trailing? then Err(NotAnArray)
    else Ok(Parsed(columns, Render(objects, columns), Sat(Cost(schema, objects))))
  }

  ghost predicate ValidItems(items: seq<Item>) {
    forall i :: 0 <= i < |items| && items[i].element.AnObject? ==> items[i].element.entry.Valid()
  }

  lemma {:induction false} ObjectsAreValid(items: seq<Item>)
    requires ValidItems(items)
    ensures AllValid(ObjectsOf(items))
  {
    if items != [] {
      ObjectsAreValid(items[..|items| - 1]);
    }
  }

  lemma TakenSnoc(schema: Schema, items: seq<Item>, item: Item, ceiling: nat)
    ensures ObjectsOf(items + [item]) ==
            ObjectsOf(items) + if item.element.AnObject? then [item.element.entry] else []
    ensures var before := FirstRefusal(schema, items, ceiling);
            FirstRefusal(schema, items + [item], ceiling) ==
            if before.Fail? then before else Verdict(schema, ObjectsOf(items), item, |items|, ceiling)
  {
    assert (items + [item])[..|items|] == items;
  }

  lemma {:induction false} RefusedForGood(schema: Schema, items: seq<Item>, rest: seq<Item>, ceiling: nat)
    requires FirstRefusal(schema, items, ceiling).Fail?
    ensures FirstRefusal(schema, items + rest, ceiling) == FirstRefusal(schema, items, ceiling)
  {
    if rest == [] {
      assert items + rest == items;
    } else {
      var last := |rest| - 1;
      var longer := items + rest[..last];
      assert longer + [rest[last]] == items + rest;
      RefusedForGood(schema, items, rest[..last], ceiling);
      TakenSnoc(schema, longer, rest[last], ceiling);
    }
  }

  /** Where the walk stands behind the objects it has read. */
  ghost predicate Walked(schema: Schema, objects: seq<Object>,
                         columns: seq<Text>, rows: seq<seq<Cell>>, held: nat, ceiling: nat) {
    && AllValid(objects)
    && columns == Columns(schema, objects)
    && Reading(objects, columns, rows, held)
    && held <= ceiling
    && (schema.Auto? ==> |columns| <= MAX_FIELDS)
  }

  lemma RenderSnoc(objects: seq<Object>, entry: Object, columns: seq<Text>)
    ensures Render(objects + [entry], columns) == Render(objects, columns) + [RowOf(entry, columns)]
  {
  }

  /** Read one element into the rows. */
  method TakeElement(schema: Schema, item: Item, ghost objects: seq<Object>,
                     columns: seq<Text>, rows: seq<seq<Cell>>, held: nat, ceiling: nat)
      returns (r: Outcome<TableError>, columns': seq<Text>, rows': seq<seq<Cell>>, held': nat)
    requires Walked(schema, objects, columns, rows, held, ceiling)
    requires item.element.AnObject? ==> item.element.entry.Valid()
    ensures r == Verdict(schema, objects, item, |rows|, ceiling)
    ensures r.Pass? ==> Walked(schema, objects + [item.element.entry], columns', rows', held', ceiling)
  {
    columns', rows', held' := columns, rows, held;
    var room := if held > ceiling then 0 else ceiling - held;
    if item.taken > room {
      return Fail(OverResidentCeiling(ceiling)), columns', rows', held';
    }
    if item.element.NotAnyObject? {
      return Fail(NotAnObject(|rows|)), columns', rows', held';
    }
    var entry := item.element.entry;
    if schema.Auto? {
      ColumnsAreSorted(objects);
      r, columns', rows', held' := Widen(objects, entry, columns, rows, held);
      if r.Fail? {
        return;
      }
    }
    ColumnsAreUnique(schema, objects + [entry], columns');
    var row := RowOf(entry, columns');
    RenderSnoc(objects, entry, columns');
    RowsCostSnoc(rows', row);
    SatStep(RowsCost(rows'), Footprint(row), RowsCost(rows' + [row]));
    held' := SatAdd(held', Footprint(row));
    if held' > ceiling {
      return Fail(OverResidentCeiling(ceiling)), columns', rows', held';
    }
    rows' := rows' + [row];
    r := Pass;
  }

  /** The first refusal of a document is the verdict on the first element it refuses. */
  lemma TakenNext(schema: Schema, before: seq<Item>, item: Item, rest: seq<Item>, at: nat, ceiling: nat)
    requires FirstRefusal(schema, before, ceiling).Pass? && at == |before|
    ensures var verdict := Verdict(schema, ObjectsOf(before), item, at, ceiling);
            && FirstRefusal(schema, before + [item], ceiling) == verdict
            && (verdict.Fail? ==> FirstRefusal(schema, before + [item] + rest, ceiling) == verdict)
    ensures ObjectsOf(before + [item]) ==
            ObjectsOf(before) + if item.element.AnObject? then [item.element.entry] else []
  {
    TakenSnoc(schema, before, item, ceiling);
    if FirstRefusal(schema, before + [item], ceiling).Fail? {
      RefusedForGood(schema, before + [item], rest, ceiling);
    }
  }

  /** The elements so far were all taken, as these objects. */
  ghost predicate ReadTo(schema: Schema, taken: seq<Item>, objects: seq<Object>,
                         columns: seq<Text>, rows: seq<seq<Cell>>, held: nat, ceiling: nat) {
    && FirstRefusal(schema, taken, ceiling).Pass?
    && objects == ObjectsOf(taken) && |rows| == |objects| == |taken|
    && Walked(schema, objects, columns, rows, held, ceiling)
  }

  /** One more element taken, or refused for the whole document. */
  lemma ReadNext(schema: Schema, taken: seq<Item>, item: Item, left: seq<Item>, all: seq<Item>, ceiling: nat,
                 r: Outcome<TableError>)
    requires all == taken + [item] + left && FirstRefusal(schema, taken, ceiling).Pass?
    requires r == Verdict(schema, ObjectsOf(taken), item, |taken|, ceiling)
    ensures r.Fail? ==> FirstRefusal(schema, all, ceiling) == r
    ensures r.Pass? ==> FirstRefusal(schema, taken + [item], ceiling).Pass?
    ensures r.Pass? ==> ObjectsOf(taken + [item]) == ObjectsOf(taken) + [item.element.entry]
  {
    TakenNext(schema, taken, item, left, |taken|, ceiling);
  }

  /** A document around its element of a number. */
  lemma Around(items: seq<Item>, taken: seq<Item>, left: seq<Item>, n: nat)
    requires items == taken + left && n == |taken| < |items|
    ensures left != [] && left[0] == items[n] && items == taken + [items[n]] + left[1..]
  {
  }

  /** Walk the elements of the array. */
  method ReadElements(schema: Schema, items: seq<Item>, ceiling: nat)
      returns (r: Outcome<TableError>, columns: seq<Text>, rows: seq<seq<Cell>>, held: nat)
    requires ValidItems(items)
    ensures r == FirstRefusal(schema, items, ceiling)
    ensures r.Pass? ==> |rows| == |items| && Walked(schema, ObjectsOf(items), columns, rows, held, ceiling)
  {
    columns := if schema.Named? then schema.names else [];
    rows := [];
    held := 0;
    ghost var objects: seq<Object>, taken: seq<Item>, left := [], [], items;
    for n := 0 to |items|
      invariant items == taken + left && |taken| == n
      invariant ReadTo(schema, taken, objects, columns, rows, held, ceiling)
    {
      Around(items, taken, left, n);
      r, columns, rows, held := TakeElement(schema, items[n], objects, columns, rows, held, ceiling);
      ReadNext(schema, taken, items[n], left[1..], items, ceiling, r);
      if r.Fail? {
        return;
      }
      objects, taken, left := objects + [items[n].element.entry], taken + [items[n]], left[1..];
    }
    assert left == [] && taken == items;
    r := Pass;
  }

  // ----- What the rows hold ---------------------------------------------------------------------

  /**
   * A row says of an object, column by column, what the object says: nothing where
   * the key is absent, null or the empty string; otherwise the string's own text, or
   * the value's own JSON text.
   */
  ghost predicate SaysOf(entry: Object, columns: seq<Text>, row: seq<Cell>) {
    && |row| == |columns|
    && forall c :: 0 <= c < |columns| ==>
         var key := columns[c];
         && (row[c].None? <==> key !in entry.values || entry.values[key] == Null || entry.values[key] == Str([]))
         && (row[c].Some? && key in entry.values ==>
               entry.values[key] == Str(row[c].value) || entry.values[key] == Other(row[c].value))
  }

  /** The columns are the ones stated, or else the keys of the objects, each once, in byte order. */
  ghost predicate ColumnsAre(schema: Schema, items: seq<Item>, columns: seq<Text>) {
    match schema
    case Named(names) => columns == names
    case Auto =>
      && Sorted(columns)
      && forall key :: key in columns <==> exists i :: 0 <= i < |items| && HasKey(items[i], key)
  }

  ghost predicate HasKey(item: Item, key: Text) {
    item.element.AnObject? && key in item.element.entry.values
  }

  /** One row an element, each an object, and each row saying of it what it says. */
  ghost predicate RowsSay(items: seq<Item>, columns: seq<Text>, rows: seq<seq<Cell>>) {
    && |rows| == |items|
    && forall i :: 0 <= i < |items| ==>
         items[i].element.AnObject? && SaysOf(items[i].element.entry, columns, rows[i])
  }

  lemma RowSays(entry: Object, columns: seq<Text>)
    ensures SaysOf(entry, columns, RowOf(entry, columns))
  {
  }

  /** A document's last element, and those before it. */
  lemma LastOf(items: seq<Item>) returns (rest: seq<Item>, item: Item)
    requires items != []
    ensures items == rest + [item]
  {
    rest, item := items[..|items| - 1], items[|items| - 1];
  }

  lemma {:induction false} ObjectsAreItems(schema: Schema, items: seq<Item>, ceiling: nat)
    requires FirstRefusal(schema, items, ceiling).Pass?
    ensures |ObjectsOf(items)| == |items|
    ensures forall i :: 0 <= i < |items| ==>
              items[i].element.AnObject? && ObjectsOf(items)[i] == items[i].element.entry
    decreases |items|
  {
    if items != [] {
      var rest, item := LastOf(items);
      TakenSnoc(schema, rest, item, ceiling);
      ObjectsAreItems(schema, rest, ceiling);
    }
  }

  lemma {:induction false} KeyOfSome(objects: seq<Object>, key: Text)
    ensures key in KeysOf(objects) <==> exists i :: 0 <= i < |objects| && key in objects[i].values
  {
    if objects != [] {
      var rest := objects[..|objects| - 1];
      KeyOfSome(rest, key);
      assert forall i :: 0 <= i < |rest| ==> rest[i] == objects[i];
    }
  }

  /** So of the two-pass reading of a document that is not refused. */
  lemma ReferenceSays(schema: Schema, items: seq<Item>, ceiling: nat, objects: seq<Object>)
    requires ValidItems(items) && FirstRefusal(schema, items, ceiling).Pass? && objects == ObjectsOf(items)
    ensures ColumnsAre(schema, items, Columns(schema, objects))
    ensures RowsSay(items, Columns(schema, objects), Render(objects, Columns(schema, objects)))
  {
    var columns := Columns(schema, objects);
    ObjectsAreItems(schema, items, ceiling);
    ObjectsAreValid(items);
    forall i | 0 <= i < |items|
      ensures SaysOf(objects[i], columns, Render(objects, columns)[i])
    {
      RowSays(objects[i], columns);
    }
    if schema.Auto? {
      ColumnsAreSorted(objects);
      forall key
        ensures key in columns <==> exists i :: 0 <= i < |items| && HasKey(items[i], key)
      {
        KeyOfSome(objects, key);
        assert forall i :: 0 <= i < |items| ==> (HasKey(items[i], key) <==> key in objects[i].values);
      }
    }
  }

  /** Some name is to be had: stated, or a key of some object. */
  ghost predicate HasNames(schema: Schema, items: seq<Item>) {
    match schema
    case Named(names) => names != []
    case Auto => exists i, key :: 0 <= i < |items| && HasKey(items[i], key)
  }

  /**
   * How a document goes on behind elements that were all taken decides the rest: a
   * broken one is refused for memory when what broke did not fit beside the rows,
   * and otherwise as no array; no rows, and no names, are told before what trails.
   */
  lemma EndingDecides(schema: Schema, source: Source, ceiling: nat)
    requires ceiling < U64_MAX && ValidItems(source.items) && FirstRefusal(schema, source.items, ceiling).Pass?
    ensures var r := Reference(schema, source, ceiling);
            match source.ending
            case Broken(taken) =>
              r == Err(if taken + Cost(schema, ObjectsOf(source.items)) > ceiling
                       then OverResidentCeiling(ceiling) else NotAnArray)
            case Trailing =>
              r == Err(if source.items == [] then Empty
                       else if HasNames(schema, source.items) then NotAnArray else NoNames)
            case Closed =>
              && (r.Ok? <==> source.items != [] && HasNames(schema, source.items))
              && (r.Err? ==> r.error == if source.items == [] then Empty else NoNames)
  {
    var objects := ObjectsOf(source.items);
    assert HasNames(schema, source.items) <==> Columns(schema, objects) != [] by {
      ReferenceSays(schema, source.items, ceiling, objects);
      NamesAreColumns(schema, source.items, Columns(schema, objects));
    }
    if source.ending.Broken? {
      SatPast(source.ending.taken, Cost(schema, objects), ceiling);
    }
  }

  lemma NamesAreColumns(schema: Schema, items: seq<Item>, columns: seq<Text>)
    requires ColumnsAre(schema, items, columns)
    ensures HasNames(schema, items) <==> columns != []
  {
    if columns != [] {
      assert columns[0] in columns;
    }
    if schema.Auto? {
      if i, key :| 0 <= i < |items| && HasKey(items[i], key) {
        assert key in columns;
      }
    }
  }

  lemma SatPast(more: nat, amount: nat, ceiling: nat)
    requires ceiling < U64_MAX
    ensures more + Sat(amount) > ceiling <==> more + amount > ceiling
  {
  }

  /**
   * The streaming reader: the same answer as the two-pass one, and where there is a
   * table, its columns are the keys and its rows say what the objects say.
   */
  method ReadJson(schema: Schema, source: Source, ceiling: nat) returns (r: Result<Parsed, TableError>)
    requires ValidItems(source.items)
    ensures r == Reference(schema, source, ceiling)
    ensures r.Ok? ==> ColumnsAre(schema, source.items, r.value.columns)
    ensures r.Ok? ==> RowsSay(source.items, r.value.columns, r.value.rows)
  {
    var walked, columns, rows, held := ReadElements(schema, source.items, ceiling);
    if walked.Fail? {
      return Err(walked.error);
    }
    match source.ending {
      case Broken(taken) =>
        var room := ceiling - held;
        return Err(if taken > room then OverResidentCeiling(ceiling) else NotAnArray);
      case _ =>
        if |rows| == 0 {
          return Err(Empty);
        }
        if columns == [] {
          return Err(NoNames);
        }
        if source.ending.Trailing? {
          return Err(NotAnArray);
        }
        ReferenceSays(schema, source.items, ceiling, ObjectsOf(source.items));
        return Ok(Parsed(columns, rows, held));
    }
  }

  // ----- The ceiling is hit where the whole table would pass it ------------------------------

  /** Taking more keys into the names never makes the rows cheaper. */
  lemma {:induction false} CollectedCost(objects: seq<Object>, columns: seq<Text>, keys: seq<Text>)
    requires ColumnsOf(Auto, objects, columns)
    ensures RowsCost(Render(objects, columns)) <= RowsCost(Render(objects, Collected(columns, keys)))
  {
    if keys != [] {
      var n := |keys| - 1;
      var so := Collected(columns, keys[..n]);
      CollectedCost(objects, columns, keys[..n]);
      CollectedWidens(objects, columns, keys[..n]);
      if keys[n] !in so {
        var at := PlaceIn(so, keys[n]);
        RenderWidened(objects, so, at, keys[n]);
        WidenedCost(Render(objects, so), Render(objects, Insert(so, at, keys[n])), at);
      }
    }
  }

  /** One more object makes the two-pass table dearer. */
  lemma CostGrows(schema: Schema, objects: seq<Object>, entry: Object)
    requires AllValid(objects)
    ensures Cost(schema, objects) <= Cost(schema, objects + [entry])
  {
    var columns := Columns(schema, objects + [entry]);
    assert (objects + [entry])[..|objects|] == objects;
    RenderSnoc(objects, entry, columns);
    RowsCostSnoc(Render(objects, columns), RowOf(entry, columns));
    if schema.Auto? {
      ColumnsAreSorted(objects);
      CollectedCost(objects, Columns(schema, objects), entry.keys);
    }
  }

  lemma {:induction false} KeysGrow(objects: seq<Object>, entry: Object)
    ensures KeysOf(objects) <= KeysOf(objects + [entry])
  {
    assert (objects + [entry])[..|objects|] == objects;
  }

  /** An element's text fits where its rows would. */
  ghost predicate TextFits(schema: Schema, items: seq<Item>, ceiling: nat) {
    forall n :: 0 <= n < |items| ==>
      var before := Cost(schema, ObjectsOf(items[..n]));
      before <= ceiling ==> items[n].taken + before <= ceiling
  }

  lemma VerdictByCost(schema: Schema, before: seq<Object>, item: Item, at: nat, ceiling: nat)
    requires ceiling < U64_MAX && item.element.AnObject?
    requires schema.Auto? ==> |KeysOf(before + [item.element.entry])| <= MAX_FIELDS
    requires item.taken + Cost(schema, before) <= ceiling
    ensures Verdict(schema, before, item, at, ceiling) ==
            if Cost(schema, before + [item.element.entry]) > ceiling
            then Fail(OverResidentCeiling(ceiling)) else Pass
  {
  }

  lemma TextFitsPrefix(schema: Schema, items: seq<Item>, item: Item, ceiling: nat)
    requires TextFits(schema, items + [item], ceiling)
    ensures TextFits(schema, items, ceiling)
    ensures var cost := Cost(schema, ObjectsOf(items)); cost <= ceiling ==> item.taken + cost <= ceiling
  {
    var all := items + [item];
    assert all[..|items|] == items && all[|items|] == item;
    forall n | 0 <= n < |items|
      ensures var before := Cost(schema, ObjectsOf(items[..n]));
              before <= ceiling ==> items[n].taken + before <= ceiling
    {
      assert all[..n] == items[..n] && all[n] == items[n];
    }
  }

  /** A document of objects alone, of no more keys than allowed. */
  ghost predicate ObjectsAlone(schema: Schema, items: seq<Item>) {
    && ValidItems(items)
    && (forall i :: 0 <= i < |items| ==> items[i].element.AnObject?)
    && (schema.Auto? ==> |KeysOf(ObjectsOf(items))| <= MAX_FIELDS)
  }

  /** Refused for its cost, and for nothing else. */
  ghost predicate RefusedByCost(schema: Schema, items: seq<Item>, ceiling: nat) {
    FirstRefusal(schema, items, ceiling) ==
    if Cost(schema, ObjectsOf(items)) > ceiling then Fail(OverResidentCeiling(ceiling)) else Pass
  }

  lemma ObjectsBefore(schema: Schema, rest: seq<Item>, item: Item, all: seq<Item>)
    requires all == rest + [item] && ObjectsAlone(schema, all)
    ensures ObjectsAlone(schema, rest) && item.element.AnObject? && item.element.entry.Valid()
  {
    assert all[|rest|] == item && forall i :: 0 <= i < |rest| ==> all[i] == rest[i];
    FewerKeys(schema, rest, item, all);
  }

  lemma NoneIsRefused(schema: Schema, ceiling: nat)
    ensures RefusedByCost(schema, [], ceiling)
  {
    assert Render([], Columns(schema, [])) == [];
  }

  /** A document of objects whose texts fit. */
  ghost predicate Fitting(schema: Schema, items: seq<Item>, ceiling: nat) {
    ceiling < U64_MAX && ObjectsAlone(schema, items) && TextFits(schema, items, ceiling)
  }

  lemma FittingStep(schema: Schema, rest: seq<Item>, item: Item, all: seq<Item>, ceiling: nat)
    requires all == rest + [item] && Fitting(schema, all, ceiling)
    ensures Fitting(schema, rest, ceiling)
    ensures RefusedByCost(schema, rest, ceiling) ==> RefusedByCost(schema, all, ceiling)
  {
    ObjectsBefore(schema, rest, item, all);
    OneMoreObject(schema, rest, item, all, ceiling);
  }

  /** Of a document of objects whose texts fit, exactly those are refused whose table would pass the ceiling. */
  lemma {:induction false} FittingIsRefusedByCost(schema: Schema, items: seq<Item>, ceiling: nat)
    requires Fitting(schema, items, ceiling)
    ensures RefusedByCost(schema, items, ceiling)
    decreases |items|
  {
    if items == [] {
      NoneIsRefused(schema, ceiling);
    } else {
      var rest, item := LastOf(items);
      FittingStep(schema, rest, item, items, ceiling);
      FittingIsRefusedByCost(schema, rest, ceiling);
    }
  }

  lemma FewerKeys(schema: Schema, rest: seq<Item>, item: Item, all: seq<Item>)
    requires all == rest + [item] && item.element.AnObject?
    ensures |KeysOf(ObjectsOf(rest))| <= |KeysOf(ObjectsOf(all))|
  {
    TakenSnoc(schema, rest, item, 0);
    KeysGrow(ObjectsOf(rest), item.element.entry);
    SubsetCount(KeysOf(ObjectsOf(rest)), KeysOf(ObjectsOf(rest) + [item.element.entry]));
  }

  /** A document may have 4096 keys in all: an element that fits is refused for them exactly when it brings more. */
  lemma KeyLimit(before: seq<Item>, item: Item, ceiling: nat)
    requires FirstRefusal(Auto, before, ceiling).Pass? && item.element.AnObject?
    requires item.taken + Sat(Cost(Auto, ObjectsOf(before))) <= ceiling
    ensures FirstRefusal(Auto, before + [item], ceiling) == Fail(TooManyKeys) <==>
            |KeysOf(ObjectsOf(before) + [item.element.entry])| > 4096
  {
    TakenSnoc(Auto, before, item, ceiling);
    KeyVerdict(ObjectsOf(before), item, |before|, ceiling);
  }

  lemma KeyVerdict(before: seq<Object>, item: Item, at: nat, ceiling: nat)
    requires item.element.AnObject? && item.taken + Sat(Cost(Auto, before)) <= ceiling
    ensures Verdict(Auto, before, item, at, ceiling) == Fail(TooManyKeys) <==>
            |KeysOf(before + [item.element.entry])| > 4096
  {
  }

  lemma UnfitVerdict(schema: Schema, before: seq<Object>, item: Item, at: nat, ceiling: nat)
    requires ceiling < U64_MAX && Cost(schema, before) <= ceiling < item.taken + Cost(schema, before)
    ensures Verdict(schema, before, item, at, ceiling) == Fail(OverResidentCeiling(ceiling))
  {
  }

  /** Where the last text is the first that does not fit, it is refused. */
  lemma UnfitLast(schema: Schema, rest: seq<Item>, item: Item, all: seq<Item>, ceiling: nat)
    requires all == rest + [item] && ceiling < U64_MAX
    requires TextFits(schema, rest, ceiling) && !TextFits(schema, all, ceiling)
    requires FirstRefusal(schema, rest, ceiling).Pass?
    ensures FirstRefusal(schema, all, ceiling) == Fail(OverResidentCeiling(ceiling))
  {
    TakenSnoc(schema, rest, item, ceiling);
    LastIsUnfit(schema, rest, item, all, ceiling);
    UnfitVerdict(schema, ObjectsOf(rest), item, |rest|, ceiling);
  }

  /** A text that does not fit beside the rows before it stops the document there, if nothing has before. */
  lemma {:induction false} UnfitIsRefused(schema: Schema, items: seq<Item>, ceiling: nat)
    requires ceiling < U64_MAX && ObjectsAlone(schema, items) && !TextFits(schema, items, ceiling)
    ensures FirstRefusal(schema, items, ceiling) == Fail(OverResidentCeiling(ceiling))
    decreases |items|
  {
    var rest, item := LastOf(items);
    ObjectsBefore(schema, rest, item, items);
    if TextFits(schema, rest, ceiling) {
      FittingIsRefusedByCost(schema, rest, ceiling);
      LastIsUnfit(schema, rest, item, items, ceiling);
      UnfitLast(schema, rest, item, items, ceiling);
    } else {
      UnfitIsRefused(schema, rest, ceiling);
      TakenSnoc(schema, rest, item, ceiling);
    }
  }

  lemma TextFitsSnoc(schema: Schema, rest: seq<Item>, item: Item, all: seq<Item>, ceiling: nat)
    requires all == rest + [item] && TextFits(schema, rest, ceiling)
    requires var before := Cost(schema, ObjectsOf(rest)); before <= ceiling ==> item.taken + before <= ceiling
    ensures TextFits(schema, all, ceiling)
  {
    forall n | 0 <= n < |all|
      ensures var before := Cost(schema, ObjectsOf(all[..n])); before <= ceiling ==> all[n].taken + before <= ceiling
    {
      if n < |rest| {
        assert all[..n] == rest[..n] && all[n] == rest[n];
      } else {
        assert all[..n] == rest;
      }
    }
  }

  lemma LastIsUnfit(schema: Schema, rest: seq<Item>, item: Item, all: seq<Item>, ceiling: nat)
    requires all == rest + [item] && TextFits(schema, rest, ceiling) && !TextFits(schema, all, ceiling)
    ensures var before := Cost(schema, ObjectsOf(rest)); before <= ceiling < item.taken + before
  {
    var before := Cost(schema, ObjectsOf(rest));
    if before <= ceiling ==> item.taken + before <= ceiling {
      TextFitsSnoc(schema, rest, item, all, ceiling);
    }
  }

  /**
   * The streaming reader refuses a document of objects for memory exactly when
   * its two-pass table would pass the ceiling, or the text of some element does
   * not fit beside the rows of those before it.
   */
  lemma RefusedExactlyWhenTooLarge(schema: Schema, items: seq<Item>, ceiling: nat)
    requires ceiling < U64_MAX && ObjectsAlone(schema, items)
    ensures FirstRefusal(schema, items, ceiling) ==
            if Cost(schema, ObjectsOf(items)) > ceiling || !TextFits(schema, items, ceiling)
            then Fail(OverResidentCeiling(ceiling)) else Pass
  {
    if TextFits(schema, items, ceiling) {
      FittingIsRefusedByCost(schema, items, ceiling);
    } else {
      UnfitIsRefused(schema, items, ceiling);
    }
  }

  lemma OneMoreObject(schema: Schema, rest: seq<Item>, item: Item, all: seq<Item>, ceiling: nat)
    requires all == rest + [item]
    requires ceiling < U64_MAX && ValidItems(rest) && item.element.AnObject?
    requires TextFits(schema, all, ceiling)
    requires schema.Auto? ==> |KeysOf(ObjectsOf(all))| <= MAX_FIELDS
    ensures TextFits(schema, rest, ceiling)
    ensures schema.Auto? ==> |KeysOf(ObjectsOf(rest))| <= MAX_FIELDS
    ensures Cost(schema, ObjectsOf(rest)) <= Cost(schema, ObjectsOf(all))
    ensures var before := FirstRefusal(schema, rest, ceiling);
            FirstRefusal(schema, all, ceiling) ==
            if before.Fail? then before
            else if Cost(schema, ObjectsOf(rest)) > ceiling
              then Verdict(schema, ObjectsOf(rest), item, |rest|, ceiling)
            else if Cost(schema, ObjectsOf(all)) > ceiling
              then Fail(OverResidentCeiling(ceiling))
            else Pass
  {
    var objects, entry := ObjectsOf(rest), item.element.entry;
    TakenSnoc(schema, rest, item, ceiling);
    TextFitsPrefix(schema, rest, item, ceiling);
    ObjectsAreValid(rest);
    CostGrows(schema, objects, entry);
    KeysGrow(objects, entry);
    SubsetCount(KeysOf(objects), KeysOf(objects + [entry]));
    if Cost(schema, objects) <= ceiling {
      VerdictByCost(schema, objects, item, |rest|, ceiling);
    }
  }

  lemma SubsetCount(a: set<Text>, b: set<Text>)
    requires a <= b
    ensures |a| <= |b|
  {
    assert |b| == |a| + |b - a| by {
      assert b == a + (b - a);
    }
  }

  // ----- The ceiling decides admission, and nothing else ---------------------------------------

  /** An element a ceiling admits, every larger one does. */
  lemma {:induction false} AdmittedByMore(schema: Schema, items: seq<Item>, c: nat, d: nat)
    requires c <= d && FirstRefusal(schema, items, c).Pass?
    ensures FirstRefusal(schema, items, d).Pass?
  {
    if items != [] {
      AdmittedByMore(schema, items[..|items| - 1], c, d);
    }
  }

  /** A document that reads under one ceiling reads the same under every larger one. */
  lemma MoreRoomSameTable(schema: Schema, source: Source, c: nat, d: nat)
    requires c <= d && Reference(schema, source, c).Ok?
    ensures Reference(schema, source, d) == Reference(schema, source, c)
  {
    AdmittedByMore(schema, source.items, c, d);
  }

  /** The first elements behind an admitted one were admitted, and so was it. */
  lemma LastAdmitted(schema: Schema, rest: seq<Item>, item: Item, all: seq<Item>, ceiling: nat)
    requires all == rest + [item] && FirstRefusal(schema, all, ceiling).Pass?
    ensures FirstRefusal(schema, rest, ceiling).Pass? && item.element.AnObject?
    ensures schema.Auto? ==> |KeysOf(ObjectsOf(all))| <= MAX_FIELDS
    ensures Sat(Cost(schema, ObjectsOf(all))) <= ceiling
  {
    TakenSnoc(schema, rest, item, ceiling);
  }

  lemma LastIsObject(schema: Schema, rest: seq<Item>, item: Item, all: seq<Item>, ceiling: nat)
    requires all == rest + [item] && FirstRefusal(schema, all, ceiling).Pass?
    ensures FirstRefusal(schema, rest, ceiling).Pass? && item.element.AnObject?
  {
    LastAdmitted(schema, rest, item, all, ceiling);
  }

  /** What is admitted is objects alone. */
  lemma PartIsObject(schema: Schema, before: seq<Item>, item: Item, with: seq<Item>, rest: seq<Item>, all: seq<Item>,
                     ceiling: nat)
    requires with == before + [item] && all == with + rest
    ensures FirstRefusal(schema, all, ceiling).Pass? ==> item.element.AnObject?
  {
    if FirstRefusal(schema, with, ceiling).Fail? {
      RefusedForGood(schema, with, rest, ceiling);
    } else {
      LastIsObject(schema, before, item, with, ceiling);
    }
  }

  /** What is admitted has keys within the limit, and rows within the ceiling. */
  lemma AdmittedIsWithin(schema: Schema, items: seq<Item>, ceiling: nat)
    requires FirstRefusal(schema, items, ceiling).Pass? && items != []
    ensures schema.Auto? ==> |KeysOf(ObjectsOf(items))| <= MAX_FIELDS
    ensures Sat(Cost(schema, ObjectsOf(items))) <= ceiling
  {
    var rest, item := items[..|items| - 1], items[|items| - 1];
    assert rest + [item] == items;
    LastAdmitted(schema, rest, item, items, ceiling);
  }
}
