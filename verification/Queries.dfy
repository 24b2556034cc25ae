/** Queries answered through the index, against a scan of every row. */
module Queries {
  import opened Basics
  import opened Rows
  import opened Tables

  datatype Condition =
    | Equals(column: Text, value: Text)
    | BetweenDates(column: Text, first: int, last: int)
    | FromDate(column: Text, first: int)
    | ToDate(column: Text, last: int)

  datatype Query = Query(conditions: seq<Condition>, caseSensitive: bool, wildcard: Option<Text>)

  function Equal(lib: Library, held: Text, value: Text, caseSensitive: bool): bool {
    if caseSensitive then held == value else lib.folds(held, value)
  }

  /** Whether a cell's text is what a condition asks for. */
  predicate Meets(lib: Library, text: Text, condition: Condition, query: Query) {
    match condition
    case Equals(_, value) =>
      || Equal(lib, text, value, query.caseSensitive)
      || (query.wildcard.Some? && Equal(lib, text, query.wildcard.value, query.caseSensitive))
    case BetweenDates(_, first, last) =>
      var date := lib.asDate(text);
      date.Some? && first <= date.value <= last
    case FromDate(_, first) =>
      var date := lib.asDate(text);
      date.Some? && first <= date.value
    case ToDate(_, last) =>
      var date := lib.asDate(text);
      date.Some? && date.value <= last
  }

  // ----- What a query means ---------------------------------------------------------

  /** A row answers a query when the table has every column asked about and every rule holds. */
  ghost predicate Answers(lib: Library, table: Table, query: Query, at: nat)
    requires at < |table.rows|
  {
    forall condition <- query.conditions ::
      var column := PositionOf(table.columns, condition.column);
      && column.Some?
      && var cell := CellAt(table.rows[at], column.value);
         cell.Some? && Meets(lib, cell.value, condition, query)
  }

  /** The answer of a full scan up to a row: every row that answers, in file order. */
  ghost function Scan(lib: Library, table: Table, query: Query, end: nat): seq<nat>
    requires end <= |table.rows|
  {
    if end == 0 then []
    else Scan(lib, table, query, end - 1) + if Answers(lib, table, query, end - 1) then [end - 1] else []
  }

  lemma {:induction false} ScanExact(lib: Library, table: Table, query: Query, end: nat)
    requires end <= |table.rows|
    ensures Ascending(Scan(lib, table, query, end))
    ensures forall at :: at in Scan(lib, table, query, end) <==> 0 <= at < end && Answers(lib, table, query, at)
  {
    if end > 0 {
      var before := Scan(lib, table, query, end - 1);
      ScanExact(lib, table, query, end - 1);
      forall i | 0 <= i < |before|
        ensures before[i] < end - 1
      {
        assert before[i] in before;
      }
    }
  }

  /** Every condition has to hold: asking for more answers with what both answer. */
  lemma ConditionsIntersect(lib: Library, table: Table, query: Query, more: seq<Condition>, at: nat)
    requires at < |table.rows|
    ensures Answers(lib, table, query.(conditions := query.conditions + more), at) <==>
            && Answers(lib, table, query, at)
            && Answers(lib, table, query.(conditions := more), at)
  {
    var both := query.(conditions := query.conditions + more);
    if Answers(lib, table, both, at) {
      assert forall c <- query.conditions :: c in both.conditions;
      assert forall c <- more :: c in both.conditions;
    }
    forall c <- both.conditions
      ensures c in query.conditions || c in more
    {
    }
    assert forall c <- both.conditions, text: Text ::
      Meets(lib, text, c, both) == Meets(lib, text, c, query) == Meets(lib, text, c, query.(conditions := more));
  }

  // ----- Ascending lists ------------------------------------------------------------

  /** A set of positions has one ascending enumeration. */
  lemma {:induction false} AscendingUnique(a: seq<nat>, b: seq<nat>)
    requires Ascending(a) && Ascending(b) && forall at :: at in a <==> at in b
    ensures a == b
  {
    if b != [] {
      assert b[0] in a;
    }
    if a != [] {
      assert a[0] in b;
      forall at
        ensures at in a[1..] <==> at in b[1..]
      {
        AscendingTail(a, at);
        AscendingTail(b, at);
      }
      AscendingUnique(a[1..], b[1..]);
      assert a == [a[0]] + a[1..] && b == [b[0]] + b[1..];
    }
  }

  lemma AscendingTail(list: seq<nat>, at: nat)
    requires Ascending(list) && list != []
    ensures at in list[1..] <==> at in list && at != list[0]
    ensures at in list ==> list[0] <= at
    ensures Ascending(list[1..])
  {
    if at in list && at != list[0] {
      var i :| 0 <= i < |list| && list[i] == at;
      assert list[1..][i - 1] == at;
    }
  }

  // ----- The walk ------------------------------------------------------------------------

  /** Candidate positions: a range, or ascending lists that may overlap. */
  datatype Walk =
    | All(from: nat, end: nat)
    | Listed(lists: seq<seq<nat>>)

  ghost predicate ValidWalk(walk: Walk) {
    match walk
    case All(from, end) => from <= end
    case Listed(lists) => forall list <- lists :: Ascending(list)
  }

  /** A position still to walk. */
  ghost predicate Left(walk: Walk, at: nat) {
    match walk
    case All(from, end) => from <= at < end
    case Listed(lists) => exists list <- lists :: at in list
  }

  /** A bound on the candidates left, and the measure of the walk. */
  function Remaining(walk: Walk): nat {
    match walk
    case All(from, end) => if from <= end then end - from else 0
    case Listed(lists) => TotalLength(lists)
  }

  function TotalLength(lists: seq<seq<nat>>): nat {
    if lists == [] then 0 else TotalLength(lists[..|lists| - 1]) + |lists[|lists| - 1]|
  }

  /** The lowest head of some lists. */
  function Lowest(lists: seq<seq<nat>>): (r: Option<nat>)
    ensures r.None? <==> forall i :: 0 <= i < |lists| ==> lists[i] == []
    ensures r.Some? ==> exists i :: 0 <= i < |lists| && lists[i] != [] && lists[i][0] == r.value
    ensures r.Some? ==> forall i :: 0 <= i < |lists| && lists[i] != [] ==> r.value <= lists[i][0]
  {
    if lists == [] then None
    else
      var n := |lists| - 1;
      var before := Lowest(lists[..n]);
      if lists[n] == [] || (before.Some? && before.value <= lists[n][0]) then before else Some(lists[n][0])
  }

  function Advance(list: seq<nat>, lowest: nat): seq<nat> {
    if list != [] && list[0] == lowest then list[1..] else list
  }

  function AdvanceAll(lists: seq<seq<nat>>, lowest: nat): seq<seq<nat>> {
    seq(|lists|, i requires 0 <= i < |lists| => Advance(lists[i], lowest))
  }

  /** The walk behind its next position. */
  function Popped(walk: Walk): Option<(nat, Walk)> {
    match walk
    case All(from, end) => if from < end then Some((from, All(from + 1, end))) else None
    case Listed(lists) =>
      var lowest := Lowest(lists);
      if lowest.None? then None else Some((lowest.value, Listed(AdvanceAll(lists, lowest.value))))
  }

  lemma {:induction false} AdvanceShortens(lists: seq<seq<nat>>, lowest: nat)
    requires exists list <- lists :: list != [] && list[0] == lowest
    ensures TotalLength(AdvanceAll(lists, lowest)) < TotalLength(lists)
  {
    var n := |lists| - 1;
    var rest := lists[..n];
    assert lists == rest + [lists[n]];
    assert AdvanceAll(lists, lowest)[..n] == AdvanceAll(rest, lowest);
    if exists list <- rest :: list != [] && list[0] == lowest {
      AdvanceShortens(rest, lowest);
    } else {
      AdvanceNever(rest, lowest);
    }
  }

  lemma AdvanceNever(lists: seq<seq<nat>>, lowest: nat)
    requires !exists list <- lists :: list != [] && list[0] == lowest
    ensures AdvanceAll(lists, lowest) == lists
  {
    forall i | 0 <= i < |lists|
      ensures Advance(lists[i], lowest) == lists[i]
    {
      assert lists[i] in lists;
    }
  }

  /**
   * The next position is the least one left; taking it leaves exactly the others,
   * however many lists it headed.
   */
  lemma PoppedIsLeast(walk: Walk)
    requires ValidWalk(walk)
    ensures var next := Popped(walk);
            if next.None? then forall at :: !Left(walk, at)
            else
              var (lowest, rest) := next.value;
              && Left(walk, lowest)
              && ValidWalk(rest)
              && Remaining(rest) < Remaining(walk)
              && forall at :: Left(rest, at) <==> Left(walk, at) && at != lowest
    ensures Popped(walk).Some? ==> forall at :: Left(walk, at) ==> Popped(walk).value.0 <= at
  {
    if walk.Listed? && Popped(walk).Some? {
      var lists, lowest := walk.lists, Popped(walk).value.0;
      var advanced := AdvanceAll(lists, lowest);
      AdvanceShortens(lists, lowest);
      forall i | 0 <= i < |lists|
        ensures Ascending(advanced[i])
        ensures forall at :: at in advanced[i] <==> at in lists[i] && at != lowest
        ensures forall at :: at in lists[i] ==> lowest <= at
      {
        AdvanceExact(lists[i], lowest);
      }
      forall at
        ensures Left(Listed(advanced), at) <==> Left(walk, at) && at != lowest
      {
        AdvancedLeft(lists, advanced, lowest, at);
      }
    }
  }

  lemma AdvanceExact(list: seq<nat>, lowest: nat)
    requires Ascending(list) && (list != [] ==> lowest <= list[0])
    ensures Ascending(Advance(list, lowest))
    ensures forall at :: at in Advance(list, lowest) <==> at in list && at != lowest
    ensures forall at :: at in list ==> lowest <= at
  {
    if list != [] {
      forall at
        ensures at in list[1..] <==> at in list && at != list[0]
        ensures at in list ==> list[0] <= at
      {
        AscendingTail(list, at);
      }
      AscendingTail(list, 0);
    }
  }

  lemma AdvancedLeft(lists: seq<seq<nat>>, advanced: seq<seq<nat>>, lowest: nat, at: nat)
    requires |advanced| == |lists|
    requires forall i :: 0 <= i < |lists| ==> (at in advanced[i] <==> at in lists[i] && at != lowest)
    ensures Left(Listed(advanced), at) <==> Left(Listed(lists), at) && at != lowest
  {
    if Left(Listed(lists), at) && at != lowest {
      var i :| 0 <= i < |lists| && at in lists[i];
      assert at in advanced[i];
    }
    if Left(Listed(advanced), at) {
      var i :| 0 <= i < |advanced| && at in advanced[i];
      assert at in lists[i];
    }
  }

  /** The positions a walk hands back, one call after another. */
  ghost function Pending(walk: Walk): seq<nat>
    requires ValidWalk(walk)
    decreases Remaining(walk)
  {
    PoppedIsLeast(walk);
    var next := Popped(walk);
    if next.None? then [] else [next.value.0] + Pending(next.value.1)
  }

  /** They are the positions left, each once, in file order, and no more than `Remaining`. */
  lemma {:induction false} PendingExact(walk: Walk)
    requires ValidWalk(walk)
    ensures Ascending(Pending(walk))
    ensures forall at: nat :: at in Pending(walk) <==> Left(walk, at)
    ensures |Pending(walk)| <= Remaining(walk)
    decreases Remaining(walk)
  {
    PoppedIsLeast(walk);
    var next := Popped(walk);
    if next.Some? {
      var (lowest, rest) := next.value;
      PendingExact(rest);
      forall i | 0 <= i < |Pending(rest)|
        ensures lowest < Pending(rest)[i]
      {
        assert Pending(rest)[i] in Pending(rest);
      }
    }
  }

  // ----- Narrowing ---------------------------------------------------------------------------

  /** The value the first equality on the key column asks for. */
  function KeyValue(conditions: seq<Condition>, plan: seq<nat>, keyColumn: nat): Option<Text>
    requires |plan| == |conditions|
  {
    if conditions == [] then None
    else if conditions[0].Equals? && plan[0] == keyColumn then Some(conditions[0].value)
    else KeyValue(conditions[1..], plan[1..], keyColumn)
  }

  /** The lists that between them hold every answer, if the index has such lists. */
  function Narrow(lib: Library, table: Table, query: Query, plan: seq<nat>): Option<seq<seq<nat>>>
    requires |plan| == |query.conditions|
  {
    if !query.caseSensitive then None
    else
      var value := KeyValue(query.conditions, plan, table.keyColumn);
      if value.None? then None
      else
        match table.keys
        case TextKeys(filed) =>
          Some([
            ListUnder(filed, value.value),
            // No second copy of the same list.
            if query.wildcard.Some? && query.wildcard != value then ListUnder(filed, query.wildcard.value) else [],
            []])
        case AddressKeys(filed, unindexed) =>
          var key := lib.asAddress(value.value);
          var wild := if query.wildcard.Some? then lib.asAddress(query.wildcard.value) else None;
          Some([
            if key.Some? then ListUnder(filed, key.value) else [],
            if wild.Some? && wild != key then ListUnder(filed, wild.value) else [],
            unindexed])
        case PrefixKeys(filed, unindexed) =>
          // The ranges compared are the ones written; the trie looks each up by its network.
          var key := lib.asPrefix(value.value);
          var wild := if query.wildcard.Some? then lib.asPrefix(query.wildcard.value) else None;
          Some([
            if key.Some? then ListUnder(filed, lib.network(key.value)) else [],
            if wild.Some? && wild != key then ListUnder(filed, lib.network(wild.value)) else [],
            unindexed])
  }

  /** The column positions of conditions the table has columns for. */
  ghost predicate Resolves(table: Table, conditions: seq<Condition>, plan: seq<nat>) {
    && |plan| == |conditions|
    && forall i :: 0 <= i < |plan| ==> PositionOf(table.columns, conditions[i].column) == Some(plan[i])
  }

  /** An answering row's key cell holds the value asked for, or the wildcard. */
  lemma {:induction false} AnswerHoldsKey(lib: Library, table: Table, query: Query,
                                          conditions: seq<Condition>, plan: seq<nat>, at: nat)
    requires at < |table.rows| && query.caseSensitive
    requires Resolves(table, conditions, plan)
    requires forall c <- conditions :: c in query.conditions
    requires Answers(lib, table, query, at)
    ensures var value := KeyValue(conditions, plan, table.keyColumn);
            value.Some? ==>
              var cell := CellAt(table.rows[at], table.keyColumn);
              && cell.Some?
              && (cell == value || cell == query.wildcard)
  {
    if conditions != [] && !(conditions[0].Equals? && plan[0] == table.keyColumn) {
      AnswerHoldsKey(lib, table, query, conditions[1..], plan[1..], at);
    } else if conditions != [] {
      assert conditions[0] in query.conditions;
    }
  }

  /** Both texts' lists are among the narrowed ones, so a row holding either is. */
  lemma NarrowCovers(lib: Library, table: Table, query: Query, plan: seq<nat>, index: Index, at: nat)
    requires table.keys == KeysOf(lib, index, table.rows, table.keyColumn)
    requires Resolves(table, query.conditions, plan)
    requires Narrow(lib, table, query, plan).Some?
    requires at < |table.rows| && Answers(lib, table, query, at)
    ensures Left(Listed(Narrow(lib, table, query, plan).value), at)
  {
    var lists := Narrow(lib, table, query, plan).value;
    var cell := CellAt(table.rows[at], table.keyColumn);
    AnswerHoldsKey(lib, table, query, query.conditions, plan, at);
    BucketExact(lib, index, table.rows, table.keyColumn, cell.value);
    assert at in Bucket(lib, table.keys, cell.value);
    assert at in lists[0] || at in lists[1] || at in lists[2];
  }

  lemma NarrowAscends(lib: Library, table: Table, query: Query, plan: seq<nat>, index: Index)
    requires table.keys == KeysOf(lib, index, table.rows, table.keyColumn)
    requires Resolves(table, query.conditions, plan)
    requires Narrow(lib, table, query, plan).Some?
    ensures var lists := Narrow(lib, table, query, plan).value;
            && |lists| == 3
            && (forall list <- lists :: Ascending(list))
            && forall at: nat :: Left(Listed(lists), at) ==> at < |table.rows|
  {
    var lists := Narrow(lib, table, query, plan).value;
    match index
    case ByColumn(_) => FiledWithin(Slots(table.rows, table.keyColumn, AsText));
    case ByIp => FiledWithin(Slots(table.rows, table.keyColumn, lib.asAddress));
    case ByPrefix => FiledWithin(Slots(table.rows, table.keyColumn, lib.PrefixKey));
  }

  lemma FiledWithin<K>(slots: seq<Slot<K>>)
    ensures forall key :: Ascending(ListUnder(FiledOf(slots), key))
    ensures forall key, at :: at in ListUnder(FiledOf(slots), key) ==> at < |slots|
    ensures Ascending(PositionsOf(slots, Unparsed))
    ensures forall at :: at in PositionsOf(slots, Unparsed) ==> at < |slots|
  {
    PositionsExact(slots, Unparsed);
    forall key
      ensures Ascending(ListUnder(FiledOf(slots), key))
      ensures forall at :: at in ListUnder(FiledOf(slots), key) ==> at < |slots|
    {
      ListUnderExact(slots, key);
      PositionsExact(slots, Under(key));
    }
  }

  // ----- Finding ---------------------------------------------------------------------------------

  /** The column of each condition; nothing as soon as one is unknown. */
  function Plan(columns: seq<Text>, conditions: seq<Condition>): (plan: Option<seq<nat>>)
    ensures plan.Some? ==> |plan.value| == |conditions|
    ensures plan.Some? ==> forall i :: 0 <= i < |conditions| ==>
              PositionOf(columns, conditions[i].column) == Some(plan.value[i])
    ensures plan.None? ==> exists condition <- conditions :: PositionOf(columns, condition.column).None?
  {
    if conditions == [] then Some([])
    else
      var first := PositionOf(columns, conditions[0].column);
      var rest := Plan(columns, conditions[1..]);
      if first.None? || rest.None? then None else Some([first.value] + rest.value)
  }

  /** Whether a row satisfies every condition, by the resolved column positions. */
  predicate Satisfies(lib: Library, row: seq<Cell>, query: Query, conditions: seq<Condition>, plan: seq<nat>)
    requires |plan| == |conditions|
  {
    conditions == [] ||
    (var cell := CellAt(row, plan[0]);
     && cell.Some?
     && Meets(lib, cell.value, conditions[0], query)
     && Satisfies(lib, row, query, conditions[1..], plan[1..]))
  }

  lemma {:induction false} SatisfiesAll(lib: Library, row: seq<Cell>, query: Query,
                                        conditions: seq<Condition>, plan: seq<nat>)
    requires |plan| == |conditions|
    ensures Satisfies(lib, row, query, conditions, plan) <==>
            forall i :: 0 <= i < |plan| ==>
              CellAt(row, plan[i]).Some? && Meets(lib, CellAt(row, plan[i]).value, conditions[i], query)
  {
    if conditions != [] {
      SatisfiesAll(lib, row, query, conditions[1..], plan[1..]);
      var rest, others := conditions[1..], plan[1..];
      assert forall i :: 0 < i < |plan| ==> plan[i] == others[i - 1] && conditions[i] == rest[i - 1];
    }
  }

  lemma SatisfiesIsAnswers(lib: Library, table: Table, query: Query, plan: seq<nat>, at: nat)
    requires at < |table.rows| && Resolves(table, query.conditions, plan)
    ensures Satisfies(lib, table.rows[at], query, query.conditions, plan) <==> Answers(lib, table, query, at)
  {
    SatisfiesAll(lib, table.rows[at], query, query.conditions, plan);
    if Answers(lib, table, query, at) {
      assert forall i :: 0 <= i < |plan| ==> query.conditions[i] in query.conditions;
    }
  }

  /** The positions of a list whose rows answer. */
  ghost function Matching(lib: Library, table: Table, query: Query, list: seq<nat>): seq<nat> {
    if list == [] then [] else Found(lib, table, query, list[0]) + Matching(lib, table, query, list[1..])
  }

  ghost function Found(lib: Library, table: Table, query: Query, at: nat): seq<nat> {
    if at < |table.rows| && Answers(lib, table, query, at) then [at] else []
  }

  lemma {:induction false} MatchingHolds(lib: Library, table: Table, query: Query, list: seq<nat>, at: nat)
    ensures at in Matching(lib, table, query, list)
            <==> at in list && at < |table.rows| && Answers(lib, table, query, at)
  {
    if list != [] {
      assert list == [list[0]] + list[1..];
      MatchingHolds(lib, table, query, list[1..], at);
    }
  }

  lemma {:induction false} MatchingAscends(lib: Library, table: Table, query: Query, list: seq<nat>)
    requires Ascending(list)
    ensures Ascending(Matching(lib, table, query, list)) && |Matching(lib, table, query, list)| <= |list|
  {
    if list != [] {
      var rest := Matching(lib, table, query, list[1..]);
      MatchingAscends(lib, table, query, list[1..]);
      forall i | 0 <= i < |rest|
        ensures list[0] < rest[i]
      {
        MatchingHolds(lib, table, query, list[1..], rest[i]);
        assert rest[i] in rest;
      }
    }
  }

  lemma MatchingExact(lib: Library, table: Table, query: Query, list: seq<nat>)
    requires Ascending(list)
    ensures var matching := Matching(lib, table, query, list);
            && Ascending(matching)
            && |matching| <= |list|
            && forall at :: at in matching <==> at in list && at < |table.rows| && Answers(lib, table, query, at)
  {
    MatchingAscends(lib, table, query, list);
    forall at: nat
      ensures at in Matching(lib, table, query, list)
              <==> at in list && at < |table.rows| && Answers(lib, table, query, at)
    {
      MatchingHolds(lib, table, query, list, at);
    }
  }

  /** The rows a walk over answering candidates comes to are those of a full scan. */
  lemma WalkIsScan(lib: Library, table: Table, query: Query, walk: Walk)
    requires ValidWalk(walk)
    requires forall at: nat :: at < |table.rows| && Answers(lib, table, query, at) ==> Left(walk, at)
    ensures Matching(lib, table, query, Pending(walk)) == Scan(lib, table, query, |table.rows|)
  {
    PendingExact(walk);
    MatchingExact(lib, table, query, Pending(walk));
    ScanExact(lib, table, query, |table.rows|);
    AscendingUnique(Matching(lib, table, query, Pending(walk)), Scan(lib, table, query, |table.rows|));
  }

  /** The plan a query is carried with: empty when a column is unknown. */
  function PlanOf(table: Table, query: Query): seq<nat> {
    var plan := Plan(table.columns, query.conditions);
    if plan.Some? then plan.value else []
  }

  /** The walk a query starts with. */
  function Start(lib: Library, table: Table, query: Query): Walk {
    var plan := Plan(table.columns, query.conditions);
    if plan.None? then Listed([[], [], []])
    else
      var lists := Narrow(lib, table, query, plan.value);
      if lists.Some? then Listed(lists.value) else All(0, |table.rows|)
  }

  /** A walk to test rows by: only rows of the table, and only with every column known. */
  ghost predicate Walks(table: Table, query: Query, plan: seq<nat>, walk: Walk) {
    && ValidWalk(walk)
    && forall at: nat :: Left(walk, at) ==> at < |table.rows| && Resolves(table, query.conditions, plan)
  }

  /** Popping keeps a walk one to test rows by, and hands back its rows one by one. */
  lemma PoppedKeeps(lib: Library, table: Table, query: Query, plan: seq<nat>, walk: Walk)
    requires Walks(table, query, plan, walk)
    ensures var next := Popped(walk);
            var answer := Matching(lib, table, query, Pending(walk));
            if next.None? then answer == []
            else
              var (lowest, rest) := next.value;
              && lowest < |table.rows|
              && Resolves(table, query.conditions, plan)
              && Walks(table, query, plan, rest)
              && Remaining(rest) < Remaining(walk)
              && answer == Found(lib, table, query, lowest) + Matching(lib, table, query, Pending(rest))
  {
    PoppedIsLeast(walk);
    var next := Popped(walk);
    if next.Some? {
      assert Pending(walk)[1..] == Pending(next.value.1);
    }
  }

  lemma StartCovers(lib: Library, table: Table, query: Query, index: Index)
    requires table.keys == KeysOf(lib, index, table.rows, table.keyColumn)
    ensures Walks(table, query, PlanOf(table, query), Start(lib, table, query))
    ensures forall at: nat :: at < |table.rows| && Answers(lib, table, query, at) ==> Left(Start(lib, table, query), at)
  {
    var plan := Plan(table.columns, query.conditions);
    if plan.Some? && Narrow(lib, table, query, plan.value).Some? {
      NarrowAscends(lib, table, query, plan.value, index);
      forall at: nat | at < |table.rows| && Answers(lib, table, query, at)
        ensures Left(Start(lib, table, query), at)
      {
        NarrowCovers(lib, table, query, plan.value, index, at);
      }
    }
  }

  // ----- What is found, row by row ------------------------------------------------------------

  lemma OneConditionAnswers(lib: Library, table: Table, query: Query, condition: Condition, c: nat, at: nat)
    requires query.conditions == [condition]
    requires c < |table.columns| && table.columns[c] == condition.column && condition.column !in table.columns[..c]
    ensures at in Scan(lib, table, query, |table.rows|) <==>
            && at < |table.rows|
            && c < |table.rows[at]| && table.rows[at][c].Some?
            && Meets(lib, table.rows[at][c].value, condition, query)
  {
    ScanExact(lib, table, query, |table.rows|);
    FirstOfName(table.columns, condition.column, c);
    if at < |table.rows| {
      assert query.conditions[0] == condition;
      assert CellAt(table.rows[at], c).Some? <==> c < |table.rows[at]| && table.rows[at][c].Some?;
    }
  }

  lemma FirstOfName(columns: seq<Text>, name: Text, c: nat)
    requires c < |columns| && columns[c] == name && name !in columns[..c]
    ensures PositionOf(columns, name) == Some(c)
  {
    assert columns[c] in columns;
    forall d: nat | d < c
      ensures columns[d] != name
    {
      assert columns[..c][d] in columns[..c];
    }
    forall d: nat | c < d <= |columns|
      ensures name in columns[..d]
    {
      assert columns[..d][c] == name;
    }
  }

  /**
   * An equality on any column finds exactly the rows whose cell there is the value
   * or the wildcard, byte for byte or with case folded. A row with no cell there is
   * never found, whatever the value.
   */
  lemma EqualityFinds(lib: Library, table: Table, query: Query, column: Text, value: Text, c: nat, at: nat)
    requires query.conditions == [Equals(column, value)]
    requires c < |table.columns| && table.columns[c] == column && column !in table.columns[..c]
    ensures at in Scan(lib, table, query, |table.rows|) <==>
            && at < |table.rows|
            && c < |table.rows[at]| && table.rows[at][c].Some?
            && var text := table.rows[at][c].value;
               if query.caseSensitive
               then text == value || (query.wildcard.Some? && text == query.wildcard.value)
               else lib.folds(text, value) || (query.wildcard.Some? && lib.folds(text, query.wildcard.value))
  {
    OneConditionAnswers(lib, table, query, Equals(column, value), c, at);
  }

  /** With nothing asked every row is found, and with an unknown column asked about none is. */
  lemma NothingAskedFindsAll(lib: Library, table: Table, query: Query, at: nat)
    ensures query.conditions == [] ==> (at in Scan(lib, table, query, |table.rows|) <==> at < |table.rows|)
    ensures (exists condition <- query.conditions :: condition.column !in table.columns) ==>
              at !in Scan(lib, table, query, |table.rows|)
  {
    ScanExact(lib, table, query, |table.rows|);
    if condition :| condition in query.conditions && condition.column !in table.columns {
      assert PositionOf(table.columns, condition.column).None?;
    }
  }

  /** A cell at a key column holds one text or the other. */
  ghost predicate HoldsEither(table: Table, at: nat, value: Text, wildcard: Option<Text>) {
    && at < |table.rows| && table.keyColumn < |table.rows[at]|
    && var cell := table.rows[at][table.keyColumn];
       cell == Some(value) || (wildcard.Some? && cell == wildcard)
  }

  /**
   * An equality on the column of a text index is answered by its lists alone: the
   * rows they lead to are the rows found, and both are the rows whose key cell is
   * the value or the wildcard.
   */
  lemma KeyListsAreTheAnswer(lib: Library, table: Table, query: Query, index: Index, column: Text, value: Text, at: nat)
    requires index.ByColumn? && table.keys == KeysOf(lib, index, table.rows, table.keyColumn)
    requires query.caseSensitive && query.conditions == [Equals(column, value)]
    requires PositionOf(table.columns, column) == Some(table.keyColumn)
    ensures Left(Start(lib, table, query), at) <==> HoldsEither(table, at, value, query.wildcard)
    ensures at in Scan(lib, table, query, |table.rows|) <==> HoldsEither(table, at, value, query.wildcard)
  {
    EqualityFinds(lib, table, query, column, value, table.keyColumn, at);
    KeyLists(lib, table, query, column, value);
    KeyListHolds(table, value, at);
    if query.wildcard.Some? {
      KeyListHolds(table, query.wildcard.value, at);
    }
    var lists := Start(lib, table, query).lists;
    assert Left(Start(lib, table, query), at) <==> at in lists[0] || at in lists[1] || at in lists[2];
  }

  /** The lists such a query starts with. */
  lemma KeyLists(lib: Library, table: Table, query: Query, column: Text, value: Text)
    requires table.keys.TextKeys? && query.caseSensitive && query.conditions == [Equals(column, value)]
    requires PositionOf(table.columns, column) == Some(table.keyColumn)
    ensures var filed := table.keys.byText;
            Start(lib, table, query) == Listed([
              ListUnder(filed, value),
              if query.wildcard.Some? && query.wildcard.value != value
              then ListUnder(filed, query.wildcard.value) else [],
              []])
  {
    var plan := Plan(table.columns, query.conditions);
    assert forall condition <- query.conditions :: condition == Equals(column, value);
    assert plan.Some? && plan.value == [table.keyColumn];
    assert KeyValue(query.conditions, [table.keyColumn], table.keyColumn) == Some(value);
  }

  lemma KeyListHolds(table: Table, text: Text, at: nat)
    requires table.keys == TextKeys(FiledOf(Slots(table.rows, table.keyColumn, AsText)))
    ensures at in ListUnder(table.keys.byText, text) <==>
            at < |table.rows| && table.keyColumn < |table.rows[at]| && table.rows[at][table.keyColumn] == Some(text)
  {
    var slots := Slots(table.rows, table.keyColumn, AsText);
    ListUnderExact(slots, text);
    PositionsExact(slots, Under(text));
  }

  /** The date a row holds in a column, when it holds one. */
  ghost predicate Dated(lib: Library, table: Table, at: nat, c: nat) {
    && at < |table.rows| && c < |table.rows[at]| && table.rows[at][c].Some?
    && lib.asDate(table.rows[at][c].value).Some?
  }

  /**
   * A date condition finds exactly the rows whose cell parses as a date from the
   * first on, or up to the last, both ends included; and between two dates, those
   * that both of these find.
   */
  lemma DatesFind(lib: Library, table: Table, query: Query, column: Text, c: nat, first: int, last: int, at: nat)
    requires c < |table.columns| && table.columns[c] == column && column !in table.columns[..c]
    ensures at in Scan(lib, table, query.(conditions := [FromDate(column, first)]), |table.rows|) <==>
            Dated(lib, table, at, c) && lib.asDate(table.rows[at][c].value).value >= first
    ensures at in Scan(lib, table, query.(conditions := [ToDate(column, last)]), |table.rows|) <==>
            Dated(lib, table, at, c) && lib.asDate(table.rows[at][c].value).value <= last
    ensures at in Scan(lib, table, query.(conditions := [BetweenDates(column, first, last)]), |table.rows|) <==>
            && at in Scan(lib, table, query.(conditions := [FromDate(column, first)]), |table.rows|)
            && at in Scan(lib, table, query.(conditions := [ToDate(column, last)]), |table.rows|)
  {
    forall condition | condition in [FromDate(column, first), ToDate(column, last), BetweenDates(column, first, last)]
      ensures at in Scan(lib, table, query.(conditions := [condition]), |table.rows|) <==>
              && at < |table.rows|
              && c < |table.rows[at]| && table.rows[at][c].Some?
              && Meets(lib, table.rows[at][c].value, condition, query)
    {
      OneConditionAnswers(lib, table, query.(conditions := [condition]), condition, c, at);
    }
    assert FromDate(column, first) in [FromDate(column, first)];
  }

  /** The wildcard, and how case is compared, change nothing where only dates are asked about. */
  lemma WildcardIsNoDate(lib: Library, table: Table, query: Query, caseSensitive: bool, wildcard: Option<Text>)
    requires forall condition <- query.conditions :: !condition.Equals?
    ensures Scan(lib, table, query.(caseSensitive := caseSensitive, wildcard := wildcard), |table.rows|) ==
            Scan(lib, table, query, |table.rows|)
  {
    var other := query.(caseSensitive := caseSensitive, wildcard := wildcard);
    ScanExact(lib, table, query, |table.rows|);
    ScanExact(lib, table, other, |table.rows|);
    assert forall condition <- query.conditions, text: Text ::
      Meets(lib, text, condition, query) == Meets(lib, text, condition, other);
    AscendingUnique(Scan(lib, table, other, |table.rows|), Scan(lib, table, query, |table.rows|));
  }

  /** An iteration over the answers, lazily narrowed from the candidates. */
  class Matches {
    const lib: Library
    const table: Table
    const query: Query
    const plan: seq<nat>
    var walk: Walk

    ghost predicate Valid()
      reads `walk
    {
      Walks(table, query, plan, walk)
    }

    /** The rows still to be handed back. */
    ghost function Answer(): seq<nat>
      requires Valid()
      reads `walk
    {
      Matching(lib, table, query, Pending(walk))
    }

    /** Iterating what a query finds yields what a full scan would, whatever was asked. */
    constructor Find(lib: Library, table: Table, query: Query, ghost index: Index)
      requires table.keys == KeysOf(lib, index, table.rows, table.keyColumn)
      ensures Valid() && this.lib == lib && this.table == table && this.query == query
      ensures Answer() == Scan(lib, table, query, |table.rows|)
    {
      StartCovers(lib, table, query, index);
      WalkIsScan(lib, table, query, Start(lib, table, query));
      this.lib, this.table, this.query := lib, table, query;
      this.plan := PlanOf(table, query);
      this.walk := Start(lib, table, query);
    }

    /** Shrink the walk by its least candidate. */
    method Pop() returns (at: Option<nat>)
      requires Valid()
      modifies `walk
      ensures Popped(old(walk)) == if at.Some? then Some((at.value, walk)) else None
      ensures at.None? ==> walk == old(walk)
    {
      match walk {
        case All(from, end) =>
          if from < end {
            walk := All(from + 1, end);
            return Some(from);
          }
          return None;
        case Listed(lists) =>
          at := Lowest(lists);
          if at.None? {
            return;
          }
          var advanced := lists;
          for i := 0 to |lists|
            invariant |advanced| == |lists|
            invariant forall k :: 0 <= k < |lists| ==>
                        advanced[k] == if k < i then Advance(lists[k], at.value) else lists[k]
          {
            if advanced[i] != [] && advanced[i][0] == at.value {
              advanced := advanced[i := advanced[i][1..]];
            }
          }
          assert advanced == AdvanceAll(lists, at.value);
          walk := Listed(advanced);
      }
    }

    /** Hand back the next row found, leaving the ones behind it. */
    method Next() returns (at: Option<nat>)
      requires Valid()
      modifies `walk
      ensures Valid()
      ensures old(Answer()) == (if at.Some? then [at.value] else []) + Answer()
      ensures at.None? ==> Answer() == []
    {
      PoppedKeeps(lib, table, query, plan, walk);
      at := Pop();
      while at.Some?
        invariant Valid()
        invariant at.Some? ==> at.value < |table.rows| && Resolves(table, query.conditions, plan)
        invariant old(Answer()) == if at.Some? then Found(lib, table, query, at.value) + Answer() else []
        invariant at.None? ==> Answer() == []
        decreases Remaining(walk), at.Some?
      {
        SatisfiesIsAnswers(lib, table, query, plan, at.value);
        if Satisfies(lib, table.rows[at.value], query, query.conditions, plan) {
          return;
        }
        PoppedKeeps(lib, table, query, plan, walk);
        at := Pop();
      }
    }

    /** The upper bound counts what the walk still has, list by list. */
    lemma RemainingCounts()
      ensures walk.Listed? && |walk.lists| == 3 ==>
                Remaining(walk) == |walk.lists[0]| + |walk.lists[1]| + |walk.lists[2]|
      ensures walk.All? && walk.from <= walk.end ==> Remaining(walk) == walk.end - walk.from
    {
      if walk.Listed? && |walk.lists| == 3 {
        var lists := walk.lists;
        assert TotalLength(lists[..1]) == |lists[0]|;
        assert lists[..2][..1] == lists[..1];
        assert TotalLength(lists[..2]) == |lists[0]| + |lists[1]|;
      }
    }

    /** At every point of the iteration, what is left to test is at least what is left to find. */
    lemma SizeHintHolds()
      requires Valid()
      ensures |Answer()| <= Remaining(walk)
    {
      PendingExact(walk);
      MatchingExact(lib, table, query, Pending(walk));
    }
  }
}
