/** Building a table's index, and what building it is charged. */
module Tables {
  import opened Basics
  import opened Rows

  /** An IP address, and a CIDR range as it is written, as codes of their values. */
  type Address = int
  type Net = int

  /**
   * The parsers the table leans on, as functions of the text alone. `network`
   * is the range a prefix trie files a range under: it may drop host bits.
   */
  datatype Library = Library(
    asAddress: Text -> Option<Address>,
    asPrefix: Text -> Option<Net>,
    network: Net -> Net,
    asDate: Text -> Option<int>,
    folds: (Text, Text) -> bool,
    conventional: (Index, Text) -> bool)
  {
    /** The key a text is filed under by a prefix index. */
    function PrefixKey(text: Text): Option<Net> {
      var net := asPrefix(text);
      if net.Some? then Some(network(net.value)) else None
    }
  }

  /** How much lists and maps ask the allocator for, by how many entries they hold. */
  datatype Allocator = Allocator(list: nat -> nat, slots: nat -> nat)

  datatype Index = ByColumn(name: Text) | ByIp | ByPrefix

  datatype Keys =
    | TextKeys(byText: map<Text, seq<nat>>)
    | AddressKeys(byAddress: map<Address, seq<nat>>, unindexed: seq<nat>)
    | PrefixKeys(byNet: map<Net, seq<nat>>, unindexed: seq<nat>)

  datatype Table = Table(columns: seq<Text>, keyColumn: nat, rows: seq<seq<Cell>>, keys: Keys)

  /** A cell by its position; a short row has nothing there. */
  function CellAt(row: seq<Cell>, at: nat): Cell {
    if at < |row| then row[at] else None
  }

  // ----- Where each row belongs -----------------------------------------------------

  /** The one place a row's key cell puts it. */
  datatype Slot<K> = Keyless | Unparsed | Under(key: K)

  function SlotOf<K>(cell: Cell, parse: Text -> Option<K>): Slot<K> {
    if cell.None? then Keyless
    else
      var key := parse(cell.value);
      if key.None? then Unparsed else Under(key.value)
  }

  function Slots<K>(rows: seq<seq<Cell>>, column: nat, parse: Text -> Option<K>): seq<Slot<K>> {
    seq(|rows|, i requires 0 <= i < |rows| => SlotOf(CellAt(rows[i], column), parse))
  }

  /** The positions of a slot, in file order. */
  function PositionsOf<K(==)>(slots: seq<Slot<K>>, slot: Slot<K>): seq<nat> {
    if slots == [] then []
    else
      var n := |slots| - 1;
      PositionsOf(slots[..n], slot) + if slots[n] == slot then [n] else []
  }

  function KeySet<K(==)>(slots: seq<Slot<K>>): set<K> {
    if slots == [] then {}
    else
      var last := slots[|slots| - 1];
      KeySet(slots[..|slots| - 1]) + if last.Under? then {last.key} else {}
  }

  /** Every key with its rows. */
  function FiledOf<K(==)>(slots: seq<Slot<K>>): map<K, seq<nat>> {
    map k | k in KeySet(slots) :: PositionsOf(slots, Under(k))
  }

  ghost predicate Ascending(list: seq<nat>) {
    forall i, j :: 0 <= i < j < |list| ==> list[i] < list[j]
  }

  lemma PositionsSnoc<K>(slots: seq<Slot<K>>, last: Slot<K>, slot: Slot<K>)
    ensures PositionsOf(slots + [last], slot) == PositionsOf(slots, slot) + if last == slot then [|slots|] else []
    ensures KeySet(slots + [last]) == KeySet(slots) + if last.Under? then {last.key} else {}
  {
    assert (slots + [last])[..|slots|] == slots;
  }

  /** A position list is exactly the positions of its slot, strictly ascending. */
  lemma {:induction false} PositionsExact<K>(slots: seq<Slot<K>>, slot: Slot<K>)
    ensures Ascending(PositionsOf(slots, slot))
    ensures forall at :: at in PositionsOf(slots, slot) <==> 0 <= at < |slots| && slots[at] == slot
  {
    if slots != [] {
      var rest := slots[..|slots| - 1];
      var list := PositionsOf(rest, slot);
      PositionsExact(rest, slot);
      forall i | 0 <= i < |list|
        ensures list[i] < |rest|
      {
        assert list[i] in list;
      }
    }
  }

  lemma {:induction false} KeySetExact<K>(slots: seq<Slot<K>>, key: K)
    ensures key in KeySet(slots) <==> exists at :: 0 <= at < |slots| && slots[at] == Under(key)
  {
    if slots != [] {
      var rest := slots[..|slots| - 1];
      KeySetExact(rest, key);
      assert forall at :: 0 <= at < |rest| ==> slots[at] == rest[at];
    }
  }

  /** A key's list, empty for a key no row has. */
  function ListUnder<K(==)>(filed: map<K, seq<nat>>, key: K): seq<nat> {
    if key in filed then filed[key] else []
  }

  lemma ListUnderExact<K>(slots: seq<Slot<K>>, key: K)
    ensures ListUnder(FiledOf(slots), key) == PositionsOf(slots, Under(key))
  {
    KeySetExact(slots, key);
    PositionsExact(slots, Under(key));
    if key !in KeySet(slots) && PositionsOf(slots, Under(key)) != [] {
      assert PositionsOf(slots, Under(key))[0] in PositionsOf(slots, Under(key));
    }
  }

  lemma FiledCountOfKeys<K>(slots: seq<Slot<K>>)
    ensures |FiledOf(slots)| == |KeySet(slots)|
  {
    assert FiledOf(slots).Keys == KeySet(slots);
  }

  /** Filing one more row is the map of one more row. */
  lemma FiledSnoc<K>(slots: seq<Slot<K>>, last: Slot<K>)
    ensures FiledOf(slots + [last]) ==
            if last.Under? then FiledOf(slots)[last.key := ListUnder(FiledOf(slots), last.key) + [|slots|]]
            else FiledOf(slots)
  {
    var filed, grown := FiledOf(slots), FiledOf(slots + [last]);
    PositionsSnoc(slots, last, last);
    forall k | k in grown
      ensures grown[k] == ListUnder(filed, k) + if last == Under(k) then [|slots|] else []
    {
      PositionsSnoc(slots, last, Under(k));
      ListUnderExact(slots, k);
    }
    forall k | k in filed && last != Under(k)
      ensures k in grown && grown[k] == filed[k]
    {
      assert filed[k] + [] == filed[k];
    }
    assert grown.Keys == filed.Keys + if last.Under? then {last.key} else {};
  }

  /** How many rows are in the buckets of these keys. */
  function RowsUnder<K(==)>(filed: map<K, seq<nat>>, keys: seq<K>): nat {
    if keys == [] then 0
    else
      var n := |keys| - 1;
      RowsUnder(filed, keys[..n]) + |ListUnder(filed, keys[n])|
  }

  ghost predicate Distinct<K>(keys: seq<K>) {
    forall i, j :: 0 <= i < j < |keys| ==> keys[i] != keys[j]
  }

  /** One more row in one bucket is one more row in all of them. */
  lemma {:induction false} RowsUnderGrows<K>(filed: map<K, seq<nat>>, keys: seq<K>, key: K, at: nat)
    requires Distinct(keys)
    ensures RowsUnder(filed[key := ListUnder(filed, key) + [at]], keys) ==
            RowsUnder(filed, keys) + if key in keys then 1 else 0
  {
    if keys != [] {
      var rest := keys[..|keys| - 1];
      RowsUnderGrows(filed, rest, key, at);
      assert keys == rest + [keys[|keys| - 1]];
    }
  }

  lemma {:induction false} NoneUnder<K>(keys: seq<K>)
    ensures RowsUnder<K>(map[], keys) == 0
  {
    if keys != [] {
      NoneUnder(keys[..|keys| - 1]);
    }
  }

  /**
   * Every row is in one bucket, or unindexed, or keyless: over any list of keys
   * that names each one in use once, the buckets and the two lists hold as many
   * rows as there are.
   */
  lemma {:induction false} SlotsAddUp<K>(slots: seq<Slot<K>>, keys: seq<K>)
    requires Distinct(keys) && forall key <- KeySet(slots) :: key in keys
    ensures RowsUnder(FiledOf(slots), keys)
            + |PositionsOf(slots, Unparsed)| + |PositionsOf(slots, Keyless)| == |slots|
  {
    if slots == [] {
      assert FiledOf(slots) == map[];
      NoneUnder(keys);
    } else {
      var rest, last := slots[..|slots| - 1], slots[|slots| - 1];
      assert slots == rest + [last];
      PositionsSnoc(rest, last, Unparsed);
      PositionsSnoc(rest, last, Keyless);
      FiledSnoc(rest, last);
      SlotsAddUp(rest, keys);
      if last.Under? {
        assert last.key in KeySet(slots);
        RowsUnderGrows(FiledOf(rest), keys, last.key, |rest|);
      }
    }
  }

  // ----- What the index costs -------------------------------------------------------------

  /** Bytes one position takes in a list. */
  const POSITION_BYTES: nat := 8

  /** Bytes a new range costs a prefix index. */
  const PREFIX_ENTRY_BYTES: nat := 160

  /** Bytes one bucket of a map from texts, and from addresses, takes. */
  const TEXT_BUCKET: nat := 41
  const ADDRESS_BUCKET: nat := 49

  function ListGrowth(alloc: Allocator, entries: nat): nat {
    if alloc.list(entries + 1) > alloc.list(entries)
    then (alloc.list(entries + 1) - alloc.list(entries)) * POSITION_BYTES else 0
  }

  /** The charge for the buckets a map grows by with one more entry. */
  function MapGrowth(alloc: Allocator, entries: nat, bucket: nat): nat {
    if alloc.slots(entries + 1) > alloc.slots(entries)
    then (alloc.slots(entries + 1) - alloc.slots(entries)) * bucket * 8 / 7 else 0
  }

  /** What filing one more row costs, `price` being what a new key costs. */
  function RowCost<K(==)>(alloc: Allocator, price: (K, nat) -> nat, before: seq<Slot<K>>, slot: Slot<K>): nat {
    match slot
    case Keyless => 0
    case Unparsed => ListGrowth(alloc, |PositionsOf(before, slot)|)
    case Under(key) =>
      ListGrowth(alloc, |PositionsOf(before, slot)|) +
      if key in KeySet(before) then 0 else price(key, |KeySet(before)|)
  }

  /** What filing every row costs. */
  function IndexCost<K(==)>(alloc: Allocator, price: (K, nat) -> nat, slots: seq<Slot<K>>): nat {
    if slots == [] then 0
    else
      var before := slots[..|slots| - 1];
      IndexCost(alloc, price, before) + RowCost(alloc, price, before, slots[|slots| - 1])
  }

  function ColumnsCost(columns: seq<Text>): nat {
    if columns == [] then 0 else ColumnsCost(columns[..|columns| - 1]) + |columns[|columns| - 1]| + 24
  }

  function TextPrice(alloc: Allocator): (Text, nat) -> nat {
    (key: Text, entries: nat) => |key| + MapGrowth(alloc, entries, TEXT_BUCKET)
  }

  function AddressPrice(alloc: Allocator): (Address, nat) -> nat {
    (key: Address, entries: nat) => MapGrowth(alloc, entries, ADDRESS_BUCKET)
  }

  function NetPrice(): (Net, nat) -> nat {
    (key: Net, entries: nat) => PREFIX_ENTRY_BYTES
  }

  /** Whether a saturating total of this amount is within the ceiling. */
  predicate Affordable(amount: nat, ceiling: nat) {
    U64_MAX <= ceiling || amount <= ceiling
  }

  /** A saturating total against a ceiling, with the exact amount beside it. */
  class Budget {
    var held: nat
    const ceiling: nat

    /** The exact amount charged, which the running total saturates. */
    ghost var spent: nat

    ghost predicate Valid()
      reads this
    {
      held == Sat(spent)
    }

    constructor (held: nat, ceiling: nat)
      requires held <= U64_MAX
      ensures Valid() && spent == held && this.ceiling == ceiling
    {
      this.held, this.ceiling, this.spent := held, ceiling, held;
    }

    method Charge(bytes: nat) returns (r: Outcome<TableError>)
      requires Valid()
      modifies this
      ensures Valid() && spent == old(spent) + bytes
      ensures r == if Affordable(spent, ceiling) then Pass else Fail(OverResidentCeiling(ceiling))
    {
      held := SatAdd(held, bytes);
      spent := spent + bytes;
      if held > ceiling {
        return Fail(OverResidentCeiling(ceiling));
      }
      return Pass;
    }

    /** One more position in a list, at the price of the list's growth. */
    method Push(alloc: Allocator, list: seq<nat>, at: nat) returns (r: Outcome<TableError>, list': seq<nat>)
      requires Valid()
      modifies this
      ensures Valid() && spent == old(spent) + ListGrowth(alloc, |list|)
      ensures r == if Affordable(spent, ceiling) then Pass else Fail(OverResidentCeiling(ceiling))
      ensures list' == list + [at]
    {
      list' := list + [at];
      r := Charge(ListGrowth(alloc, |list|));
    }

    /** One more row in a hash map: `ListUnder` grows by it at the end. */
    method File<K(==)>(alloc: Allocator, filed: map<K, seq<nat>>, key: K, keyBytes: nat, bucket: nat, at: nat)
        returns (r: Outcome<TableError>, filed': map<K, seq<nat>>)
      requires Valid()
      modifies this
      ensures Valid()
      ensures var list := ListUnder(filed, key);
              var bytes := ListGrowth(alloc, |list|) +
                           if key in filed then 0 else keyBytes + MapGrowth(alloc, |filed|, bucket);
              && (r.Pass? ==> spent == old(spent) + bytes && filed' == filed[key := list + [at]])
              && r == if Affordable(old(spent) + bytes, ceiling) then Pass else Fail(OverResidentCeiling(ceiling))
    {
      filed' := filed;
      var list: seq<nat> := [];
      if key in filed {
        list := filed[key];
      } else {
        r := Charge(keyBytes);
        if r.Fail? {
          return;
        }
      }
      r, list := Push(alloc, list, at);
      if r.Fail? {
        return;
      }
      filed' := filed[key := list];
      r := Charge(if key in filed then 0 else MapGrowth(alloc, |filed|, bucket));
    }
  }

  // ----- Filing every row ------------------------------------------------------------------

  lemma {:induction false} IndexCostGrows<K>(alloc: Allocator, price: (K, nat) -> nat, slots: seq<Slot<K>>, n: nat)
    requires n <= |slots|
    ensures IndexCost(alloc, price, slots[..n]) <= IndexCost(alloc, price, slots)
  {
    if n == |slots| {
      assert slots[..n] == slots;
    } else {
      var rest := slots[..|slots| - 1];
      IndexCostGrows(alloc, price, rest, n);
      assert rest[..n] == slots[..n];
    }
  }

  /** The index of the first rows, and what it cost. */
  ghost predicate FiledTo<K>(alloc: Allocator, price: (K, nat) -> nat, slots: seq<Slot<K>>, n: nat,
                             filed: map<K, seq<nat>>, unindexed: seq<nat>, cost: int) {
    && n <= |slots|
    && filed == FiledOf(slots[..n])
    && unindexed == PositionsOf(slots[..n], Unparsed)
    && cost == IndexCost(alloc, price, slots[..n])
  }

  lemma FiledNext<K>(alloc: Allocator, price: (K, nat) -> nat, slots: seq<Slot<K>>, n: nat,
                     filed: map<K, seq<nat>>, unindexed: seq<nat>, cost: int)
    requires n < |slots| && FiledTo(alloc, price, slots, n, filed, unindexed, cost)
    ensures match slots[n]
            case Keyless => FiledTo(alloc, price, slots, n + 1, filed, unindexed, cost)
            case Unparsed =>
              FiledTo(alloc, price, slots, n + 1, filed, unindexed + [n], cost + ListGrowth(alloc, |unindexed|))
            case Under(key) =>
              var list := ListUnder(filed, key);
              FiledTo(alloc, price, slots, n + 1, filed[key := list + [n]], unindexed,
                      cost + ListGrowth(alloc, |list|) + if key in filed then 0 else price(key, |filed|))
  {
    var before := slots[..n];
    assert slots[..n + 1] == before + [slots[n]];
    assert slots[..n + 1][..n] == before;
    FiledSnoc(before, slots[n]);
    PositionsSnoc(before, slots[n], Unparsed);
    FiledCountOfKeys(before);
    if slots[n].Under? {
      ListUnderExact(before, slots[n].key);
    }
  }

  function AsText(text: Text): Option<Text> {
    Some(text)
  }

  lemma {:induction false} NeverUnparsed<K>(slots: seq<Slot<K>>)
    requires forall i :: 0 <= i < |slots| ==> !slots[i].Unparsed?
    ensures PositionsOf(slots, Unparsed) == []
  {
    if slots != [] {
      NeverUnparsed(slots[..|slots| - 1]);
    }
  }

  /** What filing all rows comes to: what was spent before and after, and what was filed. */
  ghost predicate FiledAll<K>(before: nat, after: nat, ceiling: nat,
                              alloc: Allocator, price: (K, nat) -> nat, slots: seq<Slot<K>>,
                              r: Outcome<TableError>, filed: map<K, seq<nat>>, unindexed: seq<nat>) {
    var total := before + IndexCost(alloc, price, slots);
    && r == (if Affordable(total, ceiling) then Pass else Fail(OverResidentCeiling(ceiling)))
    && (r.Pass? ==> after == total && filed == FiledOf(slots) && unindexed == PositionsOf(slots, Unparsed))
  }

  method IndexText(budget: Budget, alloc: Allocator, rows: seq<seq<Cell>>, column: nat)
      returns (r: Outcome<TableError>, filed: map<Text, seq<nat>>)
    requires budget.Valid() && Affordable(budget.spent, budget.ceiling)
    modifies budget
    ensures budget.Valid()
    ensures FiledAll(old(budget.spent), budget.spent, budget.ceiling,
                     alloc, TextPrice(alloc), Slots(rows, column, AsText), r, filed, [])
  {
    ghost var slots, price := Slots(rows, column, AsText), TextPrice(alloc);
    filed := map[];
    NeverUnparsed(slots);
    for n := 0 to |rows|
      invariant budget.Valid() && Affordable(budget.spent, budget.ceiling)
      invariant FiledTo(alloc, price, slots, n, filed, [], budget.spent - old(budget.spent))
    {
      FiledNext(alloc, price, slots, n, filed, [], budget.spent - old(budget.spent));
      var cell := CellAt(rows[n], column);
      if cell.Some? {
        r, filed := budget.File(alloc, filed, cell.value, |cell.value|, TEXT_BUCKET, n);
        if r.Fail? {
          IndexCostGrows(alloc, price, slots, n + 1);
          return;
        }
      }
    }
    assert slots[..|rows|] == slots;
    r := Pass;
  }

  method IndexAddresses(lib: Library, budget: Budget, alloc: Allocator, rows: seq<seq<Cell>>, column: nat)
      returns (r: Outcome<TableError>, filed: map<Address, seq<nat>>, unindexed: seq<nat>)
    requires budget.Valid() && Affordable(budget.spent, budget.ceiling)
    modifies budget
    ensures budget.Valid()
    ensures FiledAll(old(budget.spent), budget.spent, budget.ceiling,
                     alloc, AddressPrice(alloc), Slots(rows, column, lib.asAddress), r, filed, unindexed)
  {
    ghost var slots, price := Slots(rows, column, lib.asAddress), AddressPrice(alloc);
    filed, unindexed := map[], [];
    for n := 0 to |rows|
      invariant budget.Valid() && Affordable(budget.spent, budget.ceiling)
      invariant FiledTo(alloc, price, slots, n, filed, unindexed, budget.spent - old(budget.spent))
    {
      FiledNext(alloc, price, slots, n, filed, unindexed, budget.spent - old(budget.spent));
      var cell := CellAt(rows[n], column);
      if cell.Some? {
        var key := lib.asAddress(cell.value);
        if key.Some? {
          r, filed := budget.File(alloc, filed, key.value, 0, ADDRESS_BUCKET, n);
        } else {
          r, unindexed := budget.Push(alloc, unindexed, n);
        }
        if r.Fail? {
          IndexCostGrows(alloc, price, slots, n + 1);
          return;
        }
      }
    }
    assert slots[..|rows|] == slots;
    r := Pass;
  }

  /** One more row in a prefix map, whose entries have a flat price. */
  method FilePrefix(budget: Budget, alloc: Allocator, filed: map<Net, seq<nat>>, key: Net, at: nat)
      returns (r: Outcome<TableError>, filed': map<Net, seq<nat>>)
    requires budget.Valid()
    modifies budget
    ensures budget.Valid()
    ensures var list := ListUnder(filed, key);
            var bytes := ListGrowth(alloc, |list|) + if key in filed then 0 else PREFIX_ENTRY_BYTES;
            && (r.Pass? ==> budget.spent == old(budget.spent) + bytes && filed' == filed[key := list + [at]])
            && r == if Affordable(old(budget.spent) + bytes, budget.ceiling)
                    then Pass else Fail(OverResidentCeiling(budget.ceiling))
  {
    filed' := filed;
    var list: seq<nat> := [];
    if key in filed {
      list := filed[key];
    } else {
      r := budget.Charge(PREFIX_ENTRY_BYTES);
      if r.Fail? {
        return;
      }
    }
    r, list := budget.Push(alloc, list, at);
    filed' := filed[key := list];
  }

  method IndexPrefixes(lib: Library, budget: Budget, alloc: Allocator, rows: seq<seq<Cell>>, column: nat)
      returns (r: Outcome<TableError>, filed: map<Net, seq<nat>>, unindexed: seq<nat>)
    requires budget.Valid() && Affordable(budget.spent, budget.ceiling)
    modifies budget
    ensures budget.Valid()
    ensures FiledAll(old(budget.spent), budget.spent, budget.ceiling,
                     alloc, NetPrice(), Slots(rows, column, lib.PrefixKey), r, filed, unindexed)
  {
    ghost var slots, price := Slots(rows, column, lib.PrefixKey), NetPrice();
    filed, unindexed := map[], [];
    for n := 0 to |rows|
      invariant budget.Valid() && Affordable(budget.spent, budget.ceiling)
      invariant FiledTo(alloc, price, slots, n, filed, unindexed, budget.spent - old(budget.spent))
    {
      FiledNext(alloc, price, slots, n, filed, unindexed, budget.spent - old(budget.spent));
      var cell := CellAt(rows[n], column);
      if cell.Some? {
        var net := lib.asPrefix(cell.value);
        if net.Some? {
          // The trie files a range under its network.
          r, filed := FilePrefix(budget, alloc, filed, lib.network(net.value), n);
        } else {
          r, unindexed := budget.Push(alloc, unindexed, n);
        }
        if r.Fail? {
          IndexCostGrows(alloc, price, slots, n + 1);
          return;
        }
      }
    }
    assert slots[..|rows|] == slots;
    r := Pass;
  }

  // ----- Which column is the key --------------------------------------------------------------

  function FirstFrom(holds: nat -> bool, from: nat, end: nat): (r: Option<nat>)
    requires from <= end
    ensures r.Some? ==> from <= r.value < end && holds(r.value) && forall c :: from <= c < r.value ==> !holds(c)
    ensures r.None? ==> forall c :: from <= c < end ==> !holds(c)
    decreases end - from
  {
    if from == end then None else if holds(from) then Some(from) else FirstFrom(holds, from + 1, end)
  }

  lemma FirstIs(holds: nat -> bool, end: nat, c: nat)
    requires c < end && holds(c) && forall d :: 0 <= d < c ==> !holds(d)
    ensures FirstFrom(holds, 0, end) == Some(c)
  {
    var first := FirstFrom(holds, 0, end);
    assert first.Some?;
  }

  /** The first column of a name. */
  function PositionOf(columns: seq<Text>, name: Text): (r: Option<nat>)
    ensures r.Some? ==> r.value < |columns| && columns[r.value] == name && name !in columns[..r.value]
    ensures r.None? ==> name !in columns
  {
    if columns == [] then None
    else
      var n := |columns| - 1;
      assert columns == columns[..n] + [columns[n]];
      var before := PositionOf(columns[..n], name);
      if before.Some? then
        assert columns[..n][..before.value] == columns[..before.value];
        before
      else if columns[n] == name then Some(n) else None
  }

  /** The size of the sample that a key column is judged by. */
  const ADDRESS_SAMPLE: nat := 64

  function Sample(rows: seq<seq<Cell>>): seq<seq<Cell>> {
    if |rows| <= ADDRESS_SAMPLE then rows else rows[..ADDRESS_SAMPLE]
  }

  predicate Parses(lib: Library, index: Index, text: Text) {
    match index
    case ByColumn(_) => true
    case ByIp => lib.asAddress(text).Some?
    case ByPrefix => lib.asPrefix(text).Some?
  }

  /** Every value a column has in the sample is a key, and it has one. */
  predicate HoldsKeys(lib: Library, index: Index, rows: seq<seq<Cell>>, column: nat) {
    && (forall row <- Sample(rows) :: var cell := CellAt(row, column); cell.Some? ==> Parses(lib, index, cell.value))
    && (exists row <- Sample(rows) :: CellAt(row, column).Some?)
  }

  function IsConventional(lib: Library, index: Index, columns: seq<Text>): nat -> bool {
    (c: nat) => c < |columns| && lib.conventional(index, columns[c])
  }

  function IsKeyColumn(lib: Library, index: Index, rows: seq<seq<Cell>>): nat -> bool {
    (c: nat) => HoldsKeys(lib, index, rows, c)
  }

  /** The column a conventional name picks, if it holds keys, else the first that does. */
  function KeyColumn(lib: Library, index: Index, columns: seq<Text>, rows: seq<seq<Cell>>): Option<nat> {
    if index.ByColumn? then PositionOf(columns, index.name)
    else
      var named := FirstFrom(IsConventional(lib, index, columns), 0, |columns|);
      if named.Some? && HoldsKeys(lib, index, rows, named.value) then named
      else FirstFrom(IsKeyColumn(lib, index, rows), 0, |columns|)
  }

  /** A text that an index by address, or by network, could file. */
  ghost predicate IsKey(lib: Library, index: Index, text: Text) {
    (index.ByIp? ==> lib.asAddress(text).Some?) && (index.ByPrefix? ==> lib.asPrefix(text).Some?)
  }

  /** Among the first 64 rows a column has some value, and all it has are keys. */
  ghost predicate KeysAt(lib: Library, index: Index, rows: seq<seq<Cell>>, c: nat) {
    && (forall i :: 0 <= i < |rows| && i < 64 && c < |rows[i]| && rows[i][c].Some? ==>
          IsKey(lib, index, rows[i][c].value))
    && (exists i :: 0 <= i < |rows| && i < 64 && c < |rows[i]| && rows[i][c].Some?)
  }

  /** The first column with a conventional name. */
  ghost predicate FirstConventional(lib: Library, index: Index, columns: seq<Text>, c: nat) {
    && c < |columns| && lib.conventional(index, columns[c])
    && forall d :: 0 <= d < c ==> !lib.conventional(index, columns[d])
  }

  /**
   * Which column is picked. By name, the first of that name. Otherwise the first
   * with a conventional name, if keys are what it holds; and if not, the first that
   * holds keys, whatever it is called. None only when there is none.
   */
  ghost predicate Picks(lib: Library, index: Index, columns: seq<Text>, rows: seq<seq<Cell>>, r: Option<nat>) {
    match index
    case ByColumn(name) =>
      if r.None? then forall c :: 0 <= c < |columns| ==> columns[c] != name
      else r.value < |columns| && columns[r.value] == name && forall c :: 0 <= c < r.value ==> columns[c] != name
    case _ =>
      && (forall c: nat :: FirstConventional(lib, index, columns, c) && KeysAt(lib, index, rows, c) ==> r == Some(c))
      && ((forall c: nat :: FirstConventional(lib, index, columns, c) ==> !KeysAt(lib, index, rows, c)) ==>
            FirstWithKeys(lib, index, columns, rows, r))
  }

  /** The first column that holds keys, if one does. */
  ghost predicate FirstWithKeys(lib: Library, index: Index, columns: seq<Text>, rows: seq<seq<Cell>>, r: Option<nat>) {
    if r.None? then forall c :: 0 <= c < |columns| ==> !KeysAt(lib, index, rows, c)
    else
      && r.value < |columns| && KeysAt(lib, index, rows, r.value)
      && forall c :: 0 <= c < r.value ==> !KeysAt(lib, index, rows, c)
  }

  lemma HoldsKeysIsKeysAt(lib: Library, index: Index, rows: seq<seq<Cell>>, c: nat)
    ensures HoldsKeys(lib, index, rows, c) <==> KeysAt(lib, index, rows, c)
  {
    var sample := Sample(rows);
    assert forall i :: 0 <= i < |rows| && i < 64 ==> i < |sample| && sample[i] == rows[i] && rows[i] in sample;
    assert forall i :: 0 <= i < |sample| ==> i < |rows| && i < 64 && sample[i] == rows[i];
    assert forall row: seq<Cell> <- sample :: CellAt(row, c).Some? <==> c < |row| && row[c].Some?;
    assert forall text: Text :: Parses(lib, index, text) <==> IsKey(lib, index, text);
  }

  /** The conventional column tried is the first of such a name. */
  lemma NamedIsFirst(lib: Library, index: Index, columns: seq<Text>, c: nat)
    ensures FirstConventional(lib, index, columns, c) <==>
            FirstFrom(IsConventional(lib, index, columns), 0, |columns|) == Some(c)
  {
    var holds := IsConventional(lib, index, columns);
    var named := FirstFrom(holds, 0, |columns|);
    if FirstConventional(lib, index, columns, c) {
      forall d: nat | d < c
        ensures !holds(d)
      {
        assert !lib.conventional(index, columns[d]);
      }
      FirstIs(holds, |columns|, c);
    } else if named == Some(c) {
      forall d: nat | d < c
        ensures !lib.conventional(index, columns[d])
      {
        assert !holds(d);
      }
    }
  }

  lemma SampledIsFirst(lib: Library, index: Index, columns: seq<Text>, rows: seq<seq<Cell>>)
    ensures FirstWithKeys(lib, index, columns, rows, FirstFrom(IsKeyColumn(lib, index, rows), 0, |columns|))
  {
    var holds := IsKeyColumn(lib, index, rows);
    forall c: nat
      ensures holds(c) <==> KeysAt(lib, index, rows, c)
    {
      HoldsKeysIsKeysAt(lib, index, rows, c);
    }
    var r := FirstFrom(holds, 0, |columns|);
    forall c: nat | c < if r.Some? then r.value else |columns|
      ensures !KeysAt(lib, index, rows, c)
    {
      assert !holds(c);
    }
  }

  lemma NamedPicks(name: Text, columns: seq<Text>)
    ensures var r := PositionOf(columns, name);
            if r.None? then forall c :: 0 <= c < |columns| ==> columns[c] != name
            else r.value < |columns| && columns[r.value] == name && forall c :: 0 <= c < r.value ==> columns[c] != name
  {
    var r := PositionOf(columns, name);
    if r.Some? {
      assert forall c :: 0 <= c < r.value ==> columns[..r.value][c] == columns[c];
    }
  }

  lemma KeyColumnPicks(lib: Library, index: Index, columns: seq<Text>, rows: seq<seq<Cell>>)
    ensures Picks(lib, index, columns, rows, KeyColumn(lib, index, columns, rows))
  {
    if index.ByColumn? {
      NamedPicks(index.name, columns);
    } else {
      var named := FirstFrom(IsConventional(lib, index, columns), 0, |columns|);
      SampledIsFirst(lib, index, columns, rows);
      forall c: nat
        ensures FirstConventional(lib, index, columns, c) <==> named == Some(c)
        ensures HoldsKeys(lib, index, rows, c) <==> KeysAt(lib, index, rows, c)
      {
        NamedIsFirst(lib, index, columns, c);
        HoldsKeysIsKeysAt(lib, index, rows, c);
      }
      if named.Some? && HoldsKeys(lib, index, rows, named.value) {
        assert FirstConventional(lib, index, columns, named.value) && KeysAt(lib, index, rows, named.value);
      }
    }
  }

  method Holds(lib: Library, index: Index, rows: seq<seq<Cell>>, column: nat) returns (holds: bool)
    ensures holds == HoldsKeys(lib, index, rows, column)
  {
    var sample := Sample(rows);
    var seen := 0;
    for i := 0 to |sample|
      invariant seen == 0 <==> forall row <- sample[..i] :: CellAt(row, column).None?
      invariant seen >= 0
      invariant forall row <- sample[..i] ::
                  var cell := CellAt(row, column); cell.Some? ==> Parses(lib, index, cell.value)
    {
      assert sample[..i + 1] == sample[..i] + [sample[i]];
      assert sample[i] in sample;
      var cell := CellAt(sample[i], column);
      if cell.Some? {
        if !Parses(lib, index, cell.value) {
          return false;
        }
        seen := seen + 1;
      }
    }
    assert sample[..|sample|] == sample;
    return seen > 0;
  }

  // ----- The whole build ------------------------------------------------------------------------

  /** The index of some rows: the function of the rows that `build` computes step by step. */
  function KeysOf(lib: Library, index: Index, rows: seq<seq<Cell>>, column: nat): Keys {
    match index
    case ByColumn(_) => TextKeys(FiledOf(Slots(rows, column, AsText)))
    case ByIp =>
      var slots := Slots(rows, column, lib.asAddress);
      AddressKeys(FiledOf(slots), PositionsOf(slots, Unparsed))
    case ByPrefix =>
      var slots := Slots(rows, column, lib.PrefixKey);
      PrefixKeys(FiledOf(slots), PositionsOf(slots, Unparsed))
  }

  function KeysCost(lib: Library, alloc: Allocator, index: Index, rows: seq<seq<Cell>>, column: nat): nat {
    match index
    case ByColumn(_) => IndexCost(alloc, TextPrice(alloc), Slots(rows, column, AsText))
    case ByIp => IndexCost(alloc, AddressPrice(alloc), Slots(rows, column, lib.asAddress))
    case ByPrefix => IndexCost(alloc, NetPrice(), Slots(rows, column, lib.PrefixKey))
  }

  /** What a table is charged: its rows as the parse counted them, its names and its index. */
  function TableCost(lib: Library, alloc: Allocator, parsed: Parsed, index: Index, column: nat): nat {
    parsed.held + ColumnsCost(parsed.columns) + KeysCost(lib, alloc, index, parsed.rows, column)
  }

  /** The table a build under a ceiling comes to. */
  function Built(lib: Library, alloc: Allocator, parsed: Parsed, index: Index, ceiling: nat)
    : Result<Table, TableError>
  {
    if !Affordable(parsed.held + ColumnsCost(parsed.columns), ceiling) then Err(OverResidentCeiling(ceiling))
    else
      var column := KeyColumn(lib, index, parsed.columns, parsed.rows);
      if column.None? then Err(if index.ByColumn? then UnknownColumn else NoKeyColumn)
      else if !Affordable(TableCost(lib, alloc, parsed, index, column.value), ceiling)
        then Err(OverResidentCeiling(ceiling))
      else Ok(Table(parsed.columns, column.value, parsed.rows, KeysOf(lib, index, parsed.rows, column.value)))
  }

  lemma {:induction false} ColumnsCostGrows(columns: seq<Text>, n: nat)
    requires n <= |columns|
    ensures ColumnsCost(columns[..n]) <= ColumnsCost(columns)
  {
    if n == |columns| {
      assert columns[..n] == columns;
    } else {
      var rest := columns[..|columns| - 1];
      ColumnsCostGrows(rest, n);
      assert rest[..n] == columns[..n];
    }
  }

  method ChargeColumns(budget: Budget, columns: seq<Text>) returns (r: Outcome<TableError>)
    requires budget.Valid() && Affordable(budget.spent, budget.ceiling)
    modifies budget
    ensures budget.Valid()
    ensures var total := old(budget.spent) + ColumnsCost(columns);
            && r == (if Affordable(total, budget.ceiling) then Pass else Fail(OverResidentCeiling(budget.ceiling)))
            && (r.Pass? ==> budget.spent == total)
  {
    for n := 0 to |columns|
      invariant budget.Valid() && Affordable(budget.spent, budget.ceiling)
      invariant budget.spent == old(budget.spent) + ColumnsCost(columns[..n])
    {
      assert columns[..n + 1][..n] == columns[..n];
      r := budget.Charge(|columns[n]| + 24);
      if r.Fail? {
        ColumnsCostGrows(columns, n + 1);
        return;
      }
    }
    assert columns[..|columns|] == columns;
    r := Pass;
  }

  method FindKeyColumn(lib: Library, index: Index, columns: seq<Text>, rows: seq<seq<Cell>>)
      returns (r: Option<nat>)
    ensures r == KeyColumn(lib, index, columns, rows)
    ensures Picks(lib, index, columns, rows, r)
  {
    KeyColumnPicks(lib, index, columns, rows);
    if index.ByColumn? {
      return PositionOf(columns, index.name);
    }
    var named := FirstFrom(IsConventional(lib, index, columns), 0, |columns|);
    if named.Some? {
      var holds := Holds(lib, index, rows, named.value);
      if holds {
        return named;
      }
    }
    for c := 0 to |columns|
      invariant forall d :: 0 <= d < c ==> !HoldsKeys(lib, index, rows, d)
    {
      var holds := Holds(lib, index, rows, c);
      if holds {
        FirstIs(IsKeyColumn(lib, index, rows), |columns|, c);
        return Some(c);
      }
    }
    return None;
  }

  /** The build, step by step; it comes to `Built`. */
  method Build(lib: Library, alloc: Allocator, parsed: Parsed, index: Index, ceiling: nat)
      returns (r: Result<Table, TableError>)
    requires parsed.held <= U64_MAX && Affordable(parsed.held, ceiling)
    ensures r == Built(lib, alloc, parsed, index, ceiling)
    ensures r.Ok? ==> Picks(lib, index, parsed.columns, parsed.rows, Some(r.value.keyColumn))
    ensures r == Err(UnknownColumn) ==> index.ByColumn? && Picks(lib, index, parsed.columns, parsed.rows, None)
    ensures r == Err(NoKeyColumn) ==> !index.ByColumn? && Picks(lib, index, parsed.columns, parsed.rows, None)
  {
    var budget := new Budget(parsed.held, ceiling);
    var charged := ChargeColumns(budget, parsed.columns);
    if charged.Fail? {
      return Err(charged.error);
    }
    var column := FindKeyColumn(lib, index, parsed.columns, parsed.rows);
    if column.None? {
      return Err(if index.ByColumn? then UnknownColumn else NoKeyColumn);
    }
    var keys: Keys;
    match index {
      case ByColumn(_) =>
        var filed;
        charged, filed := IndexText(budget, alloc, parsed.rows, column.value);
        keys := TextKeys(filed);
      case ByIp =>
        var filed, unindexed;
        charged, filed, unindexed := IndexAddresses(lib, budget, alloc, parsed.rows, column.value);
        keys := AddressKeys(filed, unindexed);
      case ByPrefix =>
        var filed, unindexed;
        charged, filed, unindexed := IndexPrefixes(lib, budget, alloc, parsed.rows, column.value);
        keys := PrefixKeys(filed, unindexed);
    }
    if charged.Fail? {
      return Err(charged.error);
    }
    return Ok(Table(parsed.columns, column.value, parsed.rows, keys));
  }

  // ----- The index is a partition of the rows ---------------------------------------------------

  /** The positions a key cell's text puts a row among, whatever the kind of index. */
  function Bucket(lib: Library, keys: Keys, text: Text): seq<nat> {
    match keys
    case TextKeys(filed) => ListUnder(filed, text)
    case AddressKeys(filed, unindexed) =>
      var key := lib.asAddress(text);
      if key.Some? then ListUnder(filed, key.value) else unindexed
    case PrefixKeys(filed, unindexed) =>
      var key := lib.PrefixKey(text);
      if key.Some? then ListUnder(filed, key.value) else unindexed
  }

  /** Two key cells the index cannot tell apart. */
  ghost predicate SameKey(lib: Library, index: Index, a: Text, b: Text) {
    match index
    case ByColumn(_) => a == b
    case ByIp => lib.asAddress(a) == lib.asAddress(b)
    case ByPrefix => lib.PrefixKey(a) == lib.PrefixKey(b)
  }

  lemma BucketOfSlots<K>(slots: seq<Slot<K>>, slot: Slot<K>, list: seq<nat>)
    requires slot.Under? ==> list == ListUnder(FiledOf(slots), slot.key)
    requires slot.Unparsed? ==> list == PositionsOf(slots, Unparsed)
    requires !slot.Keyless?
    ensures Ascending(list)
    ensures forall at :: at in list <==> 0 <= at < |slots| && slots[at] == slot
  {
    PositionsExact(slots, slot);
    if slot.Under? {
      ListUnderExact(slots, slot.key);
    }
  }

  /**
   * The list a text leads to is exactly the rows whose key cell the index cannot
   * tell from it, in file order. So each row with a key cell is in the one list
   * its text leads to, and in no other; a row without one is in none.
   */
  lemma BucketExact(lib: Library, index: Index, rows: seq<seq<Cell>>, column: nat, text: Text)
    ensures var list := Bucket(lib, KeysOf(lib, index, rows, column), text);
            && Ascending(list)
            && forall at :: at in list <==>
                 && 0 <= at < |rows|
                 && CellAt(rows[at], column).Some?
                 && SameKey(lib, index, CellAt(rows[at], column).value, text)
  {
    var list := Bucket(lib, KeysOf(lib, index, rows, column), text);
    match index
    case ByColumn(_) => BucketOfSlots(Slots(rows, column, AsText), Under(text), list);
    case ByIp => BucketOfSlots(Slots(rows, column, lib.asAddress), SlotOf(Some(text), lib.asAddress), list);
    case ByPrefix => BucketOfSlots(Slots(rows, column, lib.PrefixKey), SlotOf(Some(text), lib.PrefixKey), list);
  }
}
