/** The bounded walk that keeps the fields of one database record. */
module Extra {
  import opened Basics

  const MAX_FIELDS: nat := 512
  const MAX_BYTES: nat := 65536
  const DOT: u8 := 46
  const ZERO: u8 := 48

  /** A value a field holds; `Scalar` is every kind that holds nothing on the heap. */
  datatype Value = Str(text: Text) | Bytes(bytes: Text) | Scalar(code: int)

  datatype Field = Field(path: Text, value: Value)

  /** A record as it is stored. `Unreadable` is where decoding it fails. */
  datatype Node = Leaf(value: Value) | Mapping(entries: seq<Entry>) | Listing(items: seq<Node>) | Unreadable
  datatype Entry = Entry(key: Text, node: Node)

  datatype Undecodable = Undecodable

  /** What the fields kept so far have come to. */
  datatype Kept = Kept(fields: seq<Field>, bytes: nat, full: bool)

  const NOTHING: Kept := Kept([], 0, false)

  // ----- The record, flattened ---------------------------------------------------------

  /** What a depth-first walk comes to next. */
  datatype Found = Leaf(field: Field) | Broken

  function Decimal(n: nat): Text {
    (if n < 10 then [] else Decimal(n / 10)) + [ZERO + (n % 10) as u8]
  }

  /** A path with one more step: a dot in between, unless nothing is before it. */
  function Joined(path: Text, step: Text): Text {
    (if path == [] then [] else path + [DOT]) + step
  }

  /** Every leaf of a record, in source order, under its dotted path. */
  function Leaves(node: Node, path: Text): seq<Found>
    decreases node, 0
  {
    match node
    case Leaf(value) => [Found.Leaf(Field(path, value))]
    case Mapping(entries) => EntryLeaves(entries, path)
    case Listing(items) => ItemLeaves(items, path)
    case Unreadable => [Broken]
  }

  function EntryLeaves(entries: seq<Entry>, path: Text): seq<Found>
    decreases entries, 1
  {
    if entries == [] then []
    else
      var last := entries[|entries| - 1];
      EntryLeaves(entries[..|entries| - 1], path) + Leaves(last.node, Joined(path, last.key))
  }

  function ItemLeaves(items: seq<Node>, path: Text): seq<Found>
    decreases items, 1
  {
    if items == [] then []
    else
      var n := |items| - 1;
      ItemLeaves(items[..n], path) + Leaves(items[n], Joined(path, Decimal(n)))
  }

  // ----- The budgets -----------------------------------------------------------------------

  /** What a value adds to the byte budget. */
  function Payload(value: Value): nat {
    match value
    case Str(text) => |text|
    case Bytes(bytes) => |bytes|
    case Scalar(_) => 0
  }

  function FieldCost(field: Field): nat {
    |field.path| + Payload(field.value)
  }

  function FieldsCost(fields: seq<Field>): nat {
    if fields == [] then 0 else FieldsCost(fields[..|fields| - 1]) + FieldCost(fields[|fields| - 1])
  }

  function Pushed(kept: Kept, field: Field): Kept {
    if kept.bytes + FieldCost(field) > MAX_BYTES then kept.(full := true)
    else Kept(kept.fields + [field], kept.bytes + FieldCost(field), |kept.fields| + 1 >= MAX_FIELDS)
  }

  /** Taking leaves one by one until a bound is reached or one is broken. */
  function Fed(kept: Kept, leaves: seq<Found>): Result<Kept, Undecodable> {
    if leaves == [] then Ok(kept)
    else
      var before := Fed(kept, leaves[..|leaves| - 1]);
      if before.Err? || before.value.full then before
      else
        match leaves[|leaves| - 1]
        case Leaf(field) => Ok(Pushed(before.value, field))
        case Broken => Err(Undecodable)
  }

  lemma {:induction false} FedInTwo(kept: Kept, a: seq<Found>, b: seq<Found>)
    ensures Fed(kept, a + b) == if Fed(kept, a).Err? then Fed(kept, a) else Fed(Fed(kept, a).value, b)
  {
    if b == [] {
      assert a + b == a;
    } else {
      var n := |b| - 1;
      assert (a + b)[..|a + b| - 1] == a + b[..n];
      FedInTwo(kept, a, b[..n]);
    }
  }

  lemma {:induction false} FedFull(kept: Kept, leaves: seq<Found>)
    requires kept.full
    ensures Fed(kept, leaves) == Ok(kept)
  {
    if leaves != [] {
      FedFull(kept, leaves[..|leaves| - 1]);
    }
  }

  // ----- The walk ------------------------------------------------------------------------------

  /** The walk's state: both budgets, and the path buffer every position shares. */
  class Walk {
    var fields: seq<Field>
    var bytes: nat
    var full: bool

    /** The buffer that steps are appended to and cut off again. */
    var path: Text

    ghost function View(): Kept
      reads this
    {
      Kept(fields, bytes, full)
    }

    constructor ()
      ensures View() == NOTHING && path == []
    {
      fields, bytes, full, path := [], 0, false, [];
    }

    /** Keep one leaf, or drop it and stop when it would pass the bound. */
    method Push(value: Value)
      requires !full
      modifies `fields, `bytes, `full
      ensures View() == Pushed(old(View()), Field(path, value))
    {
      var cost := |path| + Payload(value);
      if bytes + cost > MAX_BYTES {
        full := true;
        return;
      }
      bytes := bytes + cost;
      fields := fields + [Field(path, value)];
      full := |fields| >= MAX_FIELDS;
    }

    /** Step into a key or an index. */
    method Enter(step: Text)
      modifies `path
      ensures path == Joined(old(path), step)
    {
      if |path| != 0 {
        path := path + [DOT];
      }
      path := path + step;
    }

    /** Step back out. */
    method Leave(parent: nat)
      requires parent <= |path|
      modifies `path
      ensures path == old(path)[..parent]
    {
      path := path[..parent];
    }

    /**
     * Read one value: what is kept is what feeding its leaves one by one keeps,
     * and the path is as it was found.
     */
    method Visit(node: Node) returns (r: Outcome<Undecodable>)
      requires !full
      modifies this
      ensures var fed := Fed(old(View()), Leaves(node, old(path)));
              && (r.Fail? <==> fed.Err?)
              && (r.Pass? ==> View() == fed.value && path == old(path))
      decreases node, 1
    {
      match node {
        case Leaf(value) =>
          assert Fed(View(), []) == Ok(View());
          Push(value);
          return Pass;
        case Mapping(entries) =>
          r := VisitMap(entries);
        case Listing(items) =>
          r := VisitSeq(items);
        case Unreadable =>
          assert Fed(View(), []) == Ok(View());
          return Fail(Undecodable);
      }
    }

    method VisitMap(entries: seq<Entry>) returns (r: Outcome<Undecodable>)
      requires !full
      modifies this
      ensures var fed := Fed(old(View()), EntryLeaves(entries, old(path)));
              && (r.Fail? <==> fed.Err?)
              && (r.Pass? ==> View() == fed.value && path == old(path))
      decreases entries, 2
    {
      ghost var start, root := View(), path;
      var i := 0;
      while !full
        invariant path == root
        invariant EntriesTo(start, entries, i, root, View())
        decreases |entries| - i
      {
        if i == |entries| {
          break;
        }
        var parent := |path|;
        EntriesNext(start, entries, i, root, View());
        Enter(entries[i].key);
        assert path[..parent] == root;
        r := Visit(entries[i].node);
        if r.Fail? {
          return;
        }
        Leave(parent);
        i := i + 1;
      }
      EntriesStop(start, entries, i, root);
      return Pass;
    }

    method VisitSeq(items: seq<Node>) returns (r: Outcome<Undecodable>)
      requires !full
      modifies this
      ensures var fed := Fed(old(View()), ItemLeaves(items, old(path)));
              && (r.Fail? <==> fed.Err?)
              && (r.Pass? ==> View() == fed.value && path == old(path))
      decreases items, 2
    {
      ghost var start, root := View(), path;
      var index := 0;
      while !full
        invariant path == root
        invariant ItemsTo(start, items, index, root, View())
        decreases |items| - index
      {
        var parent := |path|;
        Enter(Decimal(index));
        assert path[..parent] == root;
        if index == |items| {
          Leave(parent);
          break;
        }
        ItemsNext(start, items, index, root, View());
        r := Visit(items[index]);
        if r.Fail? {
          return;
        }
        Leave(parent);
        index := index + 1;
      }
      ItemsStop(start, items, index, root);
      return Pass;
    }
  }

  // ----- Stopping early is reading all of it ---------------------------------------------------

  /** Feeding the first entries kept this much. */
  ghost predicate EntriesTo(start: Kept, entries: seq<Entry>, i: nat, root: Text, kept: Kept) {
    i <= |entries| && Fed(start, EntryLeaves(entries[..i], root)) == Ok(kept)
  }

  ghost predicate ItemsTo(start: Kept, items: seq<Node>, i: nat, root: Text, kept: Kept) {
    i <= |items| && Fed(start, ItemLeaves(items[..i], root)) == Ok(kept)
  }

  lemma EntriesNext(start: Kept, entries: seq<Entry>, i: nat, root: Text, kept: Kept)
    requires i < |entries| && EntriesTo(start, entries, i, root, kept)
    ensures var fed := Fed(kept, Leaves(entries[i].node, Joined(root, entries[i].key)));
            if fed.Err? then Fed(start, EntryLeaves(entries, root)).Err?
            else EntriesTo(start, entries, i + 1, root, fed.value)
  {
    assert entries[..i + 1][..i] == entries[..i];
    FedInTwo(start, EntryLeaves(entries[..i], root), Leaves(entries[i].node, Joined(root, entries[i].key)));
    if Fed(start, EntryLeaves(entries[..i + 1], root)).Err? {
      EntriesStop(start, entries, i + 1, root);
    }
  }

  lemma {:induction false} EntriesStop(start: Kept, entries: seq<Entry>, i: nat, root: Text)
    requires i <= |entries|
    requires var fed := Fed(start, EntryLeaves(entries[..i], root)); fed.Err? || fed.value.full || i == |entries|
    ensures Fed(start, EntryLeaves(entries, root)) == Fed(start, EntryLeaves(entries[..i], root))
    decreases |entries| - i
  {
    if i == |entries| {
      assert entries[..i] == entries;
    } else {
      var leaves := Leaves(entries[i].node, Joined(root, entries[i].key));
      assert entries[..i + 1][..i] == entries[..i];
      FedInTwo(start, EntryLeaves(entries[..i], root), leaves);
      if Fed(start, EntryLeaves(entries[..i], root)).Ok? {
        FedFull(Fed(start, EntryLeaves(entries[..i], root)).value, leaves);
      }
      EntriesStop(start, entries, i + 1, root);
    }
  }

  lemma ItemsNext(start: Kept, items: seq<Node>, i: nat, root: Text, kept: Kept)
    requires i < |items| && ItemsTo(start, items, i, root, kept)
    ensures var fed := Fed(kept, Leaves(items[i], Joined(root, Decimal(i))));
            if fed.Err? then Fed(start, ItemLeaves(items, root)).Err?
            else ItemsTo(start, items, i + 1, root, fed.value)
  {
    assert items[..i + 1][..i] == items[..i];
    FedInTwo(start, ItemLeaves(items[..i], root), Leaves(items[i], Joined(root, Decimal(i))));
    if Fed(start, ItemLeaves(items[..i + 1], root)).Err? {
      ItemsStop(start, items, i + 1, root);
    }
  }

  lemma {:induction false} ItemsStop(start: Kept, items: seq<Node>, i: nat, root: Text)
    requires i <= |items|
    requires var fed := Fed(start, ItemLeaves(items[..i], root)); fed.Err? || fed.value.full || i == |items|
    ensures Fed(start, ItemLeaves(items, root)) == Fed(start, ItemLeaves(items[..i], root))
    decreases |items| - i
  {
    if i == |items| {
      assert items[..i] == items;
    } else {
      var leaves := Leaves(items[i], Joined(root, Decimal(i)));
      assert items[..i + 1][..i] == items[..i];
      FedInTwo(start, ItemLeaves(items[..i], root), leaves);
      if Fed(start, ItemLeaves(items[..i], root)).Ok? {
        FedFull(Fed(start, ItemLeaves(items[..i], root)).value, leaves);
      }
      ItemsStop(start, items, i + 1, root);
    }
  }

  // ----- What is kept is as much as fits --------------------------------------------------------

  /** The first leaves are all readable. */
  ghost predicate Readable(leaves: seq<Found>, n: nat) {
    n <= |leaves| && forall i :: 0 <= i < n ==> leaves[i].Leaf?
  }

  /** The fields of the first leaves. */
  ghost function FieldsOf(leaves: seq<Found>, n: nat): (fields: seq<Field>)
    requires Readable(leaves, n)
    ensures |fields| == n
  {
    if n == 0 then [] else FieldsOf(leaves, n - 1) + [leaves[n - 1].field]
  }

  /** What the first leaves cost together. */
  ghost function PrefixCost(leaves: seq<Found>, n: nat): nat
    requires Readable(leaves, n)
  {
    FieldsCost(FieldsOf(leaves, n))
  }

  lemma PrefixCostNext(leaves: seq<Found>, n: nat)
    requires Readable(leaves, n + 1)
    ensures PrefixCost(leaves, n + 1) == PrefixCost(leaves, n) + FieldCost(leaves[n].field)
  {
    assert FieldsOf(leaves, n + 1)[..n] == FieldsOf(leaves, n);
  }

  lemma {:induction false} FieldsOfExtended(leaves: seq<Found>, last: Found, n: nat)
    requires Readable(leaves, n)
    ensures Readable(leaves + [last], n) && FieldsOf(leaves + [last], n) == FieldsOf(leaves, n)
  {
    if n > 0 {
      FieldsOfExtended(leaves, last, n - 1);
    }
  }

  /**
   * The fields kept are a prefix of the depth-first leaves within both bounds,
   * charged exactly; the walk is full when the count is reached or the next leaf
   * would pass the bytes, and not otherwise.
   */
  ghost predicate Prefix(kept: Kept, leaves: seq<Found>) {
    var k := |kept.fields|;
    && k <= MAX_FIELDS
    && Readable(leaves, k)
    && kept.fields == FieldsOf(leaves, k)
    && kept.bytes == PrefixCost(leaves, k) <= MAX_BYTES
    && (kept.full <==> k == MAX_FIELDS || k < |leaves|)
    && (k < |leaves| && k < MAX_FIELDS ==>
          Readable(leaves, k + 1) && PrefixCost(leaves, k + 1) > MAX_BYTES)
  }

  lemma PrefixNext(kept: Kept, leaves: seq<Found>, field: Field, all: seq<Found>)
    requires Prefix(kept, leaves) && !kept.full && all == leaves + [Found.Leaf(field)]
    ensures Prefix(Pushed(kept, field), all)
  {
    var n := |leaves|;
    FieldsOfExtended(leaves, Found.Leaf(field), n);
    assert all[n] == Found.Leaf(field);
    PrefixCostNext(all, n);
  }

  lemma PrefixStays(kept: Kept, leaves: seq<Found>, last: Found, all: seq<Found>)
    requires Prefix(kept, leaves) && kept.full && all == leaves + [last]
    ensures Prefix(kept, all)
  {
    var k := |kept.fields|;
    FieldsOfExtended(leaves, last, k);
    if k < |leaves| && k < MAX_FIELDS {
      FieldsOfExtended(leaves, last, k + 1);
    }
  }

  lemma {:induction false} KeptIsAPrefix(leaves: seq<Found>)
    requires Fed(NOTHING, leaves).Ok?
    ensures Prefix(Fed(NOTHING, leaves).value, leaves)
  {
    if leaves != [] {
      var n := |leaves| - 1;
      var rest, last := leaves[..n], leaves[n];
      assert leaves == rest + [last];
      KeptIsAPrefix(rest);
      var before := Fed(NOTHING, rest).value;
      if before.full {
        PrefixStays(before, rest, last, leaves);
      } else {
        PrefixNext(before, rest, last.field, leaves);
      }
    }
  }

  /** The bytes some fields hold on the heap: every path, and every text and byte string. */
  function HeapBytes(fields: seq<Field>): nat {
    if fields == [] then 0
    else
      var last := fields[|fields| - 1];
      HeapBytes(fields[..|fields| - 1]) + |last.path| + match last.value
        case Str(text) => |text|
        case Bytes(bytes) => |bytes|
        case Scalar(_) => 0
  }

  lemma {:induction false} HeapIsCost(fields: seq<Field>)
    ensures HeapBytes(fields) == FieldsCost(fields)
  {
    if fields != [] {
      HeapIsCost(fields[..|fields| - 1]);
    }
  }

  /**
   * In numbers: at most 512 fields are kept, of at most 65536 bytes together; and
   * where leaves are left over, the count is reached or the next of them would pass
   * the bytes.
   */
  lemma KeptInNumbers(leaves: seq<Found>)
    requires Fed(NOTHING, leaves).Ok?
    ensures var kept := Fed(NOTHING, leaves).value;
            && |kept.fields| <= 512 && kept.bytes == HeapBytes(kept.fields) <= 65536
            && (|kept.fields| < |leaves| && |kept.fields| < 512 ==>
                  leaves[|kept.fields|].Leaf? && HeapBytes(kept.fields + [leaves[|kept.fields|].field]) > 65536)
  {
    KeptIsAPrefix(leaves);
    var fields := Fed(NOTHING, leaves).value.fields;
    HeapIsCost(fields);
    if |fields| < |leaves| && |fields| < MAX_FIELDS {
      var more := fields + [leaves[|fields|].field];
      assert more[..|fields|] == fields;
      PrefixCostNext(leaves, |fields|);
      HeapIsCost(more);
    }
  }

  lemma {:induction false} LongerCostsMore(leaves: seq<Found>, k: nat, j: nat)
    requires k <= j && Readable(leaves, j)
    ensures PrefixCost(leaves, k) <= PrefixCost(leaves, j)
  {
    if k < j {
      LongerCostsMore(leaves, k, j - 1);
      PrefixCostNext(leaves, j - 1);
    }
  }

  /** No longer prefix of the leaves fits both bounds. */
  lemma KeptIsMaximal(leaves: seq<Found>, j: nat)
    requires Fed(NOTHING, leaves).Ok? && |Fed(NOTHING, leaves).value.fields| < j && Readable(leaves, j)
    ensures j > MAX_FIELDS || PrefixCost(leaves, j) > MAX_BYTES
  {
    KeptIsAPrefix(leaves);
    var k := |Fed(NOTHING, leaves).value.fields|;
    if k < MAX_FIELDS {
      LongerCostsMore(leaves, k + 1, j);
    }
  }

  lemma {:induction false} AffordableIsKept(leaves: seq<Found>, n: nat)
    requires n < MAX_FIELDS && Readable(leaves, n) && PrefixCost(leaves, n) <= MAX_BYTES
    ensures Fed(NOTHING, leaves[..n]) == Ok(Kept(FieldsOf(leaves, n), PrefixCost(leaves, n), false))
  {
    if n > 0 {
      assert leaves[..n][..n - 1] == leaves[..n - 1];
      PrefixCostNext(leaves, n - 1);
      AffordableIsKept(leaves, n - 1);
    }
  }

  /** A leaf that does not decode, reached with room still left for one. */
  ghost predicate Reached(leaves: seq<Found>, k: nat) {
    && k < |leaves| && k < MAX_FIELDS
    && leaves[k].Broken?
    && Readable(leaves, k)
    && PrefixCost(leaves, k) <= MAX_BYTES
  }

  /** A record fails to decode exactly when what is broken in it comes before a bound is reached. */
  lemma UndecodableExactlyWhenReached(leaves: seq<Found>)
    ensures Fed(NOTHING, leaves).Err? <==> exists k: nat :: Reached(leaves, k)
  {
    if exists k: nat :: Reached(leaves, k) {
      var k: nat :| Reached(leaves, k);
      ReachedIsErr(leaves, k);
    }
    if Fed(NOTHING, leaves).Err? {
      var k := ErrIsReached(leaves);
    }
  }

  /** What does not decode, met with room left, is the end of it. */
  lemma BrokenIsErr(before: seq<Found>, rest: seq<Found>)
    requires Fed(NOTHING, before).Ok? && !Fed(NOTHING, before).value.full
    ensures Fed(NOTHING, before + [Broken] + rest).Err?
  {
    assert (before + [Broken])[..|before|] == before;
    FedInTwo(NOTHING, before + [Broken], rest);
  }

  lemma ReachedIsErr(leaves: seq<Found>, k: nat)
    requires Reached(leaves, k)
    ensures Fed(NOTHING, leaves).Err?
  {
    AffordableIsKept(leaves, k);
    assert leaves == leaves[..k] + [Broken] + leaves[k + 1..];
    BrokenIsErr(leaves[..k], leaves[k + 1..]);
  }

  lemma {:induction false} ErrIsReached(leaves: seq<Found>) returns (k: nat)
    requires Fed(NOTHING, leaves).Err?
    ensures Reached(leaves, k)
  {
    var n := |leaves| - 1;
    var rest, last := leaves[..n], leaves[n];
    assert leaves == rest + [last];
    if Fed(NOTHING, rest).Err? {
      k := ErrIsReached(rest);
    } else {
      KeptIsAPrefix(rest);
      k := n;
    }
    FieldsOfExtended(rest, last, k);
  }

  // ----- Collecting -----------------------------------------------------------------------------

  /** The fields left after dropping every typed one. */
  function Untyped(fields: seq<Field>, typed: Field -> bool): seq<Field> {
    if fields == [] then []
    else
      var last := fields[|fields| - 1];
      Untyped(fields[..|fields| - 1], typed) + if typed(last) then [] else [last]
  }

  /** Some fields picked out at some places: all places that are not typed, in order. */
  ghost predicate PickedAt(fields: seq<Field>, typed: Field -> bool, at: seq<nat>, kept: seq<Field>) {
    && |at| == |kept|
    && (forall i, j :: 0 <= i < j < |at| ==> at[i] < at[j])
    && (forall i :: 0 <= i < |at| ==> at[i] < |fields| && kept[i] == fields[at[i]])
    && (forall k: nat :: k in at <==> k < |fields| && !typed(fields[k]))
  }

  lemma PickedNext(fields: seq<Field>, typed: Field -> bool, at: seq<nat>, kept: seq<Field>, last: Field)
    requires PickedAt(fields, typed, at, kept)
    ensures typed(last) ==> PickedAt(fields + [last], typed, at, kept)
    ensures !typed(last) ==> PickedAt(fields + [last], typed, at + [|fields|], kept + [last])
  {
    var all := fields + [last];
    assert forall k: nat :: k < |fields| ==> all[k] == fields[k];
    assert all[|fields|] == last;
  }

  /** The untyped fields are the ones not typed, every one of them, in the order they were in. */
  lemma {:induction false} UntypedInOrder(fields: seq<Field>, typed: Field -> bool) returns (at: seq<nat>)
    ensures PickedAt(fields, typed, at, Untyped(fields, typed))
  {
    if fields == [] {
      at := [];
    } else {
      var rest, last := fields[..|fields| - 1], fields[|fields| - 1];
      var before := UntypedInOrder(rest, typed);
      PickedNext(rest, typed, before, Untyped(rest, typed), last);
      assert fields == rest + [last];
      at := if typed(last) then before else before + [|rest|];
      assert Untyped(rest, typed) + [] == Untyped(rest, typed);
    }
  }

  /** A record's kept fields, typed ones dropped, behind those already there. */
  method Collect(record: Option<Node>, typed: Field -> bool, extra: seq<Field>) returns (extra': seq<Field>)
    ensures var fed := if record.Some? then Fed(NOTHING, Leaves(record.value, [])) else Ok(NOTHING);
            extra' == if fed.Err? then extra else extra + Untyped(fed.value.fields, typed)
  {
    extra' := extra;
    if record.None? {
      return;
    }
    var walk := new Walk();
    var r := walk.Visit(record.value);
    if r.Fail? {
      return;
    }
    var fields := walk.fields;
    for i := 0 to |fields|
      invariant extra' == extra + Untyped(fields[..i], typed)
    {
      assert fields[..i + 1][..i] == fields[..i];
      if !typed(fields[i]) {
        extra' := extra' + [fields[i]];
      }
    }
    assert fields[..|fields|] == fields;
  }
}
