/** What an index is charged, added up over its keys rather than its rows. */
module IndexCost {
  import opened Basics
  import opened Rows
  import opened Tables

  /** Lists and maps ask for nothing while they are empty, and never for less as they grow. */
  ghost predicate Grows(alloc: Allocator) {
    && alloc.list(0) == 0 && (forall n: nat :: alloc.list(n) <= alloc.list(n + 1))
    && alloc.slots(0) == 0 && (forall n: nat :: alloc.slots(n) <= alloc.slots(n + 1))
  }

  /** The bytes of the position lists of some keys, 8 a position asked for. */
  function ListBytes<K(==)>(alloc: Allocator, filed: map<K, seq<nat>>, keys: seq<K>): nat {
    if keys == [] then 0
    else
      var n := |keys| - 1;
      ListBytes(alloc, filed, keys[..n]) + 8 * alloc.list(|ListUnder(filed, keys[n])|)
  }

  /** The bytes of the buckets a map of some entries has asked for, an eighth of them empty. */
  ghost function BucketBytes(alloc: Allocator, entries: nat, bucket: nat): nat
    requires Grows(alloc)
  {
    if entries == 0 then 0
    else
      assert alloc.slots(entries - 1) <= alloc.slots(entries - 1 + 1);
      BucketBytes(alloc, entries - 1, bucket) + Buckets(alloc.slots(entries) - alloc.slots(entries - 1), bucket)
  }

  function Buckets(more: nat, bucket: nat): nat {
    more * bucket * 8 / 7
  }

  /** The bytes of the texts that are keys. */
  function KeyBytes(used: set<Text>, keys: seq<Text>): nat {
    if keys == [] then 0
    else
      var n := |keys| - 1;
      KeyBytes(used, keys[..n]) + if keys[n] in used then |keys[n]| else 0
  }

  /** What the keys alone cost, as they turn up. */
  function Prices<K(==)>(price: (K, nat) -> nat, slots: seq<Slot<K>>): nat {
    if slots == [] then 0
    else
      var before, last := slots[..|slots| - 1], slots[|slots| - 1];
      Prices(price, before) +
      if last.Under? && last.key !in KeySet(before) then price(last.key, |KeySet(before)|) else 0
  }

  lemma {:induction false} ListBytesGrows<K>(alloc: Allocator, filed: map<K, seq<nat>>, keys: seq<K>, key: K, at: nat)
    requires Grows(alloc) && Distinct(keys)
    ensures ListBytes(alloc, filed[key := ListUnder(filed, key) + [at]], keys) ==
            ListBytes(alloc, filed, keys)
            + if key in keys then ListGrowth(alloc, |ListUnder(filed, key)|) else 0
  {
    if keys != [] {
      var rest := keys[..|keys| - 1];
      ListBytesGrows(alloc, filed, rest, key, at);
      assert keys == rest + [keys[|keys| - 1]];
      assert alloc.list(|ListUnder(filed, key)|) <= alloc.list(|ListUnder(filed, key)| + 1);
    }
  }

  lemma {:induction false} NoListBytes<K>(alloc: Allocator, keys: seq<K>)
    requires Grows(alloc)
    ensures ListBytes<K>(alloc, map[], keys) == 0
  {
    if keys != [] {
      NoListBytes(alloc, keys[..|keys| - 1]);
    }
  }

  /** An index costs its lists, and its keys. */
  lemma {:induction false} CostIsListsAndPrices<K>(alloc: Allocator, price: (K, nat) -> nat, slots: seq<Slot<K>>,
                                                   keys: seq<K>)
    requires Grows(alloc) && Distinct(keys) && forall key <- KeySet(slots) :: key in keys
    ensures IndexCost(alloc, price, slots) ==
            ListBytes(alloc, FiledOf(slots), keys) + 8 * alloc.list(|PositionsOf(slots, Unparsed)|)
            + Prices(price, slots)
  {
    if slots == [] {
      assert FiledOf(slots) == map[];
      NoListBytes(alloc, keys);
    } else {
      var rest, last := slots[..|slots| - 1], slots[|slots| - 1];
      assert slots == rest + [last];
      CostIsListsAndPrices(alloc, price, rest, keys);
      FiledSnoc(rest, last);
      PositionsSnoc(rest, last, Unparsed);
      assert alloc.list(|PositionsOf(rest, Unparsed)|) <= alloc.list(|PositionsOf(rest, Unparsed)| + 1);
      if last.Under? {
        ListUnderExact(rest, last.key);
        ListBytesGrows(alloc, FiledOf(rest), keys, last.key, |rest|);
      }
    }
  }

  lemma KeySetNext<K>(slots: seq<Slot<K>>)
    requires slots != []
    ensures var before, last := KeySet(slots[..|slots| - 1]), slots[|slots| - 1];
            |KeySet(slots)| == |before| + if last.Under? && last.key !in before then 1 else 0
  {
    var before, last := KeySet(slots[..|slots| - 1]), slots[|slots| - 1];
    if last.Under? && last.key in before {
      assert before + {last.key} == before;
    }
  }

  lemma {:induction false} NetPrices(slots: seq<Slot<Net>>)
    ensures Prices(NetPrice(), slots) == 160 * |KeySet(slots)|
  {
    if slots != [] {
      NetPrices(slots[..|slots| - 1]);
      KeySetNext(slots);
    }
  }

  lemma {:induction false} AddressPrices(alloc: Allocator, slots: seq<Slot<Address>>)
    requires Grows(alloc)
    ensures Prices(AddressPrice(alloc), slots) == BucketBytes(alloc, |KeySet(slots)|, 49)
  {
    if slots != [] {
      var before := slots[..|slots| - 1];
      AddressPrices(alloc, before);
      KeySetNext(slots);
      GrowthIs(alloc, |KeySet(before)|, ADDRESS_BUCKET);
    }
  }

  lemma GrowthIs(alloc: Allocator, entries: nat, bucket: nat)
    requires Grows(alloc)
    ensures BucketBytes(alloc, entries + 1, bucket) ==
            BucketBytes(alloc, entries, bucket) + MapGrowth(alloc, entries, bucket)
  {
    assert alloc.slots(entries) <= alloc.slots(entries + 1);
  }

  lemma {:induction false} TextPrices(alloc: Allocator, slots: seq<Slot<Text>>, keys: seq<Text>)
    requires Grows(alloc) && Distinct(keys) && forall key <- KeySet(slots) :: key in keys
    ensures Prices(TextPrice(alloc), slots) ==
            KeyBytes(KeySet(slots), keys) + BucketBytes(alloc, |KeySet(slots)|, 41)
  {
    if slots == [] {
      NoKeyBytes(keys);
    } else {
      var before, last := slots[..|slots| - 1], slots[|slots| - 1];
      TextPrices(alloc, before, keys);
      KeySetNext(slots);
      GrowthIs(alloc, |KeySet(before)|, TEXT_BUCKET);
      if last.Under? {
        assert last.key in KeySet(slots);
        KeyBytesGrow(KeySet(before), keys, last.key);
      }
    }
  }

  lemma {:induction false} NoKeyBytes(keys: seq<Text>)
    ensures KeyBytes({}, keys) == 0
  {
    if keys != [] {
      NoKeyBytes(keys[..|keys| - 1]);
    }
  }

  lemma {:induction false} KeyBytesGrow(used: set<Text>, keys: seq<Text>, key: Text)
    requires Distinct(keys)
    ensures KeyBytes(used + {key}, keys) ==
            KeyBytes(used, keys) + if key in keys && key !in used then |key| else 0
  {
    if keys != [] {
      var rest := keys[..|keys| - 1];
      KeyBytesGrow(used, rest, key);
      assert keys == rest + [keys[|keys| - 1]];
    }
  }

  /** A list that names every key in use once. */
  ghost predicate Names<K(!new)>(slots: seq<Slot<K>>, keys: seq<K>) {
    Distinct(keys) && forall key <- KeySet(slots) :: key in keys
  }

  /**
   * What building an index is charged depends on the keys and on how many rows each
   * has, and not on the order they come in. By text: 8 bytes a position its lists
   * ask for, each key's own bytes, and 41 a bucket.
   */
  lemma TextIndexCosts(lib: Library, alloc: Allocator, name: Text, rows: seq<seq<Cell>>, column: nat, keys: seq<Text>)
    requires Grows(alloc) && Names(Slots(rows, column, AsText), keys)
    ensures var slots := Slots(rows, column, AsText);
            KeysCost(lib, alloc, ByColumn(name), rows, column) ==
            ListBytes(alloc, FiledOf(slots), keys) + KeyBytes(KeySet(slots), keys)
            + BucketBytes(alloc, |KeySet(slots)|, 41)
  {
    var slots := Slots(rows, column, AsText);
    NeverUnparsed(slots);
    CostIsListsAndPrices(alloc, TextPrice(alloc), slots, keys);
    TextPrices(alloc, slots, keys);
  }

  /** By address: 8 bytes a position, the list of those that are no address included, and 49 a bucket. */
  lemma AddressIndexCosts(lib: Library, alloc: Allocator, rows: seq<seq<Cell>>, column: nat, keys: seq<Address>)
    requires Grows(alloc) && Names(Slots(rows, column, lib.asAddress), keys)
    ensures var slots := Slots(rows, column, lib.asAddress);
            KeysCost(lib, alloc, ByIp, rows, column) ==
            ListBytes(alloc, FiledOf(slots), keys) + 8 * alloc.list(|PositionsOf(slots, Unparsed)|)
            + BucketBytes(alloc, |KeySet(slots)|, 49)
  {
    var slots := Slots(rows, column, lib.asAddress);
    CostIsListsAndPrices(alloc, AddressPrice(alloc), slots, keys);
    AddressPrices(alloc, slots);
  }

  /** By network: 8 bytes a position, the same included, and 160 a network. */
  lemma PrefixIndexCosts(lib: Library, alloc: Allocator, rows: seq<seq<Cell>>, column: nat, keys: seq<Net>)
    requires Grows(alloc) && Names(Slots(rows, column, lib.PrefixKey), keys)
    ensures var slots := Slots(rows, column, lib.PrefixKey);
            KeysCost(lib, alloc, ByPrefix, rows, column) ==
            ListBytes(alloc, FiledOf(slots), keys) + 8 * alloc.list(|PositionsOf(slots, Unparsed)|)
            + 160 * |KeySet(slots)|
  {
    var slots := Slots(rows, column, lib.PrefixKey);
    CostIsListsAndPrices(alloc, NetPrice(), slots, keys);
    NetPrices(slots);
  }

  /** The bytes of some names. */
  function NameBytes(columns: seq<Text>): nat {
    if columns == [] then 0 else NameBytes(columns[..|columns| - 1]) + |columns[|columns| - 1]|
  }

  /** Names are charged their own bytes, and 24 each. */
  lemma {:induction false} ColumnsCostIs(columns: seq<Text>)
    ensures ColumnsCost(columns) == NameBytes(columns) + 24 * |columns|
  {
    if columns != [] {
      ColumnsCostIs(columns[..|columns| - 1]);
    }
  }
}
