/** The order of texts, byte by byte, and what being strictly sorted by it means. */
module Order {
  import opened Basics

  predicate Less(a: Text, b: Text) {
    b != [] && (a == [] || a[0] < b[0] || (a[0] == b[0] && Less(a[1..], b[1..])))
  }

  /** A text comes before another where they first differ, or where it ends first. */
  lemma {:induction false} LessAtFirstDifference(a: Text, b: Text)
    ensures Less(a, b) <==>
            exists k: nat :: k < |b| && k <= |a| && a[..k] == b[..k] && (k == |a| || a[k] < b[k])
  {
    if a != [] && b != [] {
      LessAtFirstDifference(a[1..], b[1..]);
      if k: nat :| k < |b| && k <= |a| && a[..k] == b[..k] && (k == |a| || a[k] < b[k]) && k > 0 {
        assert a[..k][0] == b[..k][0];
        assert a[1..][..k - 1] == a[..k][1..] && b[1..][..k - 1] == b[..k][1..];
      }
      if a[0] == b[0] && Less(a[1..], b[1..]) {
        var k: nat :| k < |b[1..]| && k <= |a[1..]| && a[1..][..k] == b[1..][..k]
                      && (k == |a[1..]| || a[1..][k] < b[1..][k]);
        assert a[..k + 1] == [a[0]] + a[1..][..k] && b[..k + 1] == [b[0]] + b[1..][..k];
      }
      if a[0] < b[0] {
        assert a[..0] == b[..0];
      }
    } else if b != [] {
      assert a[..0] == b[..0];
    }
  }

  lemma {:induction false} LessTransitive(a: Text, b: Text, c: Text)
    requires Less(a, b) && Less(b, c)
    ensures Less(a, c)
  {
    if a != [] && a[0] == b[0] && b[0] == c[0] {
      LessTransitive(a[1..], b[1..], c[1..]);
    }
  }

  lemma {:induction false} LessTotal(a: Text, b: Text)
    ensures Less(a, b) || a == b || Less(b, a)
  {
    if a != [] && b != [] && a[0] == b[0] {
      LessTotal(a[1..], b[1..]);
      if a[1..] == b[1..] {
        assert a == [a[0]] + a[1..] && b == [b[0]] + b[1..];
      }
    }
  }

  lemma {:induction false} LessIrreflexive(a: Text)
    ensures !Less(a, a)
  {
    if a != [] {
      LessIrreflexive(a[1..]);
    }
  }

  ghost predicate Sorted(texts: seq<Text>) {
    forall i, j :: 0 <= i < j < |texts| ==> Less(texts[i], texts[j])
  }

  ghost predicate AllLess(texts: seq<Text>, key: Text) {
    forall i :: 0 <= i < |texts| ==> Less(texts[i], key)
  }

  ghost predicate AllGreater(key: Text, texts: seq<Text>) {
    forall i :: 0 <= i < |texts| ==> Less(key, texts[i])
  }

  /** Where a key belongs among strictly sorted texts that lack it. */
  ghost predicate Belongs(texts: seq<Text>, at: nat, key: Text) {
    at <= |texts| && AllLess(texts[..at], key) && AllGreater(key, texts[at..])
  }

  lemma InsertSorted(texts: seq<Text>, at: nat, key: Text)
    requires Sorted(texts) && Belongs(texts, at, key)
    ensures Sorted(texts[..at] + [key] + texts[at..])
  {
    var grown := texts[..at] + [key] + texts[at..];
    forall i, j | 0 <= i < j < |grown|
      ensures Less(grown[i], grown[j])
    {
      if i == at {
        assert grown[j] == texts[at..][j - at - 1];
      } else if j == at {
        assert grown[i] == texts[..at][i];
      } else {
        assert grown[i] == texts[if i < at then i else i - 1];
        assert grown[j] == texts[if j < at then j else j - 1];
      }
    }
  }

  /** A set has one strictly sorted enumeration. */
  lemma {:induction false} SortedUnique(a: seq<Text>, b: seq<Text>)
    requires Sorted(a) && Sorted(b)
    requires forall t :: t in a <==> t in b
    ensures a == b
  {
    if b != [] {
      assert b[0] in a;
    }
    if a != [] {
      assert a[0] in b;
      LessIrreflexive(a[0]);
      var i :| 0 <= i < |a| && a[i] == b[0];
      var j :| 0 <= j < |b| && b[j] == a[0];
      if i > 0 && j > 0 {
        LessTransitive(a[0], b[0], a[0]);
      }
      assert a[0] == b[0];
      forall t ensures t in a[1..] <==> t in b[1..] {
        TailOf(a, t);
        TailOf(b, t);
      }
      SortedUnique(a[1..], b[1..]);
      assert a == [a[0]] + a[1..] && b == [b[0]] + b[1..];
    }
  }

  function ToSet(texts: seq<Text>): set<Text> {
    set t | t in texts
  }

  /** Strictly sorted texts are as many as they are different. */
  lemma {:induction false} SortedCount(a: seq<Text>)
    requires Sorted(a)
    ensures |ToSet(a)| == |a|
  {
    if a != [] {
      SortedCount(a[1..]);
      forall t ensures t in a[1..] <==> t in a && t != a[0] {
        TailOf(a, t);
      }
      assert ToSet(a) == ToSet(a[1..]) + {a[0]};
    }
  }

  lemma TailOf(a: seq<Text>, t: Text)
    requires Sorted(a) && a != []
    ensures t in a[1..] <==> t in a && t != a[0]
  {
    LessIrreflexive(a[0]);
    if t in a && t != a[0] {
      var i :| 0 <= i < |a| && a[i] == t;
      assert a[1..][i - 1] == t;
    }
    if t in a[1..] {
      var i :| 0 <= i < |a[1..]| && a[1..][i] == t;
      assert a[i + 1] == t;
    }
  }

  /** `binary_search`: where the key is, or where it belongs. */
  method Search(texts: seq<Text>, key: Text) returns (found: bool, at: nat)
    requires Sorted(texts)
    ensures found == (key in texts)
    ensures found ==> at < |texts| && texts[at] == key
    ensures !found ==> Belongs(texts, at, key)
  {
    var low, high := 0, |texts|;
    while low < high
      invariant low <= high <= |texts|
      invariant AllLess(texts[..low], key) && AllGreater(key, texts[high..])
    {
      var middle := low + (high - low) / 2;
      LessTotal(texts[middle], key);
      if texts[middle] == key {
        return true, middle;
      } else if Less(texts[middle], key) {
        BelowIsLess(texts, middle, key);
        low := middle + 1;
      } else {
        AboveIsGreater(texts, middle, key);
        high := middle;
      }
    }
    NotThere(texts, low, key);
    return false, low;
  }

  lemma BelowIsLess(texts: seq<Text>, middle: nat, key: Text)
    requires Sorted(texts) && middle < |texts| && Less(texts[middle], key)
    ensures AllLess(texts[..middle + 1], key)
  {
    forall i | 0 <= i <= middle
      ensures Less(texts[i], key)
    {
      if i < middle {
        LessTransitive(texts[i], texts[middle], key);
      }
    }
  }

  lemma AboveIsGreater(texts: seq<Text>, middle: nat, key: Text)
    requires Sorted(texts) && middle < |texts| && Less(key, texts[middle])
    ensures AllGreater(key, texts[middle..])
  {
    forall i | middle <= i < |texts|
      ensures Less(key, texts[i])
    {
      if i > middle {
        LessTransitive(key, texts[middle], texts[i]);
      }
    }
  }

  lemma NotThere(texts: seq<Text>, at: nat, key: Text)
    requires Belongs(texts, at, key)
    ensures key !in texts
  {
    LessIrreflexive(key);
    forall i | 0 <= i < |texts|
      ensures texts[i] != key
    {
      if i < at {
        assert texts[i] == texts[..at][i];
      } else {
        assert texts[i] == texts[at..][i - at];
      }
    }
  }

  /** How many of the texts come before a key. */
  function Place(texts: seq<Text>, key: Text): nat {
    if texts == [] || !Less(texts[0], key) then 0 else 1 + Place(texts[1..], key)
  }

  lemma {:induction false} PlaceBelongs(texts: seq<Text>, key: Text)
    requires Sorted(texts) && key !in texts
    ensures Belongs(texts, Place(texts, key), key)
  {
    if texts != [] && Less(texts[0], key) {
      var rest, at := texts[1..], Place(texts[1..], key);
      PlaceBelongs(rest, key);
      assert texts[at + 1..] == rest[at..];
      forall i | 0 <= i < at + 1
        ensures Less(texts[i], key)
      {
        if i > 0 {
          assert texts[i] == rest[..at][i - 1];
        }
      }
    } else if texts != [] {
      LessTotal(texts[0], key);
      AboveIsGreater(texts, 0, key);
    }
  }
}
