/** Noticing that a database file was replaced, while it may be replaced again. */
module Refresh {
  import opened Basics

  /** One version of a file: a replacement is a rename, so a version is whole. */
  datatype Version = Version(mtime: int, content: int, len: nat, opens: bool)

  /** The file at each moment, absent when there is none. Anything may happen between two. */
  type Disk = seq<Option<Version>>

  /** The moments one check reads the time, then the length, then the file. */
  datatype Look = Look(stat: nat, size: nat, open: nat)

  datatype Backing = Resident(content: int) | Mapped(content: int)

  datatype Unreadable = Unreadable

  /** A database in use: the recorded time, and the reader in place. */
  datatype Database = Database(mtime: Option<int>, reader: Backing)

  ghost predicate Within(disk: Disk, look: Look) {
    look.stat <= look.size <= look.open < |disk|
  }

  function Mtime(file: Option<Version>): Option<int> {
    if file.Some? then Some(file.value.mtime) else None
  }

  /** Open what is there, mapped when it was past the ceiling or had no length to read. */
  function OpenBacking(sized: Option<Version>, file: Option<Version>, ceiling: nat): Result<Backing, Unreadable> {
    if file.None? || !file.value.opens then Err(Unreadable)
    else if sized.None? || sized.value.len > ceiling then Ok(Mapped(file.value.content))
    else Ok(Resident(file.value.content))
  }

  /**
   * A file that opens is mapped exactly when it is longer than the ceiling or its
   * length could not be read, and is read onto the heap otherwise; either way the
   * reader is of the file that was opened.
   */
  lemma MappedPastTheCeiling(disk: Disk, look: Look, ceiling: nat)
    requires Within(disk, look)
    ensures var db := OpenSource(disk, look, ceiling);
            && (db.Ok? <==> disk[look.open].Some? && disk[look.open].value.opens)
            && (db.Ok? ==>
                  && db.value.reader.content == disk[look.open].value.content
                  && (db.value.reader.Mapped? <==>
                        disk[look.size].None? || disk[look.size].value.len > ceiling))
  {
  }

  /** The database a first look leads to. */
  function OpenSource(disk: Disk, look: Look, ceiling: nat): Result<Database, Unreadable>
    requires Within(disk, look)
  {
    var backing := OpenBacking(disk[look.size], disk[look.open], ceiling);
    if backing.Err? then Err(backing.error) else Ok(Database(Mtime(disk[look.stat]), backing.value))
  }

  /** The database a check leaves, and whether it was reopened. */
  function Checked(db: Database, disk: Disk, look: Look, ceiling: nat): (Database, Result<bool, Unreadable>)
    requires Within(disk, look)
  {
    var mtime := Mtime(disk[look.stat]);
    if mtime.None? || mtime == db.mtime then (db, Ok(false))
    else
      var backing := OpenBacking(disk[look.size], disk[look.open], ceiling);
      if backing.Err? then (db, Err(backing.error)) else (Database(mtime, backing.value), Ok(true))
  }

  /** The file one reader was opened from. */
  class Source {
    var mtime: Option<int>

    constructor (mtime: Option<int>)
      ensures this.mtime == mtime
    {
      this.mtime := mtime;
    }

    /** One check, its effect on the recorded time and the reader it hands over. */
    method Reopen(reader: Backing, disk: Disk, look: Look, ceiling: nat)
      returns (r: Result<Option<Backing>, Unreadable>)
      requires Within(disk, look)
      modifies this
      ensures var (db, outcome) := Checked(Database(old(mtime), reader), disk, look, ceiling);
              && mtime == db.mtime
              && r == if outcome.Err? then Err(outcome.error) else Ok(if outcome.value then Some(db.reader) else None)
    {
      var seen := Mtime(disk[look.stat]);
      if seen.None? || seen == mtime {
        return Ok(None);
      }
      var backing := OpenBacking(disk[look.size], disk[look.open], ceiling);
      if backing.Err? {
        return Err(backing.error);
      }
      mtime := seen;
      return Ok(Some(backing.value));
    }
  }

  /** Both databases, either of which may not have been provisioned. */
  class GeoIp {
    const city: Option<Source>
    const asn: Option<Source>
    const ceiling: nat
    var cityReader: Option<Backing>
    var asnReader: Option<Backing>

    /** How many reader sets were installed after the first; each clears the cache. */
    var swaps: nat

    ghost predicate Valid()
      reads `cityReader, `asnReader
    {
      && (city.Some? <==> cityReader.Some?)
      && (asn.Some? <==> asnReader.Some?)
      && (city.Some? && asn.Some? ==> city.value != asn.value)
    }

    ghost function View(source: Option<Source>, reader: Option<Backing>): Option<Database>
      reads if source.Some? then {source.value} else {}
    {
      if source.Some? && reader.Some? then Some(Database(source.value.mtime, reader.value)) else None
    }

    constructor (cityOpened: Option<Database>, asnOpened: Option<Database>, ceiling: nat)
      ensures Valid() && this.ceiling == ceiling && swaps == 0
      ensures View(city, cityReader) == cityOpened && View(asn, asnReader) == asnOpened
      ensures fresh(if city.Some? then {city.value} else {}) && fresh(if asn.Some? then {asn.value} else {})
    {
      var citySource, asnSource := None, None;
      if cityOpened.Some? {
        var source := new Source(cityOpened.value.mtime);
        citySource := Some(source);
      }
      if asnOpened.Some? {
        var source := new Source(asnOpened.value.mtime);
        asnSource := Some(source);
      }
      city, asn, this.ceiling, swaps := citySource, asnSource, ceiling, 0;
      cityReader := if cityOpened.Some? then Some(cityOpened.value.reader) else None;
      asnReader := if asnOpened.Some? then Some(asnOpened.value.reader) else None;
    }

    /**
     * Both checks. Neither outcome depends on the other's file; the readers are
     * swapped once if either hands one over, and the first failure is reported.
     */
    method RefreshIfChanged(cityDisk: Disk, cityLook: Look, asnDisk: Disk, asnLook: Look)
        returns (r: Result<bool, Unreadable>)
      requires Valid() && Within(cityDisk, cityLook) && Within(asnDisk, asnLook)
      modifies this, if city.Some? then {city.value} else {}, if asn.Some? then {asn.value} else {}
      ensures Valid()
      ensures city.Some? ==>
                var before := Database(old(city.value.mtime), old(cityReader).value);
                Database(city.value.mtime, cityReader.value) == Checked(before, cityDisk, cityLook, ceiling).0
      ensures asn.Some? ==>
                var before := Database(old(asn.value.mtime), old(asnReader).value);
                Database(asn.value.mtime, asnReader.value) == Checked(before, asnDisk, asnLook, ceiling).0
      ensures var a := Noticed(old(View(city, cityReader)), cityDisk, cityLook, ceiling);
              var b := Noticed(old(View(asn, asnReader)), asnDisk, asnLook, ceiling);
              var changed := a == Ok(true) || b == Ok(true);
              && r == (if a.Err? then a else if b.Err? then b else Ok(changed))
              && swaps == old(swaps) + if changed then 1 else 0
    {
      var nextCity, nextAsn := cityReader, asnReader;
      var changed, failure := false, None;
      if city.Some? {
        var reopened := city.value.Reopen(cityReader.value, cityDisk, cityLook, ceiling);
        match reopened {
          case Ok(Some(reader)) => nextCity, changed := Some(reader), true;
          case Ok(None) =>
          case Err(e) => failure := Some(e);
        }
      }
      if asn.Some? {
        var reopened := asn.value.Reopen(asnReader.value, asnDisk, asnLook, ceiling);
        match reopened {
          case Ok(Some(reader)) => nextAsn, changed := Some(reader), true;
          case Ok(None) =>
          case Err(e) => failure := if failure.Some? then failure else Some(e);
        }
      }
      if changed {
        cityReader, asnReader, swaps := nextCity, nextAsn, swaps + 1;
      }
      return if failure.Some? then Err(failure.value) else Ok(changed);
    }
  }

  /** What a check of a database comes to; one not provisioned is never changed. */
  function Noticed(db: Option<Database>, disk: Disk, look: Look, ceiling: nat): Result<bool, Unreadable>
    requires Within(disk, look)
  {
    if db.None? then Ok(false) else Checked(db.value, disk, look, ceiling).1
  }

  // ----- Any number of checks -----------------------------------------------------------

  /** Checks one after another: the lock that serialises them. */
  ghost predicate InOrder(disk: Disk, looks: seq<Look>) {
    && (forall i :: 0 <= i < |looks| ==> Within(disk, looks[i]))
    && forall i, j :: 0 <= i < j < |looks| ==> looks[i].open <= looks[j].stat
  }

  /** The database as it was opened by the first look and left by the checks after it. */
  function After(disk: Disk, looks: seq<Look>, ceiling: nat): Result<Database, Unreadable>
    requires looks != [] && forall i :: 0 <= i < |looks| ==> Within(disk, looks[i])
  {
    var n := |looks| - 1;
    if n == 0 then OpenSource(disk, looks[0], ceiling)
    else
      var before := After(disk, looks[..n], ceiling);
      if before.Err? then before else Ok(Checked(before.value, disk, looks[n], ceiling).0)
  }

  /** Each replacement carries a time no version before it had. */
  ghost predicate FreshTimes(disk: Disk) {
    forall i, j, k :: 0 <= i <= j <= k < |disk| ==>
      disk[i].Some? && disk[k].Some? && disk[i].value.mtime == disk[k].value.mtime && disk[j].Some? ==>
        disk[i] == disk[j] == disk[k]
  }

  /** The reader is of a version no older than the one whose time was recorded. */
  ghost predicate Noted(disk: Disk, db: Database, end: nat) {
    exists stat, open ::
      && 0 <= stat <= open <= end < |disk|
      && db.mtime == Mtime(disk[stat])
      && disk[open].Some?
      && db.reader.content == disk[open].value.content
  }

  /** What is opened is never older than what is recorded, whenever the file was replaced. */
  lemma {:induction false} NeverOlderThanNoted(disk: Disk, looks: seq<Look>, ceiling: nat)
    requires looks != [] && InOrder(disk, looks) && After(disk, looks, ceiling).Ok?
    ensures Noted(disk, After(disk, looks, ceiling).value, looks[|looks| - 1].open)
  {
    var n := |looks| - 1;
    if n > 0 {
      NeverOlderThanNoted(disk, looks[..n], ceiling);
      var db := After(disk, looks[..n], ceiling).value;
      var stat, open :| 0 <= stat <= open <= looks[n - 1].open && db.mtime == Mtime(disk[stat])
                        && disk[open].Some? && db.reader.content == disk[open].value.content;
      assert looks[n - 1].open <= looks[n].open;
    }
  }

  /**
   * When every replacement has a fresh time, a check that finds the time it
   * recorded leaves in place a reader of the very file it looked at.
   */
  lemma {:induction false} UnchangedIsCurrent(disk: Disk, looks: seq<Look>, look: Look, ceiling: nat)
    requires looks != [] && InOrder(disk, looks) && FreshTimes(disk)
    requires Within(disk, look) && looks[|looks| - 1].open <= look.stat
    requires After(disk, looks, ceiling).Ok?
    requires disk[look.stat].Some?
    requires Checked(After(disk, looks, ceiling).value, disk, look, ceiling).1 == Ok(false)
    ensures After(disk, looks, ceiling).value.reader.content == disk[look.stat].value.content
  {
    NeverOlderThanNoted(disk, looks, ceiling);
  }

  /**
   * A check that does not fail, of a file that is there and stays while it is
   * looked at, ends with a reader of that file, whatever came before.
   */
  lemma {:induction false} Converges(disk: Disk, looks: seq<Look>, look: Look, ceiling: nat)
    requires looks != [] && InOrder(disk, looks) && FreshTimes(disk)
    requires Within(disk, look) && looks[|looks| - 1].open <= look.stat
    requires After(disk, looks, ceiling).Ok?
    requires disk[look.stat].Some? && forall k :: look.stat <= k <= look.open ==> disk[k] == disk[look.stat]
    ensures var (db, r) := Checked(After(disk, looks, ceiling).value, disk, look, ceiling);
            && (r.Ok? ==> db.reader.content == disk[look.stat].value.content)
            && (r.Err? ==> !disk[look.stat].value.opens)
  {
    var db := After(disk, looks, ceiling).value;
    if Checked(db, disk, look, ceiling).1 == Ok(false) {
      UnchangedIsCurrent(disk, looks, look, ceiling);
    }
  }

  /**
   * A reopen that fails leaves the reader and the time, so every check of the
   * file from then on tries it again until it opens or its old time is back.
   */
  lemma FailureIsRetried(db: Database, disk: Disk, look: Look, again: Look, ceiling: nat)
    requires Within(disk, look) && Within(disk, again)
    requires Checked(db, disk, look, ceiling).1.Err?
    ensures var left := Checked(db, disk, look, ceiling).0;
            && left == db
            && (Mtime(disk[again.stat]) == Mtime(disk[look.stat]) ==>
                  Checked(left, disk, again, ceiling).1 != Ok(false))
  {
  }

  /** A look at a file of the time recorded, or of none that can be read. */
  ghost predicate LooksUnmoved(disk: Disk, look: Look, mtime: Option<int>) {
    Within(disk, look) && (disk[look.stat].Some? ==> Mtime(disk[look.stat]) == mtime)
  }

  /**
   * Without fresh times it does not converge: while the file bears the time that
   * was recorded, or no time can be read, no number of checks changes anything,
   * whatever the file holds.
   */
  lemma {:induction false} SameTimeIsMissed(disk: Disk, looks: seq<Look>, more: seq<Look>, ceiling: nat)
    requires looks != [] && (forall i :: 0 <= i < |looks| ==> Within(disk, looks[i])) && After(disk, looks, ceiling).Ok?
    requires forall i :: 0 <= i < |more| ==> LooksUnmoved(disk, more[i], After(disk, looks, ceiling).value.mtime)
    ensures var all := looks + more;
            && (forall i :: 0 <= i < |all| ==> Within(disk, all[i]))
            && After(disk, all, ceiling) == After(disk, looks, ceiling)
  {
    var all := looks + more;
    if more == [] {
      assert all == looks;
    } else {
      var n := |more| - 1;
      SameTimeIsMissed(disk, looks, more[..n], ceiling);
      assert all[..|all| - 1] == looks + more[..n];
    }
  }

  /**
   * A check leaves in place a reader of other content than the file it looked at
   * exactly when that file bears the recorded time: every other one is reopened,
   * or reported.
   */
  lemma OutdatedExactlyAtTheSameTime(db: Database, disk: Disk, look: Look, ceiling: nat)
    requires Within(disk, look) && disk[look.stat].Some? && db.reader.content != disk[look.stat].value.content
    ensures Checked(db, disk, look, ceiling) == (db, Ok(false)) <==> db.mtime == Some(disk[look.stat].value.mtime)
  {
  }

  /** There is such a file: one replaced by another of the same time. */
  lemma SomeFileIsMissed(mtime: int, a: int, b: int)
    ensures exists disk: Disk, first: Look, look: Look ::
              && Within(disk, first) && Within(disk, look) && first.open <= look.stat
              && disk[look.stat] == Some(Version(mtime, b, 0, true))
              && After(disk, [first], 0) == Ok(Database(Some(mtime), Resident(a)))
              && Checked(After(disk, [first], 0).value, disk, look, 0) ==
                 (Database(Some(mtime), Resident(a)), Ok(false))
  {
    var disk := [Some(Version(mtime, a, 0, true)), Some(Version(mtime, b, 0, true))];
    var first, look := Look(0, 0, 0), Look(1, 1, 1);
    assert After(disk, [first], 0) == Ok(Database(Some(mtime), Resident(a)));
    assert Within(disk, look);
  }

  /** Opening a file the other way about: the file first, then its time. */
  function OpenThenStat(disk: Disk, open: nat, stat: nat, ceiling: nat): Result<Database, Unreadable>
    requires open <= stat < |disk|
  {
    var backing := OpenBacking(disk[open], disk[open], ceiling);
    if backing.Err? then Err(backing.error) else Ok(Database(Mtime(disk[stat]), backing.value))
  }

  /**
   * Why the time is read first: the other way about, a replacement between the
   * two is never noticed, however often the file is checked, while it stays.
   */
  lemma OtherOrderNeverNotices(disk: Disk, open: nat, stat: nat, look: Look, ceiling: nat)
    requires open <= stat < |disk| && OpenThenStat(disk, open, stat, ceiling).Ok?
    requires disk[stat].Some? && disk[stat].value.content != disk[open].value.content
    requires Within(disk, look) && stat <= look.stat
    requires forall k :: stat <= k < |disk| ==> disk[k] == disk[stat]
    ensures var db := OpenThenStat(disk, open, stat, ceiling).value;
            && db.reader.content != disk[look.stat].value.content
            && Checked(db, disk, look, ceiling) == (db, Ok(false))
  {
  }
}
