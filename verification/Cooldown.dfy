/** When a request to a provider may be sent at all. */
module Cooldown {
  import opened Basics

  /** The default wait, in seconds. */
  const FLOOR_SECS: nat := 3600

  /** The cap on every wait, in seconds. */
  const CEILING_SECS: nat := 86400

  type Path = int
  type Fingerprint = int

  datatype Error =
    | Http | UnexpectedStatus(status: nat) | Io | Join | MissingCredential | ArchiveMemberMissing
    | TooLarge | NoDatabases | UnsupportedTier | ChecksumMismatch | MalformedChecksum | NotADatabase
    | Busy | NotEntitled | Unparseable | CredentialRejected | RateLimited(retryAfter: Option<nat>)
    | Unpopulated | Undersized | InvalidSetting | Truncated | CoolingDown

  /** Failures that stay failures under the same configuration. */
  predicate Permanent(error: Error) {
    match error
    case CredentialRejected => true
    case MissingCredential => true
    case NoDatabases => true
    case NotEntitled => true
    case InvalidSetting => true
    case UnsupportedTier => true
    case UnexpectedStatus(status) => 400 <= status < 500 && status != 408
    case _ => false
  }

  /** Failures of content: a body came, and was not taken. */
  predicate Refused(error: Error) {
    match error
    case ChecksumMismatch => true
    case MalformedChecksum => true
    case NotADatabase => true
    case Unparseable => true
    case Unpopulated => true
    case Undersized => true
    case Truncated => true
    case TooLarge => true
    case ArchiveMemberMissing => true
    case _ => false
  }

  /** What a failure asks to be stamped for; nothing for one a later attempt can mend. */
  function Asking(error: Error): Option<nat> {
    match error
    case RateLimited(retryAfter) => if retryAfter.Some? then retryAfter else Some(FLOOR_SECS)
    case _ => if Refused(error) then Some(FLOOR_SECS) else None
  }

  function Min(a: nat, b: nat): nat {
    if a < b then a else b
  }

  // ----- What is remembered, and what each call makes of it --------------------------------

  datatype Suppressed = Suppressed(fingerprint: Fingerprint, until: nat)

  /** Stamp files by the file they are for, unparseable ones as `None`, and what is held in memory. */
  datatype Memory = Memory(stamps: map<Path, Option<nat>>, held: map<Path, Suppressed>)

  predicate HeldBack(m: Memory, dest: Path, fingerprint: Fingerprint, now: nat) {
    dest in m.held && m.held[dest].fingerprint == fingerprint && now < m.held[dest].until
  }

  predicate Stamped(m: Memory, dest: Path, now: nat) {
    dest in m.stamps && m.stamps[dest].Some? && now < m.stamps[dest].value
  }

  /** What asking leaves: a suppression under another configuration, or run out, is dropped. */
  function AfterAsking(m: Memory, dest: Path, fingerprint: Fingerprint, now: nat): Memory {
    if HeldBack(m, dest, fingerprint, now) then m else m.(held := m.held - {dest})
  }

  function AfterFailing(
    m: Memory, dest: Path, error: Error, fingerprint: Fingerprint, now: nat, written: bool): Memory
  {
    if Permanent(error) then m.(held := m.held[dest := Suppressed(fingerprint, now + CEILING_SECS)])
    else if Asking(error).Some? && written then
      m.(stamps := m.stamps[dest := Some(now + Min(Asking(error).value, CEILING_SECS))])
    else m
  }

  /** The stamp is removed when the file system lets it be. */
  function AfterPassing(m: Memory, dest: Path, removed: bool): Memory {
    Memory(if removed then m.stamps - {dest} else m.stamps, m.held - {dest})
  }

  datatype Attempt<T> = Waiting(wait: nat) | Ran(result: Result<T, Error>)

  class CoolDowns {
    var stamps: map<Path, Option<nat>>
    var held: map<Path, Suppressed>

    ghost function View(): Memory
      reads this
    {
      Memory(stamps, held)
    }

    constructor (stamps: map<Path, Option<nat>>)
      ensures View() == Memory(stamps, map[])
    {
      this.stamps, this.held := stamps, map[];
    }

    /** The seconds a held failure has to go, where it holds this request. */
    method TimeHeld(dest: Path, fingerprint: Fingerprint, now: nat) returns (wait: Option<nat>)
      modifies `held
      ensures View() == AfterAsking(old(View()), dest, fingerprint, now)
      ensures wait.Some? <==> HeldBack(old(View()), dest, fingerprint, now)
      ensures wait.Some? ==> wait.value == held[dest].until - now
    {
      if dest !in held {
        assert held - {dest} == held;
        return None;
      }
      var entry := held[dest];
      var remaining := if entry.until > now then entry.until - now else 0;
      if entry.fingerprint != fingerprint || remaining == 0 {
        held := held - {dest};
        return None;
      }
      return Some(remaining);
    }

    /** Time left before a file may be fetched again. */
    method WaitFor(dest: Path, fingerprint: Fingerprint, now: nat) returns (wait: Option<nat>)
      modifies `held
      ensures View() == AfterAsking(old(View()), dest, fingerprint, now)
      ensures wait.Some? <==> HeldBack(old(View()), dest, fingerprint, now) || Stamped(old(View()), dest, now)
      ensures wait.Some? && !HeldBack(old(View()), dest, fingerprint, now) ==>
                wait.value == Min(stamps[dest].value - now, CEILING_SECS)
    {
      wait := TimeHeld(dest, fingerprint, now);
      if wait.Some? {
        return;
      }
      if dest !in stamps || stamps[dest].None? {
        return None;
      }
      var until := Min(stamps[dest].value, now + CEILING_SECS);
      return if until > now then Some(until - now) else None;
    }

    method Begin(dest: Path, error: Error, fingerprint: Fingerprint, now: nat, written: bool)
      modifies this
      ensures View() == AfterFailing(old(View()), dest, error, fingerprint, now, written)
    {
      if Permanent(error) {
        held := held[dest := Suppressed(fingerprint, now + CEILING_SECS)];
        return;
      }
      var wait;
      match error {
        case RateLimited(retryAfter) => wait := if retryAfter.Some? then retryAfter.value else FLOOR_SECS;
        case _ =>
          if !Refused(error) {
            return;
          }
          wait := FLOOR_SECS;
      }
      var until := now + Min(wait, CEILING_SECS);
      if written {
        stamps := stamps[dest := Some(until)];
      }
    }

    method Clear(dest: Path, removed: bool)
      modifies this
      ensures View() == AfterPassing(old(View()), dest, removed)
    {
      if removed {
        stamps := stamps - {dest};
      }
      held := held - {dest};
    }

    /**
     * Run a fetch unless its file is cooling down. `result` is how the fetch
     * would end and `ended` when; `landed` is whether the stamp could be written
     * or removed.
     */
    method Attempting<T>(dest: Option<Path>, fingerprint: Fingerprint, now: nat,
                         result: Result<T, Error>, ended: nat, landed: bool) returns (r: Attempt<T>)
      modifies this
      ensures r.Ran? ==> r.result == result
      ensures r.Waiting? <==>
                && dest.Some?
                && (HeldBack(old(View()), dest.value, fingerprint, now) || Stamped(old(View()), dest.value, now))
      ensures dest.None? ==> View() == old(View())
      ensures dest.Some? ==>
                var asked := AfterAsking(old(View()), dest.value, fingerprint, now);
                View() == if r.Waiting? then asked
                          else if result.Ok? then AfterPassing(asked, dest.value, landed)
                          else AfterFailing(asked, dest.value, result.error, fingerprint, ended, landed)
    {
      if dest.Some? {
        var wait := WaitFor(dest.value, fingerprint, now);
        if wait.Some? {
          return Waiting(wait.value);
        }
      }
      if dest.Some? {
        match result {
          case Ok(_) => Clear(dest.value, landed);
          case Err(e) => Begin(dest.value, e, fingerprint, ended, landed);
        }
      }
      return Ran(result);
    }
  }

  // ----- Runs of attempts, which may overlap --------------------------------------------------

  /** `sent` counts the requests for each file that have been sent and have not ended. */
  datatype World = World(memory: Memory, sent: multiset<Path>)

  datatype Event =
    | Ask(dest: Path, fingerprint: Fingerprint, now: nat)
    | Passed(dest: Path, now: nat, removed: bool)
    | Failed(dest: Path, fingerprint: Fingerprint, error: Error, now: nat, written: bool)
    | Restart(now: nat)

  predicate Sends(m: Memory, dest: Path, fingerprint: Fingerprint, now: nat) {
    !HeldBack(m, dest, fingerprint, now) && !Stamped(m, dest, now)
  }

  function Happens(w: World, e: Event): Option<World> {
    match e
    case Ask(dest, fingerprint, now) =>
      Some(World(AfterAsking(w.memory, dest, fingerprint, now),
                 if Sends(w.memory, dest, fingerprint, now) then w.sent + multiset{dest} else w.sent))
    case Passed(dest, _, removed) =>
      if dest !in w.sent then None
      else Some(World(AfterPassing(w.memory, dest, removed), w.sent - multiset{dest}))
    case Failed(dest, fingerprint, error, now, written) =>
      if dest !in w.sent then None
      else Some(World(AfterFailing(w.memory, dest, error, fingerprint, now, written), w.sent - multiset{dest}))
    case Restart(_) => Some(World(w.memory.(held := map[]), multiset{}))
  }

  /** A request ends only if it was sent: one more is out for an asking that was let through, and for no other. */
  lemma OnlyTheSentEnds(w: World, dest: Path, fingerprint: Fingerprint, now: nat, end: Event)
    requires w.sent[dest] == 0 && (end.Passed? || end.Failed?) && end.dest == dest
    ensures Happens(w, end).None?
    ensures var asked := Happens(w, Ask(dest, fingerprint, now)).value;
            && (Happens(asked, end).Some? <==>
                  !HeldBack(w.memory, dest, fingerprint, now) && !Stamped(w.memory, dest, now))
            && (Happens(asked, end).Some? ==> Happens(Happens(asked, end).value, end).None?)
  {
  }

  function Run(w: World, events: seq<Event>): Option<World> {
    if events == [] then Some(w)
    else
      var before := Run(w, events[..|events| - 1]);
      if before.None? then None else Happens(before.value, events[|events| - 1])
  }

  /** Nothing is asked at or after a time. */
  ghost predicate AskedBefore(events: seq<Event>, end: nat) {
    forall i :: 0 <= i < |events| && events[i].Ask? ==> events[i].now < end
  }

  /** The clock at the last of some events of a run that began at a time. */
  function Reached(events: seq<Event>, n: nat, start: nat): nat
    requires n <= |events|
  {
    if n == 0 then start else events[n - 1].now
  }

  /** The clock does not go back in a run, from the time it began at. */
  ghost predicate Clocked(events: seq<Event>, start: nat) {
    && (forall i :: 0 <= i < |events| ==> start <= events[i].now)
    && (forall i, j :: 0 <= i < j < |events| ==> events[i].now <= events[j].now)
  }

  /** A stamp, and no request for its file out. */
  ghost predicate Waits(w: World, dest: Path, until: nat) {
    dest in w.memory.stamps && w.memory.stamps[dest] == Some(until) && w.sent[dest] == 0
  }

  lemma StampStays(w: World, dest: Path, until: nat, e: Event)
    requires Waits(w, dest, until) && (e.Ask? ==> e.now < until) && Happens(w, e).Some?
    ensures Waits(Happens(w, e).value, dest, until)
  {
    match e
    case Ask(other, fingerprint, now) => assert other == dest ==> Stamped(w.memory, dest, now);
    case Passed(other, _, _) => assert other != dest;
    case Failed(other, _, _, _, _) => assert other != dest;
    case Restart(_) =>
  }

  lemma {:induction false} StampHolds(w: World, dest: Path, until: nat, events: seq<Event>)
    requires Waits(w, dest, until) && AskedBefore(events, until) && Run(w, events).Some?
    ensures Waits(Run(w, events).value, dest, until)
  {
    if events != [] {
      var n := |events| - 1;
      StampHolds(w, dest, until, events[..n]);
      StampStays(Run(w, events[..n]).value, dest, until, events[n]);
    }
  }

  /** The wait a recorded refusal asks for ends then. */
  function WaitsUntil(error: Error, now: nat): nat
    requires Asking(error).Some?
  {
    now + Min(Asking(error).value, CEILING_SECS)
  }

  /** A stamp that holds a file back at least until a time. */
  ghost predicate Stands(m: Memory, dest: Path, until: nat) {
    0 < until ==> dest in m.stamps && m.stamps[dest].Some? && until <= m.stamps[dest].value
  }

  /** The end, in time, of a request that overlapped: it passed, or was refused for less long. */
  predicate CutsShort(e: Event, dest: Path, until: nat) {
    && e.now < until
    && match e
       case Passed(other, _, removed) => other == dest && removed
       case Failed(other, _, error, now, written) =>
         other == dest && written && !Permanent(error) && Asking(error).Some? && WaitsUntil(error, now) < until
       case _ => false
  }

  lemma StandsUnlessCut(w: World, dest: Path, until: nat, e: Event)
    requires Stands(w.memory, dest, until) && Happens(w, e).Some? && e.now < until && !CutsShort(e, dest, until)
    ensures Stands(Happens(w, e).value.memory, dest, until)
  {
    match e
    case Failed(other, _, error, _, _) => assert other != dest || Permanent(error) || Asking(error).None? || !e.written
                                               || until <= WaitsUntil(error, e.now);
    case _ =>
  }

  lemma CutSends(w: World, dest: Path, until: nat, e: Event) returns (other: Fingerprint)
    requires Happens(w, e).Some? && CutsShort(e, dest, until)
    ensures 0 < until && Sends(Happens(w, e).value.memory, dest, other, until - 1)
  {
    var m := Happens(w, e).value.memory;
    other := if dest in m.held then m.held[dest].fingerprint + 1 else 0;
  }

  /** After some of the events of a run, at a time no earlier, a request for a file would be sent. */
  ghost predicate SendsAfter(w: World, events: seq<Event>, start: nat, n: nat, dest: Path, other: Fingerprint,
                             later: nat) {
    && n <= |events|
    && Reached(events, n, start) <= later
    && Run(w, events[..n]).Some?
    && Sends(Run(w, events[..n]).value.memory, dest, other, later)
  }

  lemma {:induction false} RunsSoFar(w: World, events: seq<Event>, n: nat)
    requires Run(w, events).Some? && n <= |events|
    ensures Run(w, events[..n]).Some?
  {
    if n == |events| {
      assert events[..n] == events;
    } else {
      RunsSoFar(w, events[..|events| - 1], n);
      assert events[..|events| - 1][..n] == events[..n];
    }
  }

  lemma RunNext(w: World, events: seq<Event>, i: nat)
    requires Run(w, events).Some? && i < |events|
    ensures Run(w, events[..i]).Some? && Happens(Run(w, events[..i]).value, events[i]).Some?
    ensures Run(w, events[..i + 1]) == Happens(Run(w, events[..i]).value, events[i])
  {
    RunsSoFar(w, events, i);
    RunsSoFar(w, events, i + 1);
    assert events[..i + 1][..i] == events[..i];
  }

  lemma {:induction false} UncutStands(w: World, dest: Path, until: nat, events: seq<Event>, n: nat)
    requires Stands(w.memory, dest, until) && Run(w, events).Some? && n <= |events|
    requires forall i :: 0 <= i < n ==> events[i].now < until && !CutsShort(events[i], dest, until)
    ensures Run(w, events[..n]).Some? && Stands(Run(w, events[..n]).value.memory, dest, until)
  {
    if n > 0 {
      UncutStands(w, dest, until, events, n - 1);
      RunNext(w, events, n - 1);
      StandsUnlessCut(Run(w, events[..n - 1]).value, dest, until, events[n - 1]);
    }
  }

  /** Somewhere in a run a request for a file would be sent before a time, under some configuration. */
  ghost predicate LetThrough(w: World, events: seq<Event>, start: nat, dest: Path, until: nat) {
    exists n: nat, other, later: nat :: later < until && SendsAfter(w, events, start, n, dest, other, later)
  }

  ghost predicate CutBySome(events: seq<Event>, dest: Path, until: nat) {
    exists i :: 0 <= i < |events| && CutsShort(events[i], dest, until)
  }

  lemma LetThroughWhenCut(w: World, events: seq<Event>, start: nat, dest: Path, until: nat)
    requires Run(w, events).Some? && CutBySome(events, dest, until)
    ensures LetThrough(w, events, start, dest, until)
  {
    var i :| 0 <= i < |events| && CutsShort(events[i], dest, until);
    RunNext(w, events, i);
    var other := CutSends(Run(w, events[..i]).value, dest, until, events[i]);
    assert SendsAfter(w, events, start, i + 1, dest, other, until - 1);
  }

  lemma NotLetThroughUncut(w: World, events: seq<Event>, start: nat, dest: Path, until: nat)
    requires Run(w, events).Some? && Clocked(events, start)
    requires Stands(w.memory, dest, until) && !CutBySome(events, dest, until)
    ensures !LetThrough(w, events, start, dest, until)
  {
    forall n: nat, other, later: nat | SendsAfter(w, events, start, n, dest, other, later)
      ensures until <= later
    {
      if later < until {
        UncutStands(w, dest, until, events, n);
      }
    }
  }

  /**
   * After a refusal or a rate limit is recorded, through any run by a clock that
   * does not go back, restarts included, some request for the file is let through
   * under some configuration before the wait is over exactly when a request that
   * was out beside it ends, before the wait is over, in a pass that removes the
   * stamp or in a refusal for less long.
   */
  lemma RefusalHoldsEveryone(before: World, dest: Path, fingerprint: Fingerprint, error: Error, now: nat,
                             events: seq<Event>)
    requires dest in before.sent && !Permanent(error) && Asking(error).Some? && Clocked(events, now)
    requires Run(Happens(before, Failed(dest, fingerprint, error, now, true)).value, events).Some?
    ensures var w := Happens(before, Failed(dest, fingerprint, error, now, true)).value;
            LetThrough(w, events, now, dest, WaitsUntil(error, now)) <==>
            CutBySome(events, dest, WaitsUntil(error, now))
  {
    var until := WaitsUntil(error, now);
    var w := Happens(before, Failed(dest, fingerprint, error, now, true)).value;
    if CutBySome(events, dest, until) {
      LetThroughWhenCut(w, events, now, dest, until);
    } else {
      NotLetThroughUncut(w, events, now, dest, until);
    }
  }

  /**
   * With no other request for the file out there is none to cut it short: the
   * next one is sent under any configuration exactly when the wait is over and
   * that configuration is not held back for a failure of its own.
   */
  lemma AloneTheWaitIsExact(before: World, dest: Path, fingerprint: Fingerprint, error: Error, now: nat,
                            events: seq<Event>, other: Fingerprint, later: nat)
    requires before.sent[dest] == 1 && !Permanent(error) && Asking(error).Some?
    requires AskedBefore(events, WaitsUntil(error, now))
    requires Run(Happens(before, Failed(dest, fingerprint, error, now, true)).value, events).Some?
    ensures var end := Run(Happens(before, Failed(dest, fingerprint, error, now, true)).value, events).value;
            && end.sent[dest] == 0
            && (Sends(end.memory, dest, other, later) <==>
                  WaitsUntil(error, now) <= later && !HeldBack(end.memory, dest, other, later))
  {
    var w := Happens(before, Failed(dest, fingerprint, error, now, true)).value;
    StampHolds(w, dest, WaitsUntil(error, now), events);
  }

  /** Nothing is asked for a file. */
  ghost predicate Unasked(events: seq<Event>, dest: Path) {
    forall i :: 0 <= i < |events| && events[i].Ask? ==> events[i].dest != dest
  }

  /** For a file: no request out, nothing held back, and its stamp as it was. */
  ghost predicate Quiet(w: World, dest: Path, stamps: map<Path, Option<nat>>) {
    && w.sent[dest] == 0
    && dest !in w.memory.held
    && (dest in w.memory.stamps <==> dest in stamps)
    && (dest in stamps ==> w.memory.stamps[dest] == stamps[dest])
  }

  lemma {:induction false} StaysQuiet(w: World, dest: Path, stamps: map<Path, Option<nat>>, events: seq<Event>)
    requires Quiet(w, dest, stamps) && Unasked(events, dest) && Run(w, events).Some?
    ensures Quiet(Run(w, events).value, dest, stamps)
  {
    if events != [] {
      var n := |events| - 1;
      StaysQuiet(w, dest, stamps, events[..n]);
      assert events[n].Ask? ==> events[n].dest != dest;
    }
  }

  /**
   * After a download passed with no other request for its file out, whatever
   * befalls other files meanwhile, the next request for it is sent under any
   * configuration exactly when the stamp could be removed or holds nothing back.
   */
  lemma PassingForgets(before: World, dest: Path, now: nat, removed: bool, events: seq<Event>,
                       other: Fingerprint, later: nat)
    requires before.sent[dest] == 1 && Unasked(events, dest)
    requires Run(Happens(before, Passed(dest, now, removed)).value, events).Some?
    ensures var end := Run(Happens(before, Passed(dest, now, removed)).value, events).value;
            Sends(end.memory, dest, other, later) <==> removed || !Stamped(before.memory, dest, later)
  {
    var w := Happens(before, Passed(dest, now, removed)).value;
    StaysQuiet(w, dest, w.memory.stamps, events);
  }

  // ----- Which failures wait, and how long -------------------------------------------------------

  /**
   * Failure by failure, when the next request for the file is sent, nothing else
   * having been remembered of it: a fault of the configuration holds back that
   * configuration alone, for a day; bad content holds back every one for an hour; a
   * rate limit does for as long as was asked, a day at most, or an hour where no
   * time was; and the network, another process or the disk hold back none. A stamp
   * that could not be written holds back none either.
   */
  lemma EachFailureWaits(m: Memory, dest: Path, error: Error, fingerprint: Fingerprint, now: nat,
                         written: bool, other: Fingerprint, later: nat)
    requires dest !in m.stamps && dest !in m.held
    ensures Sends(AfterFailing(m, dest, error, fingerprint, now, written), dest, other, later) <==>
            match error
            case CredentialRejected | MissingCredential | NoDatabases | NotEntitled | InvalidSetting
                 | UnsupportedTier =>
              other != fingerprint || later >= now + 86400
            case UnexpectedStatus(status) =>
              status < 400 || status > 499 || status == 408 || other != fingerprint || later >= now + 86400
            case ChecksumMismatch | MalformedChecksum | NotADatabase | Unparseable | Unpopulated | Undersized
                 | Truncated | TooLarge | ArchiveMemberMissing => !written || later >= now + 3600
            case RateLimited(None) => !written || later >= now + 3600
            case RateLimited(Some(seconds)) => !written || later >= now + if seconds > 86400 then 86400 else seconds
            case Http | Io | Join | Busy | CoolingDown => true
  {
  }

  /**
   * A rate limit lasts as long as the provider asked: with no other request for the
   * file out, the next is sent under a configuration not held back exactly when
   * that many seconds are over, or a day where it asked for more.
   */
  lemma RateLimitLastsAsAsked(before: World, dest: Path, fingerprint: Fingerprint, seconds: nat, now: nat,
                              events: seq<Event>, other: Fingerprint, later: nat)
    requires before.sent[dest] == 1
    requires AskedBefore(events, now + if seconds > 86400 then 86400 else seconds)
    requires var e := Failed(dest, fingerprint, RateLimited(Some(seconds)), now, true);
             Run(Happens(before, e).value, events).Some?
    ensures var e := Failed(dest, fingerprint, RateLimited(Some(seconds)), now, true);
            var end := Run(Happens(before, e).value, events).value;
            !HeldBack(end.memory, dest, other, later) ==>
              (Sends(end.memory, dest, other, later) <==> later >= now + if seconds > 86400 then 86400 else seconds)
  {
    AloneTheWaitIsExact(before, dest, fingerprint, RateLimited(Some(seconds)), now, events, other, later);
  }

  /** Bad content, and a rate limit that names no time, wait an hour. */
  lemma RefusalLastsAnHour(before: World, dest: Path, fingerprint: Fingerprint, error: Error, now: nat,
                           events: seq<Event>, other: Fingerprint, later: nat)
    requires before.sent[dest] == 1 && (Refused(error) || error == RateLimited(None))
    requires AskedBefore(events, now + 3600)
    requires Run(Happens(before, Failed(dest, fingerprint, error, now, true)).value, events).Some?
    ensures var end := Run(Happens(before, Failed(dest, fingerprint, error, now, true)).value, events).value;
            !HeldBack(end.memory, dest, other, later) ==>
              (Sends(end.memory, dest, other, later) <==> later >= now + 3600)
  {
    assert !Permanent(error) && Asking(error) == Some(3600);
    AloneTheWaitIsExact(before, dest, fingerprint, error, now, events, other, later);
  }

  /** No restart, and no other configuration tried for the file. */
  ghost predicate Unchanged(events: seq<Event>, dest: Path, fingerprint: Fingerprint) {
    forall i :: 0 <= i < |events| ==>
      !events[i].Restart? && (events[i].Ask? && events[i].dest == dest ==> events[i].fingerprint == fingerprint)
  }

  /** A permanent failure held back, and no request for its file out. */
  ghost predicate Holds(w: World, dest: Path, entry: Suppressed) {
    dest in w.memory.held && w.memory.held[dest] == entry && w.sent[dest] == 0
  }

  lemma SuppressionStays(w: World, dest: Path, entry: Suppressed, e: Event)
    requires Holds(w, dest, entry) && Happens(w, e).Some?
    requires !e.Restart?
    requires e.Ask? ==> e.now < entry.until && (e.dest == dest ==> e.fingerprint == entry.fingerprint)
    ensures Holds(Happens(w, e).value, dest, entry)
  {
    match e
    case Ask(other, fingerprint, now) => assert other == dest ==> HeldBack(w.memory, dest, fingerprint, now);
    case Passed(other, _, _) => assert other != dest;
    case Failed(other, _, _, _, _) => assert other != dest;
  }

  lemma {:induction false} SuppressionHolds(w: World, dest: Path, entry: Suppressed, events: seq<Event>)
    requires Holds(w, dest, entry) && Run(w, events).Some?
    requires AskedBefore(events, entry.until) && Unchanged(events, dest, entry.fingerprint)
    ensures Holds(Run(w, events).value, dest, entry)
  {
    if events != [] {
      var n := |events| - 1;
      SuppressionHolds(w, dest, entry, events[..n]);
      SuppressionStays(Run(w, events[..n]).value, dest, entry, events[n]);
    }
  }

  /** A failure that holds a configuration back at least until a time. */
  ghost predicate Barred(m: Memory, dest: Path, fingerprint: Fingerprint, until: nat) {
    dest in m.held && m.held[dest].fingerprint == fingerprint && until <= m.held[dest].until
  }

  /**
   * What lets a failed configuration ask again, in time: a restart, another
   * configuration tried, or an overlapping request's pass, or its permanent failure
   * under another configuration.
   */
  predicate Releases(e: Event, dest: Path, fingerprint: Fingerprint, until: nat) {
    && e.now < until
    && match e
       case Ask(other, tried, _) => other == dest && tried != fingerprint
       case Passed(other, _, _) => other == dest
       case Failed(other, tried, error, _, _) => other == dest && Permanent(error) && tried != fingerprint
       case Restart(_) => true
  }

  lemma BarredUnlessReleased(w: World, dest: Path, fingerprint: Fingerprint, until: nat, e: Event)
    requires Barred(w.memory, dest, fingerprint, until) && Happens(w, e).Some?
    requires e.now < until <= e.now + CEILING_SECS && !Releases(e, dest, fingerprint, until)
    ensures Barred(Happens(w, e).value.memory, dest, fingerprint, until)
  {
    if e.Ask? && e.dest == dest {
      assert HeldBack(w.memory, dest, e.fingerprint, e.now);
    }
  }

  lemma ReleasedIsFree(w: World, dest: Path, fingerprint: Fingerprint, until: nat, e: Event)
    requires Happens(w, e).Some? && Releases(e, dest, fingerprint, until)
    ensures !HeldBack(Happens(w, e).value.memory, dest, fingerprint, until - 1)
  {
  }

  lemma {:induction false} UnreleasedIsBarred(w: World, dest: Path, fingerprint: Fingerprint, until: nat,
                                              events: seq<Event>, n: nat)
    requires Barred(w.memory, dest, fingerprint, until) && Run(w, events).Some? && n <= |events|
    requires forall i :: 0 <= i < n ==>
               events[i].now < until <= events[i].now + CEILING_SECS && !Releases(events[i], dest, fingerprint, until)
    ensures Run(w, events[..n]).Some? && Barred(Run(w, events[..n]).value.memory, dest, fingerprint, until)
  {
    if n > 0 {
      UnreleasedIsBarred(w, dest, fingerprint, until, events, n - 1);
      RunNext(w, events, n - 1);
      BarredUnlessReleased(Run(w, events[..n - 1]).value, dest, fingerprint, until, events[n - 1]);
    }
  }

  /** After some of the events of a run, at a time no earlier, a configuration is not held back. */
  ghost predicate FreeAfter(w: World, events: seq<Event>, start: nat, n: nat, dest: Path, fingerprint: Fingerprint,
                            later: nat) {
    && n <= |events|
    && Reached(events, n, start) <= later
    && Run(w, events[..n]).Some?
    && !HeldBack(Run(w, events[..n]).value.memory, dest, fingerprint, later)
  }

  /** Somewhere in a run a configuration is not held back, before a time. */
  ghost predicate SetFree(w: World, events: seq<Event>, start: nat, dest: Path, fingerprint: Fingerprint, until: nat) {
    exists n: nat, later: nat :: later < until && FreeAfter(w, events, start, n, dest, fingerprint, later)
  }

  ghost predicate ReleasedBySome(events: seq<Event>, dest: Path, fingerprint: Fingerprint, until: nat) {
    exists i :: 0 <= i < |events| && Releases(events[i], dest, fingerprint, until)
  }

  lemma SetFreeWhenReleased(w: World, events: seq<Event>, start: nat, dest: Path, fingerprint: Fingerprint, until: nat)
    requires Run(w, events).Some? && ReleasedBySome(events, dest, fingerprint, until)
    ensures SetFree(w, events, start, dest, fingerprint, until)
  {
    var i :| 0 <= i < |events| && Releases(events[i], dest, fingerprint, until);
    RunNext(w, events, i);
    ReleasedIsFree(Run(w, events[..i]).value, dest, fingerprint, until, events[i]);
    assert FreeAfter(w, events, start, i + 1, dest, fingerprint, until - 1);
  }

  lemma NotFreeUnreleased(w: World, events: seq<Event>, start: nat, dest: Path, fingerprint: Fingerprint, until: nat)
    requires Run(w, events).Some? && Clocked(events, start) && until == start + CEILING_SECS
    requires Barred(w.memory, dest, fingerprint, until) && !ReleasedBySome(events, dest, fingerprint, until)
    ensures !SetFree(w, events, start, dest, fingerprint, until)
  {
    forall n: nat, later: nat | FreeAfter(w, events, start, n, dest, fingerprint, later)
      ensures until <= later
    {
      if later < until {
        UnreleasedIsBarred(w, dest, fingerprint, until, events, n);
      }
    }
  }

  /**
   * After a permanent failure, through any run by a clock that does not go back,
   * its configuration is at some point within a day not held back exactly when
   * something within that day releases it: the process restarts, another
   * configuration is tried, or a request that was out beside it passes or fails for
   * good under another configuration.
   */
  lemma PermanentHoldsItsConfiguration(before: World, dest: Path, fingerprint: Fingerprint, error: Error, now: nat,
                                       written: bool, events: seq<Event>)
    requires dest in before.sent && Permanent(error) && Clocked(events, now)
    requires Run(Happens(before, Failed(dest, fingerprint, error, now, written)).value, events).Some?
    ensures var w := Happens(before, Failed(dest, fingerprint, error, now, written)).value;
            SetFree(w, events, now, dest, fingerprint, now + CEILING_SECS)
            <==> ReleasedBySome(events, dest, fingerprint, now + CEILING_SECS)
  {
    var until := now + CEILING_SECS;
    var w := Happens(before, Failed(dest, fingerprint, error, now, written)).value;
    if ReleasedBySome(events, dest, fingerprint, until) {
      SetFreeWhenReleased(w, events, now, dest, fingerprint, until);
    } else {
      NotFreeUnreleased(w, events, now, dest, fingerprint, until);
    }
  }

  /**
   * With no other request for the file out, none is sent under the same
   * configuration for a day, unless the process restarts or another
   * configuration is tried first.
   */
  lemma AloneTheFailureHolds(before: World, dest: Path, fingerprint: Fingerprint, error: Error, now: nat,
                             written: bool, events: seq<Event>, later: nat)
    requires before.sent[dest] == 1 && Permanent(error)
    requires later < now + CEILING_SECS
    requires AskedBefore(events, now + CEILING_SECS) && Unchanged(events, dest, fingerprint)
    requires Run(Happens(before, Failed(dest, fingerprint, error, now, written)).value, events).Some?
    ensures var end := Run(Happens(before, Failed(dest, fingerprint, error, now, written)).value, events).value;
            end.sent[dest] == 0 && !Sends(end.memory, dest, fingerprint, later)
  {
    var w := Happens(before, Failed(dest, fingerprint, error, now, written)).value;
    SuppressionHolds(w, dest, Suppressed(fingerprint, now + CEILING_SECS), events);
  }

  /** Trying another configuration, even one a stamp turns away, forgets a permanent failure. */
  lemma AnotherConfigurationForgets(w: World, dest: Path, fingerprint: Fingerprint, other: Fingerprint, now: nat,
                                    later: nat)
    requires dest in w.memory.held && w.memory.held[dest].fingerprint == fingerprint != other
    requires !Stamped(w.memory, dest, later)
    ensures Sends(Happens(w, Ask(dest, other, now)).value.memory, dest, fingerprint, later)
  {
  }

  // ----- A clock that goes backwards -----------------------------------------------------------

  /**
   * Such a clock is meant not to lock a database out, and so the wait a stamp
   * reports is capped. Requests are held back for as long as the stamp says, all
   * the same. After a refusal recorded at one time, read by a clock at another, a
   * request is still held back a longest wait later or more exactly when the
   * clock has gone back by more than the wait falls short of the longest.
   */
  lemma StampAheadLocksOut(m: Memory, dest: Path, error: Error, fingerprint: Fingerprint, at: nat,
                           other: Fingerprint, now: nat)
    requires !Permanent(error) && Asking(error).Some?
    requires dest in m.held ==> m.held[dest].fingerprint != other
    ensures var after := AfterFailing(m, dest, error, fingerprint, at, true);
            (exists later: nat :: now + CEILING_SECS <= later && !Sends(after, dest, other, later))
            <==> now + (CEILING_SECS - Min(Asking(error).value, CEILING_SECS)) < at
  {
    var after := AfterFailing(m, dest, error, fingerprint, at, true);
    if now + CEILING_SECS < WaitsUntil(error, at) {
      assert !Sends(after, dest, other, now + CEILING_SECS);
    }
  }

  /**
   * What is held in memory is not bounded even as reported: the wait is past the
   * longest exactly when the clock reads less than when the failure was recorded.
   */
  lemma SuppressionOutlastsTheLongestWait(m: Memory, dest: Path, error: Error, fingerprint: Fingerprint, at: nat,
                                          now: nat)
    requires Permanent(error)
    ensures var after := AfterFailing(m, dest, error, fingerprint, at, false);
            && (HeldBack(after, dest, fingerprint, now) <==> now < at + CEILING_SECS)
            && (after.held[dest].until - now > CEILING_SECS <==> now < at)
  {
  }

  // ----- Which refusals are held how -----------------------------------------------------------

  /** How a body request that was refused is reported. */
  function BodyRefusal(status: nat, retryAfter: Option<nat>, credentialed: bool): Error {
    if status == 429 then RateLimited(retryAfter)
    else if credentialed && status == 401 then CredentialRejected
    else if credentialed && status == 403 then NotEntitled
    else UnexpectedStatus(status)
  }

  /** How a digest request that was refused is reported: by its status alone. */
  function DigestRefusal(status: nat): Error {
    UnexpectedStatus(status)
  }

  /**
   * For a refused body, a rate limit is stamped for the time it names. For a
   * refused digest it is a permanent failure, held for a day in memory only. The two
   * requests are held alike exactly when the status is any other, and are reported
   * alike then unless a credential was rejected or does not cover the database.
   */
  lemma HeldAlike(m: Memory, dest: Path, fingerprint: Fingerprint, now: nat, status: nat, retryAfter: Option<nat>,
                  credentialed: bool)
    ensures var body := BodyRefusal(status, retryAfter, credentialed);
            var digest := DigestRefusal(status);
            && (Permanent(body) == Permanent(digest) <==> status != 429)
            && (body == digest <==> status != 429 && !(credentialed && (status == 401 || status == 403)))
            && (body == CredentialRejected <==> credentialed && status == 401)
            && (body == NotEntitled <==> credentialed && status == 403)
            && (status != 429 ==> AfterFailing(m, dest, body, fingerprint, now, true)
                                  == AfterFailing(m, dest, digest, fingerprint, now, true))
            && (status == 429 ==> AfterFailing(m, dest, digest, fingerprint, now, true).stamps == m.stamps)
  {
  }
}
