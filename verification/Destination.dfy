/**
 * Transfers to one destination, as interleaved steps over the files they share.
 *
 * A transfer may be cancelled wherever it awaits and its process may die before
 * any step. A write or a materialising step already handed to the blocking pool
 * outlives a cancelled transfer, and does not outlive the process.
 */
module Destination {
  import opened Basics

  type Id = nat

  /** What a transfer's settings and the libraries it leans on decide. */
  datatype Env = Env(
    keepsLock: bool,
    named: Id -> bool,
    raw: Id -> bool,
    sha256: Text -> Text,
    expand: (Id, Text) -> Option<Text>,
    admits: (Id, Text, Option<Text>) -> bool)

  /** What a write in flight has yet to write; unlinked once its file was removed. */
  datatype Flight = Flight(rest: Text, linked: bool)

  datatype Phase =
    | Waiting
    | Streaming
    | Broken
    | Fetched(body: Text)
    | Verified(body: Text, digest: Option<Text>)
    | Opened(body: Text, digest: Option<Text>)
    | Staged(body: Text, digest: Option<Text>)
    | Admitted(body: Text, digest: Option<Text>)
    | Cleaning
    | Failing
    | Ended

  /** A transfer, the bytes it found in the part file and kept, and all it has sent to be written behind them. */
  datatype Transfer = Transfer(phase: Phase, flight: Option<Flight>, carried: Text, sent: Text)

  /** One replacement of the destination. */
  datatype Publication = Publication(
    id: Id, carried: Text, sent: Text, body: Text, digest: Option<Text>, before: Option<Text>, after: Text)

  datatype State = State(
    part: Option<Text>, staged: Option<Text>, dest: Option<Text>,
    transfers: map<Id, Transfer>, published: seq<Publication>)

  datatype Step =
    | Begin(id: Id)
    | TryLock(id: Id)
    | Create(id: Id)
    | Remove(id: Id)
    | Send(id: Id, batch: Text)
    | Land(id: Id, bytes: nat)
    | WriteEnds(id: Id)
    | Finish(id: Id)
    | GiveUp(id: Id)
    | Check(id: Id, expected: Text)
    | Skip(id: Id)
    | Open(id: Id)
    | Stage(id: Id)
    | Expand(id: Id, partial: Text)
    | Expanded(id: Id)
    | Admit(id: Id)
    | Fault(id: Id)
    | Rename(id: Id)
    | Clean(id: Id)
    | Cancel(id: Id)
    | Crash(id: Id)

  // ----- The lock ------------------------------------------------------------------------

  /** The future holds the lock from taking it until its end, and so does each write it hands over. */
  predicate Holds(env: Env, t: Transfer) {
    (!t.phase.Waiting? && !t.phase.Ended?) || (env.keepsLock && t.flight.Some?)
  }

  predicate Locked(env: Env, s: State) {
    exists id <- s.transfers :: Holds(env, s.transfers[id])
  }

  // ----- The steps ------------------------------------------------------------------------

  function With(s: State, id: Id, t: Transfer): State {
    s.(transfers := s.transfers[id := t])
  }

  function At(s: State, id: Id, phase: Phase): State
    requires id in s.transfers
  {
    With(s, id, s.transfers[id].(phase := phase))
  }

  /** Every write in flight to the part file now goes to a file nothing names. */
  function Unlinked(transfers: map<Id, Transfer>): map<Id, Transfer> {
    map id | id in transfers ::
      transfers[id].(flight := if transfers[id].flight.Some?
                               then Some(transfers[id].flight.value.(linked := false)) else None)
  }

  /** What is unpacked from a body: a raw body is the file itself. */
  function Unpacked(env: Env, id: Id, body: Text): Option<Text> {
    if env.raw(id) then Some(body) else env.expand(id, body)
  }

  /** Streaming, and the writes handed over while at it. */
  function Stream(env: Env, s: State, id: Id, step: Step): Option<State>
    requires id in s.transfers
  {
    var t := s.transfers[id];
    if step.TryLock? && t.phase.Waiting? then
      Some(if Locked(env, s) then At(s, id, Ended)
           else With(s, id, t.(phase := Streaming, carried := if s.part.Some? then s.part.value else [])))
    else if step.Create? && t.phase.Streaming? && t.flight.None? then
      Some(With(s, id, t.(carried := [], sent := [])).(part := Some([])))
    else if step.Remove? && (t.phase.Streaming? || t.phase.Broken?) then
      Some(s.(part := None, transfers := Unlinked(s.transfers)))
    else if step.Send? && t.phase.Streaming? && t.flight.None? && s.part.Some? then
      Some(With(s, id, t.(flight := Some(Flight(step.batch, true)), sent := t.sent + step.batch)))
    else if step.Finish? && t.phase.Streaming? && t.flight.None? && s.part.Some? then
      Some(At(s, id, Fetched(s.part.value)))
    else None
  }

  /** A write in flight, whatever has become of the transfer that sent it. */
  function Write(s: State, id: Id, step: Step): Option<State>
    requires id in s.transfers
  {
    var t := s.transfers[id];
    if t.flight.None? then None
    else if step.Land? && step.bytes <= |t.flight.value.rest| then
      var flight := t.flight.value;
      var landed := With(s, id, t.(flight := Some(flight.(rest := flight.rest[step.bytes..]))));
      Some(if flight.linked && s.part.Some? then
             landed.(part := Some(s.part.value + flight.rest[..step.bytes]))
           else landed)
    else if step.WriteEnds? then
      Some(With(s, id, t.(flight := None,
                          phase := if t.phase.Streaming? && t.flight.value.rest != [] then Broken else t.phase)))
    else None
  }

  /** From the bytes fetched to a part file opened to be unpacked. */
  function Vet(env: Env, s: State, id: Id, step: Step): Option<State>
    requires id in s.transfers
  {
    var phase := s.transfers[id].phase;
    if step.Check? && phase.Fetched? && env.named(id) && s.part.Some? then
      if env.sha256(s.part.value) == step.expected then Some(At(s, id, Verified(phase.body, Some(step.expected))))
      else Some(At(s, id, Ended).(part := None))
    else if step.Skip? && phase.Fetched? && !env.named(id) then Some(At(s, id, Verified(phase.body, None)))
    else if step.Open? && phase.Verified? && s.part.Some? then Some(At(s, id, Opened(s.part.value, phase.digest)))
    else None
  }

  /** From there to a staged file. */
  function Prepare(env: Env, s: State, id: Id, step: Step): Option<State>
    requires id in s.transfers
  {
    var phase := s.transfers[id].phase;
    if step.Stage? && phase.Opened? && env.raw(id) && s.part.Some? then
      Some(At(s, id, Staged(phase.body, phase.digest)).(part := None, staged := s.part))
    else if step.Expand? && phase.Opened? && !env.raw(id) then Some(s.(staged := Some(step.partial)))
    else if step.Expanded? && phase.Opened? && !env.raw(id) && env.expand(id, phase.body).Some? then
      Some(At(s, id, Staged(phase.body, phase.digest)).(staged := env.expand(id, phase.body)))
    else None
  }

  /** From a staged file to the destination. */
  function Install(env: Env, s: State, id: Id, step: Step): Option<State>
    requires id in s.transfers
  {
    var t := s.transfers[id];
    var phase := t.phase;
    if step.Admit? && phase.Staged? && s.staged.Some? then
      Some(At(s, id, if env.admits(id, s.staged.value, s.dest) then Admitted(phase.body, phase.digest) else Failing))
    else if step.Fault? && (phase.Opened? || phase.Staged? || phase.Admitted?) then Some(At(s, id, Failing))
    else if step.Rename? && phase.Admitted? && s.staged.Some? then
      Some(At(s, id, Cleaning).(
        dest := s.staged,
        staged := None,
        published := s.published + [
          Publication(id, t.carried, t.sent, phase.body, phase.digest, s.dest, s.staged.value)]))
    else if step.Clean? && phase.Cleaning? then Some(At(s, id, Ended).(part := None))
    else if step.Clean? && phase.Failing? then Some(At(s, id, Ended).(part := None, staged := None))
    else None
  }

  /** The ways a transfer ends early. Cancelling does not reach what the blocking pool has begun. */
  function Stop(s: State, id: Id, step: Step): Option<State>
    requires id in s.transfers
  {
    var phase := s.transfers[id].phase;
    if step.GiveUp? && (phase.Streaming? || phase.Fetched? || (phase.Broken? && s.part.None?)) then
      Some(At(s, id, Ended))
    else if step.Cancel?
            && (phase.Waiting? || phase.Streaming? || phase.Broken? || phase.Fetched? || phase.Verified?) then
      Some(At(s, id, Ended))
    else if step.Crash? then Some(With(s, id, s.transfers[id].(phase := Ended, flight := None)))
    else None
  }

  function Take(env: Env, s: State, step: Step): Option<State> {
    if step.Begin? then
      if step.id in s.transfers then None else Some(With(s, step.id, Transfer(Waiting, None, [], [])))
    else if step.id !in s.transfers then None
    else
      match step
      case Land(_, _) | WriteEnds(_) => Write(s, step.id, step)
      case GiveUp(_) | Cancel(_) | Crash(_) => Stop(s, step.id, step)
      case TryLock(_) | Create(_) | Remove(_) | Send(_, _) | Finish(_) => Stream(env, s, step.id, step)
      case Check(_, _) | Skip(_) | Open(_) => Vet(env, s, step.id, step)
      case Stage(_) | Expand(_, _) | Expanded(_) => Prepare(env, s, step.id, step)
      case _ => Install(env, s, step.id, step)
  }

  function Run(env: Env, s: State, steps: seq<Step>): Option<State> {
    if steps == [] then Some(s)
    else
      var before := Run(env, s, steps[..|steps| - 1]);
      if before.None? then None else Take(env, before.value, steps[|steps| - 1])
  }

  /** The files as some earlier process left them, and no transfer yet. */
  function Fresh(part: Option<Text>, staged: Option<Text>, dest: Option<Text>): State {
    State(part, staged, dest, map[], [])
  }

  // ----- The blocking step, run to its end ---------------------------------------------------

  /** Where the file system fails the materialising step, if it does. */
  datatype Trouble = NoTrouble | Opening | Staging(partial: Text) | Syncing

  class Files {
    var part: Option<Text>
    var staged: Option<Text>
    var dest: Option<Text>

    constructor (part: Option<Text>, staged: Option<Text>, dest: Option<Text>)
      ensures this.part == part && this.staged == staged && this.dest == dest
    {
      this.part, this.staged, this.dest := part, staged, dest;
    }

    /** Unpack, admit and rename: the destination is replaced at the last step or not at all. */
    method MaterialiseGuarded(env: Env, id: Id, trouble: Trouble) returns (size: Option<nat>)
      modifies this
      ensures size.Some? ==>
                && old(part).Some?
                && dest.Some? && dest == Unpacked(env, id, old(part).value)
                && env.admits(id, dest.value, old(dest))
                && size.value == |dest.value|
                && staged == None
      ensures size.None? ==> dest == old(dest)
      ensures size.Some? <==>
                && trouble.NoTrouble?
                && old(part).Some?
                && Unpacked(env, id, old(part).value).Some?
                && env.admits(id, Unpacked(env, id, old(part).value).value, old(dest))
    {
      if part.None? || trouble.Opening? {
        return None;
      }
      var source := part.value;
      if env.raw(id) {
        if trouble.Staging? {
          return None;
        }
        staged, part := part, None;
      } else {
        var expanded := env.expand(id, source);
        if expanded.None? || trouble.Staging? {
          staged := Some(if trouble.Staging? then trouble.partial else []);
          return None;
        }
        staged := expanded;
      }
      if !env.admits(id, staged.value, dest) {
        return None;
      }
      size := Some(|staged.value|);
      if trouble.Syncing? {
        return None;
      }
      dest, staged := staged, None;
    }

    /** The step the lock moves into: nothing transferred or staged is left behind it. */
    method Blocking(env: Env, id: Id, trouble: Trouble) returns (size: Option<nat>)
      modifies this
      ensures part == None && staged == None
      ensures size.Some? ==> old(part).Some? && dest.Some? && dest == Unpacked(env, id, old(part).value)
                             && env.admits(id, dest.value, old(dest))
      ensures size.None? ==> dest == old(dest)
    {
      size := MaterialiseGuarded(env, id, trouble);
      part := None;
      if size.None? {
        staged := None;
      }
    }
  }

  // ----- What every step keeps ------------------------------------------------------------

  /** The digest named for a body is the body's. */
  ghost predicate Digested(env: Env, id: Id, body: Text, digest: Option<Text>) {
    env.named(id) ==> digest == Some(env.sha256(body))
  }

  /** The part file holds what its transfer carried over and sent, less what is in flight. */
  ghost predicate Whole(part: Text, t: Transfer) {
    match t.flight
    case None => part == t.carried + t.sent
    case Some(flight) => flight.linked && part + flight.rest == t.carried + t.sent
  }

  /** A body is all that its transfer carried over and sent. */
  ghost predicate Fetches(t: Transfer, body: Text) {
    t.flight.None? && body == t.carried + t.sent
  }

  /** The files are as far along as the transfer that holds the lock. */
  ghost predicate Phased(env: Env, s: State, id: Id, t: Transfer) {
    match t.phase
    case Waiting => t.flight.None? && t.sent == []
    case Streaming => s.part.Some? ==> Whole(s.part.value, t)
    case Broken => t.flight.None?
    case Fetched(body) => Fetches(t, body) && s.part == Some(body)
    case Verified(body, digest) => Fetches(t, body) && s.part == Some(body) && Digested(env, id, body, digest)
    case Opened(body, digest) => Fetches(t, body) && s.part == Some(body) && Digested(env, id, body, digest)
    case Staged(body, digest) =>
      && Fetches(t, body) && Digested(env, id, body, digest)
      && s.staged.Some? && s.staged == Unpacked(env, id, body)
    case Admitted(body, digest) =>
      && Fetches(t, body) && Digested(env, id, body, digest)
      && s.staged.Some? && s.staged == Unpacked(env, id, body)
      && env.admits(id, s.staged.value, s.dest)
    case Cleaning => t.flight.None?
    case Failing => t.flight.None?
    case Ended => true
  }

  /**
   * A replacement of the destination by exactly what one transfer carried over
   * and sent, checked, unpacked and admitted against the copy it replaced.
   */
  ghost predicate Proper(env: Env, p: Publication) {
    && p.body == p.carried + p.sent
    && Digested(env, p.id, p.body, p.digest)
    && Unpacked(env, p.id, p.body) == Some(p.after)
    && env.admits(p.id, p.after, p.before)
  }

  /** The destination is what the last replacement left, each replacing what the one before it left. */
  ghost predicate Chained(initial: Option<Text>, published: seq<Publication>, dest: Option<Text>) {
    if published == [] then dest == initial
    else
      var last := published[|published| - 1];
      dest == Some(last.after) && Chained(initial, published[..|published| - 1], last.before)
  }

  ghost predicate Inv(env: Env, initial: Option<Text>, s: State) {
    && (forall a, b ::
          a in s.transfers && b in s.transfers && Holds(env, s.transfers[a]) && Holds(env, s.transfers[b]) ==> a == b)
    && (forall id <- s.transfers :: Phased(env, s, id, s.transfers[id]))
    && (forall p <- s.published :: Proper(env, p))
    && Chained(initial, s.published, s.dest)
  }

  /** No transfer but this one holds the lock. */
  ghost predicate Alone(env: Env, s: State, id: Id) {
    forall other <- s.transfers :: other != id ==> !Holds(env, s.transfers[other])
  }

  /** The same files, and the same transfers but for one. */
  ghost predicate OnlyMoves(s: State, t: State, id: Id) {
    && id in t.transfers
    && t.transfers.Keys == s.transfers.Keys + {id}
    && forall other <- s.transfers :: other != id ==> t.transfers[other] == s.transfers[other]
  }

  ghost predicate SameFiles(s: State, t: State) {
    t.part == s.part && t.staged == s.staged && t.dest == s.dest && t.published == s.published
  }

  /** A transfer may move alone, and with no other holding the lock it may change the files. */
  lemma MoveKeeps(env: Env, initial: Option<Text>, s: State, t: State, id: Id)
    requires env.keepsLock && Inv(env, initial, s) && OnlyMoves(s, t, id)
    requires Alone(env, s, id) || (SameFiles(s, t) && !Holds(env, t.transfers[id]))
    requires Phased(env, t, id, t.transfers[id])
    requires forall p <- t.published :: Proper(env, p)
    requires Chained(initial, t.published, t.dest)
    ensures Inv(env, initial, t)
  {
    forall other <- t.transfers
      ensures Phased(env, t, other, t.transfers[other])
    {
      if other != id {
        assert Phased(env, s, other, s.transfers[other]);
      }
    }
  }

  lemma HolderIsAlone(env: Env, initial: Option<Text>, s: State, id: Id)
    requires Inv(env, initial, s) && id in s.transfers && Holds(env, s.transfers[id])
    ensures Alone(env, s, id)
  {
  }

  lemma UnlinkedMoves(env: Env, s: State, id: Id)
    requires env.keepsLock && id in s.transfers && Alone(env, s, id)
    ensures OnlyMoves(s, s.(part := None, transfers := Unlinked(s.transfers)), id)
  {
    forall other <- s.transfers | other != id
      ensures Unlinked(s.transfers)[other] == s.transfers[other]
    {
      assert !Holds(env, s.transfers[other]);
    }
  }

  lemma StreamKeeps(env: Env, initial: Option<Text>, s: State, id: Id, step: Step)
    requires env.keepsLock && Inv(env, initial, s) && id in s.transfers && Stream(env, s, id, step).Some?
    ensures Inv(env, initial, Stream(env, s, id, step).value)
  {
    var t := Stream(env, s, id, step).value;
    assert Phased(env, s, id, s.transfers[id]);
    if step.TryLock? {
      assert !Locked(env, s) ==> Alone(env, s, id);
    } else {
      HolderIsAlone(env, initial, s, id);
      if step.Remove? {
        UnlinkedMoves(env, s, id);
      }
    }
    MoveKeeps(env, initial, s, t, id);
  }

  lemma WriteKeeps(env: Env, initial: Option<Text>, s: State, id: Id, step: Step)
    requires env.keepsLock && Inv(env, initial, s) && id in s.transfers && Write(s, id, step).Some?
    ensures Inv(env, initial, Write(s, id, step).value)
  {
    assert Phased(env, s, id, s.transfers[id]);
    HolderIsAlone(env, initial, s, id);
    MoveKeeps(env, initial, s, Write(s, id, step).value, id);
  }

  lemma StopKeeps(env: Env, initial: Option<Text>, s: State, id: Id, step: Step)
    requires env.keepsLock && Inv(env, initial, s) && id in s.transfers && Stop(s, id, step).Some?
    ensures Inv(env, initial, Stop(s, id, step).value)
  {
    assert Phased(env, s, id, s.transfers[id]);
    if Holds(env, s.transfers[id]) {
      HolderIsAlone(env, initial, s, id);
    }
    MoveKeeps(env, initial, s, Stop(s, id, step).value, id);
  }

  /** A transfer that holds the lock has moved, and its files with it, but not the destination. */
  ghost predicate Moves(env: Env, s: State, t: State, id: Id) {
    && OnlyMoves(s, t, id)
    && Phased(env, t, id, t.transfers[id])
    && t.published == s.published && t.dest == s.dest
  }

  lemma HolderMoves(env: Env, initial: Option<Text>, s: State, t: State, id: Id)
    requires env.keepsLock && Inv(env, initial, s) && id in s.transfers && Holds(env, s.transfers[id])
    requires Moves(env, s, t, id)
    ensures Inv(env, initial, t)
  {
    HolderIsAlone(env, initial, s, id);
    MoveKeeps(env, initial, s, t, id);
  }

  lemma VetMoves(env: Env, s: State, id: Id, step: Step)
    requires id in s.transfers && Phased(env, s, id, s.transfers[id]) && Vet(env, s, id, step).Some?
    ensures Moves(env, s, Vet(env, s, id, step).value, id)
  {
  }

  lemma VetKeeps(env: Env, initial: Option<Text>, s: State, id: Id, step: Step)
    requires env.keepsLock && Inv(env, initial, s) && id in s.transfers && Vet(env, s, id, step).Some?
    ensures Inv(env, initial, Vet(env, s, id, step).value)
  {
    assert Phased(env, s, id, s.transfers[id]);
    VetMoves(env, s, id, step);
    HolderMoves(env, initial, s, Vet(env, s, id, step).value, id);
  }

  lemma PrepareMoves(env: Env, s: State, id: Id, step: Step)
    requires id in s.transfers && Phased(env, s, id, s.transfers[id]) && Prepare(env, s, id, step).Some?
    ensures Moves(env, s, Prepare(env, s, id, step).value, id)
  {
  }

  lemma PrepareKeeps(env: Env, initial: Option<Text>, s: State, id: Id, step: Step)
    requires env.keepsLock && Inv(env, initial, s) && id in s.transfers && Prepare(env, s, id, step).Some?
    ensures Inv(env, initial, Prepare(env, s, id, step).value)
  {
    assert Phased(env, s, id, s.transfers[id]);
    PrepareMoves(env, s, id, step);
    HolderMoves(env, initial, s, Prepare(env, s, id, step).value, id);
  }

  lemma InstallMoves(env: Env, s: State, id: Id, step: Step)
    requires id in s.transfers && Phased(env, s, id, s.transfers[id]) && Install(env, s, id, step).Some?
    ensures var t := Install(env, s, id, step).value; OnlyMoves(s, t, id) && Phased(env, t, id, t.transfers[id])
  {
  }

  /** The one step that replaces the destination replaces it properly. */
  lemma RenameIsProper(env: Env, initial: Option<Text>, s: State, id: Id, step: Step)
    requires id in s.transfers && Phased(env, s, id, s.transfers[id]) && Install(env, s, id, step).Some?
    requires (forall p <- s.published :: Proper(env, p)) && Chained(initial, s.published, s.dest)
    ensures var t := Install(env, s, id, step).value;
            (forall p <- t.published :: Proper(env, p)) && Chained(initial, t.published, t.dest)
  {
    var t := Install(env, s, id, step).value;
    if step.Rename? {
      assert t.published[..|t.published| - 1] == s.published;
    } else {
      assert t.published == s.published && t.dest == s.dest;
    }
  }

  lemma InstallKeeps(env: Env, initial: Option<Text>, s: State, id: Id, step: Step)
    requires env.keepsLock && Inv(env, initial, s) && id in s.transfers && Install(env, s, id, step).Some?
    ensures Inv(env, initial, Install(env, s, id, step).value)
  {
    assert Phased(env, s, id, s.transfers[id]);
    assert Alone(env, s, id) by {
      HolderIsAlone(env, initial, s, id);
    }
    InstallMoves(env, s, id, step);
    RenameIsProper(env, initial, s, id, step);
    MoveKeeps(env, initial, s, Install(env, s, id, step).value, id);
  }

  lemma TakeKeeps(env: Env, initial: Option<Text>, s: State, step: Step)
    requires env.keepsLock && Inv(env, initial, s) && Take(env, s, step).Some?
    ensures Inv(env, initial, Take(env, s, step).value)
  {
    if step.Begin? {
      MoveKeeps(env, initial, s, Take(env, s, step).value, step.id);
    } else {
      match step
      case Land(_, _) | WriteEnds(_) => WriteKeeps(env, initial, s, step.id, step);
      case GiveUp(_) | Cancel(_) | Crash(_) => StopKeeps(env, initial, s, step.id, step);
      case TryLock(_) | Create(_) | Remove(_) | Send(_, _) | Finish(_) => StreamKeeps(env, initial, s, step.id, step);
      case Check(_, _) | Skip(_) | Open(_) => VetKeeps(env, initial, s, step.id, step);
      case Stage(_) | Expand(_, _) | Expanded(_) => PrepareKeeps(env, initial, s, step.id, step);
      case _ => InstallKeeps(env, initial, s, step.id, step);
    }
  }

  lemma {:induction false} RunKeeps(env: Env, initial: Option<Text>, s: State, steps: seq<Step>)
    requires env.keepsLock && Inv(env, initial, s) && Run(env, s, steps).Some?
    ensures Inv(env, initial, Run(env, s, steps).value)
  {
    if steps != [] {
      var n := |steps| - 1;
      RunKeeps(env, initial, s, steps[..n]);
      TakeKeeps(env, initial, Run(env, s, steps[..n]).value, steps[n]);
    }
  }

  // ----- Over every run ----------------------------------------------------------------------

  /**
   * Whatever the interleaving, the cancellations and the crashes, the
   * destination is what it was at first, or exactly the bytes that one transfer
   * carried over and sent, checked against the digest where one is named,
   * unpacked, and admitted against the very copy they replaced.
   */
  lemma DestinationIsProper(env: Env, part: Option<Text>, staged: Option<Text>, dest: Option<Text>, steps: seq<Step>)
    requires env.keepsLock && Run(env, Fresh(part, staged, dest), steps).Some?
    ensures var s := Run(env, Fresh(part, staged, dest), steps).value;
            && Chained(dest, s.published, s.dest)
            && (forall p <- s.published :: Proper(env, p))
            && (s.dest != dest ==> exists p <- s.published :: s.dest == Some(p.after))
  {
    RunKeeps(env, dest, Fresh(part, staged, dest), steps);
    var s := Run(env, Fresh(part, staged, dest), steps).value;
    if s.published != [] {
      assert s.published[|s.published| - 1] in s.published;
    }
  }

  /** A transfer that does not hold the lock. */
  ghost predicate Idle(t: Transfer) {
    (t.phase.Waiting? || t.phase.Ended?) && t.flight.None?
  }

  lemma OthersAreIdle(env: Env, initial: Option<Text>, s: State, id: Id, other: Id)
    requires env.keepsLock && Inv(env, initial, s) && id in s.transfers && Holds(env, s.transfers[id])
    requires other in s.transfers && other != id
    ensures Idle(s.transfers[other])
  {
    HolderIsAlone(env, initial, s, id);
    assert Phased(env, s, other, s.transfers[other]);
  }

  lemma IdleSteps(env: Env, s: State, step: Step)
    requires step.id in s.transfers && Idle(s.transfers[step.id])
    ensures Write(s, step.id, step).None?
    ensures Vet(env, s, step.id, step).None? && Prepare(env, s, step.id, step).None?
    ensures Install(env, s, step.id, step).None?
    ensures var t := Stream(env, s, step.id, step); t.Some? ==> OnlyMoves(s, t.value, step.id) && SameFiles(s, t.value)
    ensures var t := Stop(s, step.id, step); t.Some? ==> OnlyMoves(s, t.value, step.id) && SameFiles(s, t.value)
  {
  }

  /**
   * From the check of a transfer's bytes to their rename, and all the while it
   * holds the lock, no step of any other transfer, its writes in flight included,
   * touches the part file, the staged file or the destination.
   */
  lemma NothingBetweenCheckAndRename(env: Env, part: Option<Text>, staged: Option<Text>, dest: Option<Text>,
                                     steps: seq<Step>, s: State, id: Id, step: Step)
    requires env.keepsLock && Run(env, Fresh(part, staged, dest), steps) == Some(s)
    requires id in s.transfers && Holds(env, s.transfers[id])
    requires step.id != id && Take(env, s, step).Some?
    ensures var t := Take(env, s, step).value;
            SameFiles(s, t) && id in t.transfers && t.transfers[id] == s.transfers[id]
  {
    RunKeeps(env, dest, Fresh(part, staged, dest), steps);
    if step.id in s.transfers {
      OthersAreIdle(env, dest, s, id, step.id);
      IdleSteps(env, s, step);
    }
  }

  // ----- How a transfer ends ------------------------------------------------------------------------

  lemma Go(env: Env, o: State, steps: seq<Step>, s: State, step: Step) returns (steps': seq<Step>, t: State)
    requires Run(env, o, steps) == Some(s) && Take(env, s, step).Some?
    ensures Run(env, o, steps') == Some(t) && t == Take(env, s, step).value
  {
    steps', t := steps + [step], Take(env, s, step).value;
    assert steps'[..|steps|] == steps;
  }

  /**
   * A process may die before any step, and a transfer be cancelled exactly where it
   * awaits. Neither touches a file; a death takes the lock and the write in flight
   * with it, and a cancelled transfer's write goes on.
   */
  lemma StopsWhere(env: Env, s: State, id: Id)
    requires id in s.transfers
    ensures var dead := Take(env, s, Crash(id));
            && dead.Some? && SameFiles(s, dead.value) && OnlyMoves(s, dead.value, id)
            && !Holds(env, dead.value.transfers[id]) && dead.value.transfers[id].flight.None?
    ensures var cancelled, phase := Take(env, s, Cancel(id)), s.transfers[id].phase;
            && (cancelled.Some? <==>
                  phase.Waiting? || phase.Streaming? || phase.Broken? || phase.Fetched? || phase.Verified?)
            && (cancelled.Some? ==>
                  && SameFiles(s, cancelled.value) && OnlyMoves(s, cancelled.value, id)
                  && cancelled.value.transfers[id] == s.transfers[id].(phase := Ended))
  {
  }

  /** A failure is reported while streaming or once fetched, and after a broken write once the part file is gone. */
  lemma GivesUpWhere(env: Env, s: State, id: Id)
    requires id in s.transfers
    ensures var failed, phase := Take(env, s, GiveUp(id)), s.transfers[id].phase;
            && (failed.Some? <==> phase.Streaming? || phase.Fetched? || (phase.Broken? && s.part.None?))
            && (failed.Some? ==>
                  && SameFiles(s, failed.value) && OnlyMoves(s, failed.value, id)
                  && failed.value.transfers[id] == s.transfers[id].(phase := Ended))
  {
  }

  // ----- Why every write keeps the lock -------------------------------------------------------------

  /** A transfer that began its part file anew, and has sent these bytes. */
  function Sender(sent: Text): Transfer {
    Transfer(Streaming, None, [], sent)
  }

  lemma Locks(env: Env, o: State, steps: seq<Step>, s: State, id: Id) returns (steps': seq<Step>, t: State)
    requires Run(env, o, steps) == Some(s) && id !in s.transfers && !Locked(env, s)
    ensures Run(env, o, steps') == Some(t)
    ensures t == s.(part := Some([]), transfers := s.transfers[id := Sender([])])
  {
    steps', t := Go(env, o, steps, s, Begin(id));
    assert !Locked(env, t);
    steps', t := Go(env, o, steps', t, TryLock(id));
    assert t == With(s, id, t.transfers[id]) && t.transfers[id].sent == [];
    steps', t := Go(env, o, steps', t, Create(id));
  }

  lemma Writes(env: Env, o: State, steps: seq<Step>, s: State, id: Id, bytes: Text)
      returns (steps': seq<Step>, t: State)
    requires Run(env, o, steps) == Some(s) && s.part == Some([])
    requires id in s.transfers && s.transfers[id] == Sender([])
    ensures Run(env, o, steps') == Some(t)
    ensures t == With(s, id, Sender(bytes)).(part := Some(bytes))
  {
    assert bytes[..|bytes|] == bytes && bytes[|bytes|..] == [] && [] + bytes == bytes;
    steps', t := Go(env, o, steps, s, Send(id, bytes));
    steps', t := Go(env, o, steps', t, Land(id, |bytes|));
    steps', t := Go(env, o, steps', t, WriteEnds(id));
    assert t.transfers == s.transfers[id := Sender(bytes)];
  }

  /** What is known of a transfer's digest once its bytes are checked, or not checked. */
  function DigestOf(env: Env, id: Id, bytes: Text): Option<Text> {
    if env.named(id) then Some(env.sha256(bytes)) else None
  }

  lemma Checks(env: Env, o: State, steps: seq<Step>, s: State, id: Id, bytes: Text)
      returns (steps': seq<Step>, t: State)
    requires Run(env, o, steps) == Some(s) && s.part == Some(bytes)
    requires id in s.transfers && s.transfers[id] == Sender(bytes)
    ensures Run(env, o, steps') == Some(t)
    ensures t == With(s, id, Sender(bytes).(phase := Verified(bytes, DigestOf(env, id, bytes))))
  {
    steps', t := Go(env, o, steps, s, Finish(id));
    steps', t := Go(env, o, steps', t, if env.named(id) then Check(id, env.sha256(bytes)) else Skip(id));
    assert t.transfers == s.transfers[id := Sender(bytes).(phase := Verified(bytes, DigestOf(env, id, bytes)))];
  }

  /** A transfer whose bytes were checked, and then were not the part file's any more. */
  ghost predicate Spoilt(t: Transfer, phase: Phase, sent: Text) {
    t.phase == phase && t.carried == [] && t.sent == sent
  }

  lemma Stages(env: Env, o: State, steps: seq<Step>, s: State, id: Id, sent: Text, bytes: Text, digest: Option<Text>)
      returns (steps': seq<Step>, t: State)
    requires Run(env, o, steps) == Some(s) && s.part == Some(bytes) && env.raw(id)
    requires id in s.transfers && Spoilt(s.transfers[id], Verified(sent, digest), sent)
    ensures Run(env, o, steps') == Some(t)
    ensures t.staged == Some(bytes) && t.dest == s.dest && t.published == s.published
    ensures id in t.transfers && Spoilt(t.transfers[id], Staged(bytes, digest), sent)
  {
    steps', t := Go(env, o, steps, s, Open(id));
    steps', t := Go(env, o, steps', t, Stage(id));
  }

  lemma Admits(env: Env, o: State, steps: seq<Step>, s: State, id: Id, sent: Text, bytes: Text, digest: Option<Text>)
      returns (steps': seq<Step>, t: State)
    requires Run(env, o, steps) == Some(s) && s.staged == Some(bytes) && s.dest == None
    requires env.admits(id, bytes, None)
    requires id in s.transfers && Spoilt(s.transfers[id], Staged(bytes, digest), sent)
    ensures Run(env, o, steps') == Some(t)
    ensures t.staged == Some(bytes) && t.dest == None && t.published == s.published
    ensures id in t.transfers && Spoilt(t.transfers[id], Admitted(bytes, digest), sent)
  {
    steps', t := Go(env, o, steps, s, Admit(id));
  }

  lemma Installs(env: Env, o: State, steps: seq<Step>, s: State, id: Id, sent: Text, bytes: Text, digest: Option<Text>)
      returns (steps': seq<Step>, t: State)
    requires Run(env, o, steps) == Some(s) && s.staged == Some(bytes) && s.dest == None && s.published == []
    requires id in s.transfers && Spoilt(s.transfers[id], Admitted(bytes, digest), sent)
    ensures Run(env, o, steps') == Some(t)
    ensures t.dest == Some(bytes) && t.published == [Publication(id, [], sent, bytes, digest, None, bytes)]
  {
    steps', t := Go(env, o, steps, s, Rename(id));
  }

  /** A transfer cancelled with a write in flight. */
  lemma Abandons(env: Env, o: State, steps: seq<Step>, s: State, id: Id, bytes: Text)
      returns (steps': seq<Step>, t: State)
    requires Run(env, o, steps) == Some(s) && s.part == Some([])
    requires id in s.transfers && s.transfers[id] == Sender([])
    ensures Run(env, o, steps') == Some(t)
    ensures t == With(s, id, Transfer(Ended, Some(Flight(bytes, true)), [], bytes))
  {
    steps', t := Go(env, o, steps, s, Send(id, bytes));
    steps', t := Go(env, o, steps', t, Cancel(id));
    assert [] + bytes == bytes;
    assert t.transfers == With(s, id, Transfer(Ended, Some(Flight(bytes, true)), [], bytes)).transfers;
  }

  /** Such a transfer, and another that took the lock after it. */
  lemma LeftWriting(env: Env, bytes: Text) returns (steps: seq<Step>, s: State)
    requires !env.keepsLock
    ensures Run(env, Fresh(None, None, None), steps) == Some(s)
    ensures s.part == Some([]) && s.staged == None && s.dest == None && s.published == []
    ensures s.transfers == map[0 := Transfer(Ended, Some(Flight(bytes, true)), [], bytes), 1 := Sender([])]
  {
    var o := Fresh(None, None, None);
    steps, s := Locks(env, o, [], o, 0);
    steps, s := Abandons(env, o, steps, s, 0, bytes);
    assert s.transfers == map[0 := Transfer(Ended, Some(Flight(bytes, true)), [], bytes)];
    steps, s := Locks(env, o, steps, s, 1);
  }

  /**
   * Did a write in flight not keep the lock, one left behind by a cancelled
   * transfer could land behind all that another sent, digest or no digest, and
   * the destination would hold the two of them spliced.
   */
  lemma UnlockedWriteSpoils(env: Env, late: Text, bytes: Text)
    requires !env.keepsLock && env.raw(1) && late != [] && env.admits(1, bytes + late, None)
    ensures exists steps ::
              var end := Run(env, Fresh(None, None, None), steps);
              && end.Some?
              && end.value.dest == Some(bytes + late)
              && exists p <- end.value.published ::
                   && p.after == bytes + late && p.carried + p.sent == bytes
                   && p.digest == DigestOf(env, 1, bytes)
                   && !Proper(env, p)
  {
    var o := Fresh(None, None, None);
    var digest := DigestOf(env, 1, bytes);
    var steps, s := LeftWriting(env, late);
    steps, s := Writes(env, o, steps, s, 1, bytes);
    steps, s := Checks(env, o, steps, s, 1, bytes);
    steps, s := LateLands(env, o, steps, s, late, bytes);
    steps, s := Stages(env, o, steps, s, 1, bytes, bytes + late, digest);
    steps, s := Admits(env, o, steps, s, 1, bytes, bytes + late, digest);
    steps, s := Installs(env, o, steps, s, 1, bytes, bytes + late, digest);
    assert s.published[0] in s.published && |bytes + late| != |bytes| && [] + bytes == bytes;
    assert Run(env, o, steps) == Some(s);
  }

  lemma LateLands(env: Env, o: State, steps: seq<Step>, s: State, late: Text, bytes: Text)
      returns (steps': seq<Step>, t: State)
    requires Run(env, o, steps) == Some(s) && s.part == Some(bytes)
    requires 0 in s.transfers && s.transfers[0] == Transfer(Ended, Some(Flight(late, true)), [], late)
    requires 1 in s.transfers
    ensures Run(env, o, steps') == Some(t)
    ensures t.part == Some(bytes + late) && t.dest == s.dest && t.published == s.published
    ensures 1 in t.transfers && t.transfers[1] == s.transfers[1]
  {
    assert late[..|late|] == late;
    steps', t := Go(env, o, steps, s, Land(0, |late|));
  }

  // ----- What stands in the way of a download ---------------------------------------------------------

  /** Bytes checked, taken from the part file to the staged one, unpacked where there is an archive. */
  lemma Prepares(env: Env, o: State, steps: seq<Step>, s: State, id: Id, bytes: Text, after: Text, digest: Option<Text>)
      returns (steps': seq<Step>, t: State)
    requires Run(env, o, steps) == Some(s) && s.part == Some(bytes) && Unpacked(env, id, bytes) == Some(after)
    requires id in s.transfers && s.transfers[id] == Sender(bytes).(phase := Verified(bytes, digest))
    ensures Run(env, o, steps') == Some(t)
    ensures t.staged == Some(after) && t.dest == s.dest && t.published == s.published
    ensures id in t.transfers && t.transfers[id] == Sender(bytes).(phase := Staged(bytes, digest))
    ensures OnlyMoves(s, t, id)
  {
    steps', t := Go(env, o, steps, s, Open(id));
    if env.raw(id) {
      steps', t := Go(env, o, steps', t, Stage(id));
    } else {
      steps', t := Unpacks(env, o, steps', t, id, bytes, after, digest);
    }
  }

  lemma Unpacks(env: Env, o: State, steps: seq<Step>, s: State, id: Id, bytes: Text, after: Text, digest: Option<Text>)
      returns (steps': seq<Step>, t: State)
    requires Run(env, o, steps) == Some(s) && !env.raw(id) && env.expand(id, bytes) == Some(after)
    requires id in s.transfers && s.transfers[id] == Sender(bytes).(phase := Opened(bytes, digest))
    ensures Run(env, o, steps') == Some(t)
    ensures t.staged == Some(after) && t.dest == s.dest && t.published == s.published
    ensures id in t.transfers && t.transfers[id] == Sender(bytes).(phase := Staged(bytes, digest))
    ensures OnlyMoves(s, t, id)
  {
    steps', t := Go(env, o, steps, s, Expand(id, []));
    steps', t := Go(env, o, steps', t, Expanded(id));
  }

  lemma Replaces(env: Env, o: State, steps: seq<Step>, s: State, id: Id, bytes: Text, after: Text, digest: Option<Text>)
      returns (steps': seq<Step>, t: State)
    requires Run(env, o, steps) == Some(s) && s.staged == Some(after) && env.admits(id, after, s.dest)
    requires id in s.transfers && s.transfers[id] == Sender(bytes).(phase := Staged(bytes, digest))
    ensures Run(env, o, steps') == Some(t)
    ensures t.dest == Some(after) && t.staged == None
    ensures t.published == s.published + [Publication(id, [], bytes, bytes, digest, s.dest, after)]
    ensures id in t.transfers && t.transfers[id] == Sender(bytes).(phase := Cleaning)
    ensures OnlyMoves(s, t, id)
  {
    steps', t := Go(env, o, steps, s, Admit(id));
    steps', t := Go(env, o, steps', t, Rename(id));
  }

  lemma CleansUp(env: Env, o: State, steps: seq<Step>, s: State, id: Id) returns (steps': seq<Step>, t: State)
    requires Run(env, o, steps) == Some(s) && id in s.transfers && s.transfers[id].phase.Cleaning?
    ensures Run(env, o, steps') == Some(t) && OnlyMoves(s, t, id)
    ensures t.dest == s.dest && t.staged == s.staged && t.published == s.published
    ensures t.part == None && t.transfers[id].phase == Ended && t.transfers[id].flight == s.transfers[id].flight
  {
    steps', t := Go(env, o, steps, s, Clean(id));
  }

  /** In a state, these bytes of this transfer are installed, and nothing is left of it. */
  ghost predicate InstalledBy(env: Env, s: State, id: Id, bytes: Text, after: Text, before: Option<Text>) {
    && s.dest == Some(after) && s.part == None && s.staged == None
    && s.published == [Publication(id, [], bytes, bytes, DigestOf(env, id, bytes), before, after)]
    && !Locked(env, s)
  }

  /**
   * Nothing but the unpacking and the guard keeps fetched bytes out: whatever was
   * there before, and whichever bytes they are, a run exists in which a transfer
   * begins anew, sends them, and ends with what is unpacked of them installed, the
   * lock free, and no other file left.
   */
  lemma WhatIsAdmittedCanBeInstalled(env: Env, part: Option<Text>, staged: Option<Text>, dest: Option<Text>, id: Id,
                                     bytes: Text, after: Text)
    requires Unpacked(env, id, bytes) == Some(after) && env.admits(id, after, dest)
    ensures exists steps ::
              var end := Run(env, Fresh(part, staged, dest), steps);
              end.Some? && InstalledBy(env, end.value, id, bytes, after, dest)
  {
    var o, digest := Fresh(part, staged, dest), DigestOf(env, id, bytes);
    var steps, s := Locks(env, o, [], o, id);
    steps, s := Writes(env, o, steps, s, id, bytes);
    steps, s := Checks(env, o, steps, s, id, bytes);
    steps, s := Prepares(env, o, steps, s, id, bytes, after, digest);
    steps, s := Replaces(env, o, steps, s, id, bytes, after, digest);
    steps, s := CleansUp(env, o, steps, s, id);
    assert s.transfers.Keys == {id};
    assert InstalledBy(env, s, id, bytes, after, dest);
    assert Run(env, o, steps) == Some(s);
  }
}
