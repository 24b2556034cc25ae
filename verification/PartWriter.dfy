/** The batched writer behind a part file, and the order its bytes keep. */
module PartWriters {
  import opened Basics

  const WRITE_BATCH_BYTES: nat := 1048576

  /** A write handed to the pool, and how many of its bytes have reached the file. */
  datatype Flight = Flight(batch: Text, landed: nat)

  /**
   * How awaiting a write comes out: everything landed; the write failed, some of
   * it landed; its thread died, and the file with it; or the transfer was
   * cancelled while it waited, and this much lands regardless.
   */
  datatype Fate = Landed | Failed(landed: nat) | Lost(landed: nat) | Cancelled(landed: nat)

  datatype Step = Fine | Broken | Gone

  /** Bytes that move from the batch to the file leave the whole as it was. */
  lemma Lands(part: Text, batch: Text, landed: nat, more: nat, rest: Text, whole: Text)
    requires landed + more <= |batch|
    requires part + batch[landed..] + rest == whole
    ensures part + batch[landed..landed + more] + batch[landed + more..] + rest == whole
    ensures part + batch[landed..landed + more] <= whole
  {
    assert batch[landed..] == batch[landed..landed + more] + batch[landed + more..];
    var so := part + batch[landed..landed + more];
    assert so + batch[landed + more..] == part + batch[landed..];
    assert whole == so + (batch[landed + more..] + rest);
  }

  /** `part` is what the file holds; `held` is whether the writer has its handle. */
  class PartWriter {
    var part: Text
    var held: bool
    var pending: Option<Flight>
    var gathered: Text
    ghost var initial: Text
    ghost var given: Text

    /** Bytes handed to the pool that have yet to land. */
    ghost function InFlight(): Text
      reads `pending
      requires pending.Some? ==> pending.value.landed <= |pending.value.batch|
    {
      if pending.Some? then pending.value.batch[pending.value.landed..] else []
    }

    /**
     * While no write has failed: the file, then what is in flight, then what is
     * gathered is what the file began with and every chunk given, in order. The
     * handle is in one place.
     */
    ghost predicate Valid()
      reads this
    {
      && (pending.Some? ==> pending.value.landed <= |pending.value.batch|)
      && (held <==> pending.None?)
      && part + InFlight() + gathered == initial + given
      && initial <= part
    }

    /** Whatever becomes of the transfer, the file is the beginning of what it was given. */
    ghost predicate Prefix()
      reads this
    {
      initial <= part <= initial + given
    }

    lemma ValidIsPrefix()
      requires Valid()
      ensures Prefix()
    {
      assert part <= part + InFlight() + gathered;
    }

    constructor (part: Text)
      ensures Valid() && this.part == initial == part && given == [] && gathered == [] && pending.None?
    {
      this.part, held, pending, gathered := part, true, None, [];
      initial, given := part, [];
      new;
      assert part + [] + [] == part + [];
    }

    /** The pool makes progress on its own, at any moment. */
    method Progress(bytes: nat)
      requires Valid() && pending.Some? && pending.value.landed + bytes <= |pending.value.batch|
      modifies `part, `pending
      ensures Valid() && pending.Some? && |part| == |old(part)| + bytes
    {
      var Flight(batch, landed) := pending.value;
      Lands(part, batch, landed, bytes, gathered, initial + given);
      part := part + batch[landed..landed + bytes];
      pending := Some(Flight(batch, landed + bytes));
    }

    /** Await the pool: afterwards nothing is in flight, or the writer is done for. */
    method Settle(fate: Fate) returns (r: Step)
      requires Valid()
      modifies `part, `held, `pending
      ensures r.Fine? ==> Valid() && pending.None? && held
      ensures !r.Fine? ==> Prefix()
      ensures old(pending).None? ==> r.Fine?
      ensures old(pending).Some? ==> (r.Fine? <==> fate.Landed?) && (r.Gone? <==> fate.Cancelled?)
    {
      if pending.None? {
        return Fine;
      }
      var Flight(batch, landed) := pending.value;
      pending := None;
      match fate {
        case Landed =>
          Lands(part, batch, landed, |batch| - landed, gathered, initial + given);
          assert batch[landed..|batch|] == batch[landed..] && batch[|batch|..] == [];
          part := part + batch[landed..];
          held := true;
          return Fine;
        case _ =>
          var more := if landed + fate.landed <= |batch| then fate.landed else |batch| - landed;
          Lands(part, batch, landed, more, gathered, initial + given);
          part := part + batch[landed..landed + more];
          held := fate.Failed?;
          return if fate.Cancelled? then Gone else Broken;
      }
    }

    /** Put what is gathered in flight, behind everything put in flight before. */
    method Send(fate: Fate) returns (r: Step)
      requires Valid()
      modifies `part, `held, `pending, `gathered
      ensures r.Fine? ==> Valid() && gathered == [] && pending == Some(Flight(old(gathered), 0))
      ensures !r.Fine? ==> Prefix()
      ensures (fate.Landed? ==> r.Fine?) && (r.Gone? ==> fate.Cancelled?)
      ensures r.Broken? ==> fate.Failed? || fate.Lost?
    {
      r := Settle(fate);
      if !r.Fine? {
        return;
      }
      held, pending, gathered := false, Some(Flight(gathered, 0)), [];
      return Fine;
    }

    /** Gather a chunk, handing over a full batch. Less than a batch is ever left gathered. */
    method Write(chunk: Text, fate: Fate) returns (r: Step)
      requires Valid()
      modifies this
      ensures initial == old(initial) && given == old(given) + chunk
      ensures r.Fine? ==> Valid() && |gathered| < WRITE_BATCH_BYTES
      ensures !r.Fine? ==> Prefix()
      ensures (fate.Landed? ==> r.Fine?) && (r.Gone? ==> fate.Cancelled?)
      ensures r.Broken? ==> fate.Failed? || fate.Lost?
      ensures |old(gathered)| + |chunk| < 1048576 ==>
                && r.Fine? && gathered == old(gathered) + chunk
                && pending == old(pending) && part == old(part)
      ensures |old(gathered)| + |chunk| >= 1048576 && r.Fine? ==>
                gathered == [] && pending == Some(Flight(old(gathered) + chunk, 0))
    {
      gathered := gathered + chunk;
      given := given + chunk;
      assert part + InFlight() + gathered == old(part + InFlight() + gathered) + chunk;
      assert initial + given == initial + old(given) + chunk;
      if |gathered| >= WRITE_BATCH_BYTES {
        r := Send(fate);
        return;
      }
      return Fine;
    }

    /** Settle everything: a finish that is fine leaves every chunk in the file. */
    method Finish(first: Fate, second: Fate, flushed: bool) returns (r: Step)
      requires Valid()
      modifies `part, `held, `pending, `gathered
      ensures r.Fine? ==> part == initial + given && flushed
      ensures !r.Fine? ==> Prefix()
      ensures r.Gone? ==> first.Cancelled? || second.Cancelled?
      ensures r.Broken? ==> !flushed || !first.Landed? || !second.Landed?
    {
      if gathered != [] {
        r := Send(first);
        if !r.Fine? {
          return;
        }
      }
      r := Settle(second);
      if !r.Fine? {
        return;
      }
      ValidIsPrefix();
      return if flushed then Fine else Broken;
    }
  }
}
