/** Streaming a response body into a part file, and continuing one later. */
module Transfer {
  import opened Basics
  import opened PartWriters

  datatype Failure =
    | Status(status: nat)
    | TooLarge(limit: nat)
    | Truncated(expected: nat, actual: nat)
    | Network
    | Io
    | Abandoned

  /**
   * What a request meets: no answer, for the network's sake or because the
   * transfer was cancelled first; or a response as it is read: its status, the
   * length it declares, its chunks, and whether it ended cleanly.
   */
  datatype Response =
    | Silence(cancelled: bool)
    | Response(status: nat, declared: Option<nat>, chunks: seq<Text>, clean: bool)

  predicate HasStatus(response: Response, status: nat) {
    response.Response? && response.status == status
  }

  /**
   * How the file system and the caller treat one response: whether the part file
   * opened, how each wait for a write came out, whether the flush passed, and
   * the chunk before which the transfer was cancelled or the process died.
   */
  datatype World = World(opens: bool, fate: nat -> Fate, flushes: bool, stops: Option<nat>, landed: nat)

  datatype Archive = Raw | Gzip | TarGz

  const NOT_FOUND: nat := 404
  const RANGE_NOT_SATISFIABLE: nat := 416
  const PARTIAL_CONTENT: nat := 206

  predicate Success(status: nat) {
    200 <= status < 300
  }

  /** A splice would be caught: by a digest, or by a container's own check. */
  predicate ResumeIsCheckable(archive: Archive, hasDigest: bool) {
    hasDigest || !archive.Raw?
  }

  function Joined(chunks: seq<Text>): Text {
    if chunks == [] then [] else Joined(chunks[..|chunks| - 1]) + chunks[|chunks| - 1]
  }

  /** What a response is appended to: the part file when the server agreed to continue it. */
  function Carried(part: Option<Text>, resumeFrom: nat, response: Response): Text {
    if resumeFrom > 0 && HasStatus(response, PARTIAL_CONTENT) && part.Some? then part.value else []
  }

  /** Nothing is added past the limit. */
  ghost predicate Bounded(part: Text, carried: Text, limit: nat) {
    |part| <= limit || part == carried
  }

  // ----- One response ---------------------------------------------------------------------

  /**
   * What storing a body leaves on top of what was carried over, whatever server
   * sent it. A part file that is kept holds what was carried and the beginning of
   * what arrived, or all of it where the transfer says so; a body past the limit,
   * and a file in a state nothing can vouch for, leave none.
   */
  ghost predicate Received(carried: Text, response: Response, limit: nat, part': Option<Text>, r: Result<nat, Failure>)
    requires response.Response?
  {
    var whole := carried + Joined(response.chunks);
    match r
    case Ok(bytes) =>
      && response.clean
      && part' == Some(whole)
      && bytes == |whole|
      && Bounded(whole, carried, limit)
      && (response.declared.Some? ==> |whole| == |carried| + response.declared.value)
    case Err(TooLarge(l)) => part' == None && l == limit && |whole| > limit
    case Err(Truncated(expected, actual)) =>
      && response.clean
      && part' == Some(whole)
      && response.declared.Some?
      && actual == |whole|
      && Bounded(whole, carried, limit)
      && expected == |carried| + response.declared.value != actual
    case Err(Network) => !response.clean && Bounded(whole, carried, limit) && (part' == None || part' == Some(whole))
    case Err(Io) => part' == None
    case Err(Abandoned) => part'.Some? && carried <= part'.value <= whole && Bounded(part'.value, carried, limit)
    case Err(Status(_)) => false
  }

  /** What streaming one response leaves. A refusal, and a file that will not open, leave what there was. */
  ghost predicate Streamed(part: Option<Text>, resumeFrom: nat, response: Response, limit: nat,
                           part': Option<Text>, r: Result<nat, Failure>) {
    var carried := Carried(part, resumeFrom, response);
    if response.Silence? then part' == part && r == Err(if response.cancelled then Abandoned else Network)
    else if !Success(response.status) then part' == part && r == Err(Status(response.status))
    else if response.declared.Some? && response.declared.value + |carried| > limit then
      part' == None && r == Err(TooLarge(limit))
    else
      Received(carried, response, limit, part', r) || (part' == part && r == Err(Io))
  }

  lemma {:induction false} JoinedSplit(chunks: seq<Text>, i: nat)
    requires i <= |chunks|
    ensures Joined(chunks[..i]) <= Joined(chunks)
  {
    if i == |chunks| {
      assert chunks[..i] == chunks;
    } else {
      JoinedSplit(chunks[..|chunks| - 1], i);
      assert chunks[..|chunks| - 1][..i] == chunks[..i];
    }
  }

  lemma JoinedNext(chunks: seq<Text>, i: nat)
    requires i < |chunks|
    ensures Joined(chunks[..i + 1]) == Joined(chunks[..i]) + chunks[i]
  {
    assert chunks[..i + 1][..i] == chunks[..i];
  }

  /** A writer that has been given the first chunks, on top of what was carried over. */
  ghost predicate Writing(initial: Text, given: Text, carried: Text, chunks: seq<Text>, i: nat) {
    i <= |chunks| && initial == carried && given == Joined(chunks[..i])
  }

  /** A file that is the beginning of what it was given is the beginning of the whole body. */
  lemma StoppedEarly(part: Text, given: Text, carried: Text, chunks: seq<Text>, i: nat)
    requires carried <= part <= carried + given && Writing(carried, given, carried, chunks, i)
    ensures carried <= part <= carried + Joined(chunks)
    ensures |part| <= |carried| + |given| <= |carried| + |Joined(chunks)|
  {
    JoinedSplit(chunks, i);
    assert carried + given <= carried + Joined(chunks);
  }

  /** Something of the file system's kept a body from being stored. */
  ghost predicate Hindered(world: World) {
    !world.opens || !world.flushes || exists i: nat :: world.fate(i).Failed? || world.fate(i).Lost?
  }

  /** The transfer was cancelled, or its process died, at or before the end of the chunks. */
  ghost predicate CutOff(world: World, chunks: nat) {
    (world.stops.Some? && world.stops.value <= chunks) || exists i: nat :: world.fate(i).Cancelled?
  }

  /** Storing ends in these ways only for these reasons, and one that passes had none. */
  ghost predicate Blamed(world: World, chunks: nat, r: Result<nat, Failure>) {
    && (r == Err(Abandoned) ==> CutOff(world, chunks))
    && (r == Err(Io) ==> Hindered(world) || CutOff(world, chunks))
    && (r.Ok? ==> world.opens && world.flushes && (world.stops.Some? ==> world.stops.value > chunks))
  }

  /** How reading the chunks ended. */
  datatype Pumped = All(written: nat) | Past | Unwritten | Cut

  /** Stop between two chunks: the write in flight lands, or as much of it as the process lives to write. */
  method StopAt(writer: PartWriter, ghost carried: Text, ghost chunks: seq<Text>, ghost i: nat, ghost limit: nat,
                landed: nat)
    requires writer.Valid() && Writing(writer.initial, writer.given, carried, chunks, i)
    requires |carried| + |writer.given| <= limit || i == 0
    modifies writer
    ensures carried <= writer.part <= carried + Joined(chunks) && Bounded(writer.part, carried, limit)
  {
    var stopped := writer.Settle(Cancelled(landed));
    if stopped.Fine? {
      writer.ValidIsPrefix();
    }
    StoppedEarly(writer.part, writer.given, carried, chunks, i);
  }

  method Pump(writer: PartWriter, ghost carried: Text, start: nat, chunks: seq<Text>, limit: nat, world: World)
      returns (r: Pumped)
    requires limit < U64_MAX && start == |carried|
    requires writer.Valid() && writer.part == writer.initial == carried && writer.given == []
    modifies writer
    ensures r.All? ==> writer.Valid() && Writing(writer.initial, writer.given, carried, chunks, |chunks|)
    ensures r.All? ==> r.written == |carried| + |Joined(chunks)| && (r.written <= limit || chunks == [])
    ensures r.Past? ==> |carried| + |Joined(chunks)| > limit
    ensures r.Cut? ==> carried <= writer.part <= carried + Joined(chunks) && Bounded(writer.part, carried, limit)
    ensures r.Cut? ==> CutOff(world, |chunks|)
    ensures r.Unwritten? ==> Hindered(world)
    ensures r.All? && world.stops.Some? ==> world.stops.value > |chunks|
  {
    var written := start;
    for i := 0 to |chunks|
      invariant writer.Valid() && Writing(writer.initial, writer.given, carried, chunks, i)
      invariant written == |carried| + |writer.given| && (written <= limit || i == 0)
      invariant world.stops.Some? ==> world.stops.value >= i
    {
      if world.stops == Some(i) {
        StopAt(writer, carried, chunks, i, limit, world.landed);
        return Cut;
      }
      JoinedNext(chunks, i);
      JoinedSplit(chunks, i + 1);
      if SatAdd(written, |chunks[i]|) > limit {
        return Past;
      }
      var step := writer.Write(chunks[i], world.fate(i));
      if step.Gone? {
        StoppedEarly(writer.part, writer.given, carried, chunks, i + 1);
        return Cut;
      }
      if step.Broken? {
        return Unwritten;
      }
      written := written + |chunks[i]|;
    }
    assert chunks[..|chunks|] == chunks;
    if world.stops == Some(|chunks|) {
      StopAt(writer, carried, chunks, |chunks|, limit, world.landed);
      return Cut;
    }
    return All(written);
  }

  /** Store a body on top of what was carried over. */
  method Receive(carried: Text, response: Response, expected: Option<nat>, limit: nat, world: World)
      returns (part': Option<Text>, r: Result<nat, Failure>)
    requires limit < U64_MAX && response.Response?
    requires expected == if response.declared.Some? then Some(response.declared.value + |carried|) else None
    ensures Received(carried, response, limit, part', r)
    ensures world.opens ==> Blamed(world, |response.chunks|, r)
  {
    var chunks := response.chunks;
    var writer := new PartWriter(carried);
    var pumped := Pump(writer, carried, |carried|, chunks, limit, world);
    if pumped.Past? {
      return None, Err(TooLarge(limit));
    }
    if pumped.Unwritten? {
      return None, Err(Io);
    }
    if pumped.Cut? {
      return Some(writer.part), Err(Abandoned);
    }
    assert chunks[..|chunks|] == chunks;
    assert chunks == [] ==> carried + Joined(chunks) == carried;
    var step := writer.Finish(world.fate(|chunks|), world.fate(|chunks| + 1), world.flushes);
    if step.Gone? {
      return Some(writer.part), Err(Abandoned);
    }
    if step.Broken? {
      return None, Err(if response.clean then Io else Network);
    }
    if !response.clean {
      return Some(writer.part), Err(Network);
    }
    if expected.Some? && pumped.written != expected.value {
      return Some(writer.part), Err(Truncated(expected.value, pumped.written));
    }
    return Some(writer.part), Ok(pumped.written);
  }

  method StreamFrom(part: Option<Text>, resumeFrom: nat, response: Response, limit: nat, world: World)
      returns (part': Option<Text>, r: Result<nat, Failure>)
    requires limit < U64_MAX
    requires resumeFrom > 0 ==> part.Some? && |part.value| == resumeFrom
    ensures Streamed(part, resumeFrom, response, limit, part', r)
    ensures response.Response? ==> Blamed(world, |response.chunks|, r)
  {
    if response.Silence? {
      return part, Err(if response.cancelled then Abandoned else Network);
    }
    if !Success(response.status) {
      return part, Err(Status(response.status));
    }
    var resuming := resumeFrom > 0 && response.status == PARTIAL_CONTENT;
    var start := if resuming then resumeFrom else 0;
    var expected := if response.declared.Some? then Some(SatAdd(response.declared.value, start)) else None;
    if expected.Some? && expected.value > limit {
      return None, Err(TooLarge(limit));
    }
    if !world.opens {
      return part, Err(Io);
    }
    part', r := Receive(if resuming then part.value else [], response, expected, limit, world);
  }

  // ----- One attempt ------------------------------------------------------------------------

  /**
   * One attempt at a URL: how many seconds old a part file is, if that can be told,
   * and the responses to the request and to the one sent again from the start.
   */
  datatype Attempt = Attempt(age: Option<nat>, first: Response, firstWorld: World, again: Response, againWorld: World)

  /** How long a part file may be continued, in seconds. */
  const RESUME_WINDOW_SECS: nat := 86400

  /** The part file left by dropping one past the resume window. */
  function Recent(part: Option<Text>, age: Option<nat>): Option<Text> {
    if age.Some? && age.value < RESUME_WINDOW_SECS then part else None
  }

  /** Bytes a request continues from. */
  function ResumeFrom(part: Option<Text>, checkable: bool): nat {
    if checkable && part.Some? then |part.value| else 0
  }

  /** The response an attempt ends with. */
  function Answering(part: Option<Text>, checkable: bool, a: Attempt): Response {
    if ResumeFrom(Recent(part, a.age), checkable) > 0 && HasStatus(a.first, RANGE_NOT_SATISFIABLE)
    then a.again else a.first
  }

  /** What an attempt leaves: a range past the end of the body is asked for again from the start. */
  ghost predicate StreamedTo(part: Option<Text>, checkable: bool, a: Attempt, limit: nat,
                             part': Option<Text>, r: Result<nat, Failure>) {
    var kept := Recent(part, a.age);
    var resumeFrom := ResumeFrom(kept, checkable);
    if resumeFrom > 0 && HasStatus(a.first, RANGE_NOT_SATISFIABLE) then Streamed(None, 0, a.again, limit, part', r)
    else Streamed(kept, resumeFrom, a.first, limit, part', r)
  }

  method StreamTo(part: Option<Text>, checkable: bool, a: Attempt, limit: nat)
      returns (part': Option<Text>, r: Result<nat, Failure>)
    requires limit < U64_MAX
    ensures StreamedTo(part, checkable, a, limit, part', r)
  {
    var kept := Recent(part, a.age);
    var resumeFrom := ResumeFrom(kept, checkable);
    part', r := StreamFrom(kept, resumeFrom, a.first, limit, a.firstWorld);
    if r == Err(Status(RANGE_NOT_SATISFIABLE)) && resumeFrom > 0 {
      part', r := StreamFrom(None, 0, a.again, limit, a.againWorld);
    }
  }

  /** Two attempts at most, nothing carried from the first to the second. */
  ghost predicate StreamedEither(part: Option<Text>, checkable: bool, primary: Attempt, fallback: Option<Attempt>,
                                 limit: nat, part': Option<Text>, r: Result<nat, Failure>) {
    exists mid, first ::
      && StreamedTo(part, checkable, primary, limit, mid, first)
      && if fallback.Some? && first == Err(Status(NOT_FOUND))
         then StreamedTo(None, checkable, fallback.value, limit, part', r)
         else part' == mid && r == first
  }

  method StreamWithFallback(part: Option<Text>, checkable: bool, primary: Attempt, fallback: Option<Attempt>,
                            limit: nat)
      returns (part': Option<Text>, r: Result<nat, Failure>)
    requires limit < U64_MAX
    ensures StreamedEither(part, checkable, primary, fallback, limit, part', r)
  {
    part', r := StreamTo(part, checkable, primary, limit);
    if fallback.None? || r != Err(Status(NOT_FOUND)) {
      return;
    }
    ghost var mid, first := part', r;
    assert StreamedTo(part, checkable, primary, limit, mid, first);
    part', r := StreamTo(None, checkable, fallback.value, limit);
  }

  // ----- Against a server of one body ----------------------------------------------------------

  /** A server that holds one body sends it, or what a range asks of it, from the beginning and as far as it gets. */
  ghost predicate Serves(body: Text, resumeFrom: nat, response: Response) {
    response.Response? && Success(response.status) ==>
      var sent := if resumeFrom > 0 && response.status == PARTIAL_CONTENT && resumeFrom <= |body|
                  then body[resumeFrom..] else body;
      && (resumeFrom > 0 && response.status == PARTIAL_CONTENT ==> resumeFrom <= |body|)
      && Joined(response.chunks) <= sent
      && (response.declared.Some? ==> response.declared.value == |sent|)
  }

  /** Every request of an attempt is answered by a server of one body. */
  ghost predicate ServesAttempt(body: Text, part: Option<Text>, checkable: bool, a: Attempt) {
    && Serves(body, ResumeFrom(Recent(part, a.age), checkable), a.first)
    && Serves(body, 0, a.again)
  }

  /** A part file is a beginning of the body within the limit, if there is one. */
  ghost predicate Resumable(part: Option<Text>, body: Text, limit: nat) {
    part.Some? ==> part.value <= body && |part.value| <= limit
  }

  lemma ServedWhole(part: Option<Text>, resumeFrom: nat, response: Response, body: Text)
    requires resumeFrom > 0 ==> part.Some? && |part.value| == resumeFrom && part.value <= body
    requires response.Response? && Success(response.status) && Serves(body, resumeFrom, response)
    ensures var carried := Carried(part, resumeFrom, response);
            && carried + Joined(response.chunks) <= body
            && (response.declared.Some? ==> |carried| + response.declared.value == |body|)
  {
    if resumeFrom > 0 && response.status == PARTIAL_CONTENT {
      assert body == part.value + body[resumeFrom..];
    }
  }

  lemma StreamedKeeps(part: Option<Text>, resumeFrom: nat, response: Response, limit: nat, body: Text,
                      part': Option<Text>, r: Result<nat, Failure>)
    requires Streamed(part, resumeFrom, response, limit, part', r)
    requires resumeFrom > 0 ==> part.Some? && |part.value| == resumeFrom
    requires Resumable(part, body, limit) && Serves(body, resumeFrom, response)
    ensures Resumable(part', body, limit)
    ensures r.Ok? ==> response.Response?
    ensures r.Ok? && response.declared.Some? ==> part' == Some(body)
  {
    if response.Response? && Success(response.status) {
      ServedWhole(part, resumeFrom, response, body);
      var carried := Carried(part, resumeFrom, response);
      var whole := carried + Joined(response.chunks);
      if part'.Some? && part' != part {
        assert part'.value <= whole && Bounded(part'.value, carried, limit);
      }
      if r.Ok? && response.declared.Some? {
        assert whole == body[..|whole|] == body;
      }
    }
  }

  /**
   * However an attempt ends, cut off at any chunk included, it leaves no part
   * file or a beginning of the body within the limit; and one that succeeds
   * against a declared length leaves the body.
   */
  lemma AttemptKeeps(part: Option<Text>, checkable: bool, a: Attempt, limit: nat, body: Text,
                     part': Option<Text>, r: Result<nat, Failure>)
    requires StreamedTo(part, checkable, a, limit, part', r)
    requires Resumable(part, body, limit) && ServesAttempt(body, part, checkable, a)
    ensures Resumable(part', body, limit)
    ensures r.Ok? ==> Answering(part, checkable, a).Response?
    ensures r.Ok? && Answering(part, checkable, a).declared.Some? ==> part' == Some(body)
  {
    var kept := Recent(part, a.age);
    var resumeFrom := ResumeFrom(kept, checkable);
    if resumeFrom > 0 && HasStatus(a.first, RANGE_NOT_SATISFIABLE) {
      StreamedKeeps(None, 0, a.again, limit, body, part', r);
    } else {
      StreamedKeeps(kept, resumeFrom, a.first, limit, body, part', r);
    }
  }

  /** One attempt of a run, the part file it left, and how it ended. */
  datatype Turn = Turn(attempt: Attempt, left: Option<Text>, r: Result<nat, Failure>)

  /**
   * A failure removes a part file that holds nothing; a success is used up, or kept
   * when its digest is not to be had.
   */
  ghost predicate Turned(part: Option<Text>, checkable: bool, t: Turn, limit: nat, part': Option<Text>) {
    && StreamedTo(part, checkable, t.attempt, limit, t.left, t.r)
    && (part' == t.left || (part' == None && (t.r.Ok? || t.left == Some([]))))
  }

  ghost predicate TurnAt(parts: seq<Option<Text>>, turns: seq<Turn>, i: nat, checkable: bool, limit: nat, body: Text)
    requires i < |turns| && |parts| == |turns| + 1
  {
    && Turned(parts[i], checkable, turns[i], limit, parts[i + 1])
    && ServesAttempt(body, parts[i], checkable, turns[i].attempt)
  }

  /** Attempts one after another, each answered by a server of one body, from no part file. */
  ghost predicate RunOfAttempts(parts: seq<Option<Text>>, turns: seq<Turn>, checkable: bool, limit: nat, body: Text) {
    && |parts| == |turns| + 1 && parts[0] == None
    && forall i :: 0 <= i < |turns| ==> TurnAt(parts, turns, i, checkable, limit, body)
  }

  /**
   * Through any run of attempts, failed, cancelled or cut short by a crash, the
   * part file stays a beginning of the body within the limit.
   */
  lemma {:induction false} EveryRunResumes(parts: seq<Option<Text>>, turns: seq<Turn>, checkable: bool, limit: nat,
                                           body: Text, n: nat)
    requires RunOfAttempts(parts, turns, checkable, limit, body) && n < |parts|
    ensures Resumable(parts[n], body, limit)
  {
    if n > 0 {
      EveryRunResumes(parts, turns, checkable, limit, body, n - 1);
      var t := turns[n - 1];
      assert TurnAt(parts, turns, n - 1, checkable, limit, body);
      AttemptKeeps(parts[n - 1], checkable, t.attempt, limit, body, t.left, t.r);
    }
  }

  /** So whichever attempt succeeds against a declared length, after whatever others, ends with the body. */
  lemma SuccessIsTheBody(parts: seq<Option<Text>>, turns: seq<Turn>, checkable: bool, limit: nat, body: Text, n: nat)
    requires RunOfAttempts(parts, turns, checkable, limit, body) && n < |turns|
    requires turns[n].r.Ok?
    requires var answer := Answering(parts[n], checkable, turns[n].attempt); answer.Response? && answer.declared.Some?
    ensures turns[n].left == Some(body)
  {
    EveryRunResumes(parts, turns, checkable, limit, body, n);
    assert TurnAt(parts, turns, n, checkable, limit, body);
    AttemptKeeps(parts[n], checkable, turns[n].attempt, limit, body, turns[n].left, turns[n].r);
  }

  // ----- Against any server ------------------------------------------------------------------------

  /**
   * A raw transfer with no digest is never continued, so whatever servers answer
   * and whatever was left before, one that succeeds ends with the bytes of one
   * single response.
   */
  lemma UncheckableIsOneResponse(part: Option<Text>, archive: Archive, hasDigest: bool, primary: Attempt,
                                 fallback: Option<Attempt>, limit: nat, part': Option<Text>, r: Result<nat, Failure>)
    requires archive.Raw? && !hasDigest
    requires StreamedEither(part, ResumeIsCheckable(archive, hasDigest), primary, fallback, limit, part', r)
    requires r.Ok?
    ensures || (primary.first.Response? && part' == Some(Joined(primary.first.chunks)))
            || (fallback.Some? && fallback.value.first.Response?
                && part' == Some(Joined(fallback.value.first.chunks)))
  {
    assert forall text: Text :: [] + text == text;
  }

  /**
   * When a left-over part file is continued, as seen in what a request against it
   * comes to. One a day old, of no known age, or raw with no digest to check it by
   * is as good as none; any other goes in front of what a server answers to the
   * range with a 206, and is dropped for any other success.
   */
  lemma ContinuedExactly(part: Text, archive: Archive, hasDigest: bool, a: Attempt, limit: nat,
                         part': Option<Text>, r: Result<nat, Failure>)
    requires part != [] && StreamedTo(Some(part), ResumeIsCheckable(archive, hasDigest), a, limit, part', r) && r.Ok?
    ensures var continued := a.age.Some? && a.age.value < 86400 && (hasDigest || archive != Raw);
            && (continued && a.first.Response? && a.first.status == 206 ==>
                  part' == Some(part + Joined(a.first.chunks)))
            && (continued && a.first.Response? && a.first.status == 416 ==>
                  a.again.Response? && part' == Some(Joined(a.again.chunks)))
            && (!continued || (a.first.Response? && a.first.status != 206 && a.first.status != 416) ==>
                  a.first.Response? && part' == Some(Joined(a.first.chunks)))
  {
    assert forall text: Text :: [] + text == text;
  }

  /** A response that is no success, 200 to 299, leaves the part file and is reported by its status. */
  lemma NoSuccessIsReported(part: Option<Text>, resumeFrom: nat, response: Response, limit: nat,
                            part': Option<Text>, r: Result<nat, Failure>)
    requires Streamed(part, resumeFrom, response, limit, part', r) && response.Response?
    ensures response.status < 200 || response.status > 299 <==> r.Err? && r.error.Status?
    ensures response.status < 200 || response.status > 299 ==> part' == part && r == Err(Status(response.status))
  {
  }

  /** Only a 404 has the fallback asked: any other end of the primary is the end. */
  lemma FallbackFollowsNotFound(part: Option<Text>, checkable: bool, primary: Attempt, fallback: Attempt, limit: nat,
                                part': Option<Text>, r: Result<nat, Failure>)
    requires StreamedEither(part, checkable, primary, Some(fallback), limit, part', r)
    ensures StreamedTo(part, checkable, primary, limit, part', r) ||
            (StreamedTo(None, checkable, fallback, limit, part', r) &&
             (HasStatus(primary.first, 404) || HasStatus(primary.again, 404)))
    ensures r == Err(Status(404)) ==>
              HasStatus(fallback.first, 404) || HasStatus(fallback.again, 404)
  {
  }

  /** Whatever the servers, nothing is ever added past the limit. */
  lemma NeverPastTheLimit(part: Option<Text>, checkable: bool, a: Attempt, limit: nat,
                          part': Option<Text>, r: Result<nat, Failure>)
    requires StreamedTo(part, checkable, a, limit, part', r)
    requires part.Some? ==> |part.value| <= limit
    ensures part'.Some? ==> |part'.value| <= limit
  {
  }

  /**
   * Whatever URL left a part file, a success against a server of one body and a
   * declared length ends with that body exactly when what it carried over is a
   * beginning of it: nothing else of a left-over file is ever noticed here.
   */
  lemma ContinuedRightly(part: Option<Text>, checkable: bool, a: Attempt, limit: nat, body: Text,
                         part': Option<Text>, r: Result<nat, Failure>)
    requires StreamedTo(part, checkable, a, limit, part', r) && ServesAttempt(body, part, checkable, a) && r.Ok?
    requires var answer := Answering(part, checkable, a); answer.Response? && answer.declared.Some?
    ensures var kept := Recent(part, a.age);
            part' == Some(body) <==> Carried(kept, ResumeFrom(kept, checkable), a.first) <= body
  {
    var kept := Recent(part, a.age);
    var resumeFrom := ResumeFrom(kept, checkable);
    if resumeFrom > 0 && HasStatus(a.first, RANGE_NOT_SATISFIABLE) {
      StoredOnTop(None, 0, a.again, limit, body, part', r);
    } else {
      StoredOnTop(kept, resumeFrom, a.first, limit, body, part', r);
    }
  }

  /** A success of the declared length is what was carried, then the rest of the body from there on. */
  lemma StoredOnTop(part: Option<Text>, resumeFrom: nat, response: Response, limit: nat, body: Text,
                    part': Option<Text>, r: Result<nat, Failure>)
    requires Streamed(part, resumeFrom, response, limit, part', r) && r.Ok?
    requires resumeFrom > 0 ==> part.Some? && |part.value| == resumeFrom
    requires response.Response? && response.declared.Some? && Serves(body, resumeFrom, response)
    ensures part' == Some(body) <==> Carried(part, resumeFrom, response) <= body
  {
    var carried, sent := Carried(part, resumeFrom, response), Joined(response.chunks);
    assert part' == Some(carried + sent) && |carried| <= |body|;
    assert sent == body[|carried|..];
    assert body == body[..|carried|] + body[|carried|..];
    if carried + sent == body {
      assert carried == body[..|carried|];
    }
  }

  /** Such a part file is what a cut-off fallback leaves, once the primary is published and differs. */
  lemma FallbackIsContinuedFromPrimary(a: u8, b: u8)
    requires a != b
    ensures exists missing: Attempt, fallback: Attempt, primary: Attempt ::
              && HasStatus(missing.first, NOT_FOUND)
              && StreamedEither(None, true, missing, Some(fallback), 8, Some([a]), Err(Network))
              && Serves([a, a], 0, fallback.first)
              && Serves([b, b], 1, primary.first)
              && StreamedEither(Some([a]), true, primary, Some(fallback), 8, Some([a, b]), Ok(2))
  {
    var world := World(true, n => Landed, true, None, 0);
    var none := Response(NOT_FOUND, None, [], true);
    var missing := Attempt(Some(0), none, world, none, world);
    var cut := Response(200, Some(2), [[a]], false);
    var rest := Response(PARTIAL_CONTENT, Some(1), [[b]], true);
    var fallback := Attempt(Some(0), cut, world, none, world);
    var primary := Attempt(Some(0), rest, world, none, world);
    CutAfterOne(a, cut);
    OneMore(a, b, rest);
    assert StreamedTo(None, true, missing, 8, None, Err(Status(NOT_FOUND)));
    assert StreamedTo(None, true, fallback, 8, Some([a]), Err(Network));
    assert StreamedTo(Some([a]), true, primary, 8, Some([a, b]), Ok(2));
  }

  lemma CutAfterOne(a: u8, response: Response)
    requires response == Response(200, Some(2), [[a]], false)
    ensures Streamed(None, 0, response, 8, Some([a]), Err(Network)) && Serves([a, a], 0, response)
  {
    assert Joined([[a]]) == [a];
    assert [] + [a] == [a];
  }

  lemma OneMore(a: u8, b: u8, response: Response)
    requires response == Response(PARTIAL_CONTENT, Some(1), [[b]], true)
    ensures Streamed(Some([a]), 1, response, 8, Some([a, b]), Ok(2)) && Serves([b, b], 1, response)
  {
    assert Joined([[b]]) == [b];
    assert [a] + [b] == [a, b];
    assert [b, b][1..] == [b];
  }
}
