/**
 * Lookups, refreshes and evictions over one shared cache, as interleaved steps.
 *
 * Each step is one atomic access to the shared state: the cache, the published
 * reader set, the generation counter or the clock. A run is any sequence of
 * enabled steps, so it covers every interleaving of any number of lookups.
 */
module Enricher {
  import opened Basics

  type Ip = int
  type Id = nat

  /** The databases of one reader set, and an answer out of them. */
  type Content = int
  type Record = Option<int>

  /** What does not change: how a database answers, and the age limit. */
  datatype Env = Env(read: (Content, Ip) -> Record, maxAge: Option<nat>)

  datatype Readers = Readers(content: Content, generation: nat)

  datatype Entry = Entry(loaded: nat, generation: nat, record: Record)

  /** How far a lookup has got; one waits on the lookup that holds its address. */
  datatype Progress =
    | Probing
    | Waiting(on: Id)
    | Checking(entry: Entry)
    | Ageing(entry: Entry)
    | Missing
    | Loaded(readers: Readers)
    | Inserting(entry: Entry)
    | Done(entry: Entry)

  /** A lookup, the generation and time it began at, and whether a placeholder was ever its own. */
  datatype Lookup = Lookup(ip: Ip, born: nat, began: nat, held: bool, at: Progress)

  /** How far the one refresh holding the lock has got. */
  datatype Refresh = Idle | Locked | Stamped(next: Readers) | Stored(generation: nat) | Clearing

  /**
   * `history` is every content installed, by generation, and `holders` names
   * the lookup whose placeholder stands for an address.
   */
  datatype State = State(
    readers: Readers, generation: nat, history: seq<Content>, refresh: Refresh,
    cache: map<Ip, Entry>, holders: map<Ip, Id>,
    now: nat, lookups: map<Id, Lookup>)

  datatype Step =
    | Begin(id: Id, ip: Ip)
    | Hit(id: Id)
    | Hold(id: Id)
    | Wait(id: Id)
    | Receive(id: Id)
    | Retry(id: Id)
    | Check(id: Id)
    | Age(id: Id)
    | Load(id: Id)
    | Read(id: Id)
    | Insert(id: Id)
    | Lock
    | Stamp(content: Content)
    | Store
    | Publish
    | Clear(dropped: set<Ip>)
    | Unlock
    | Evict(dropped: set<Ip>)
    | Tick(ticks: nat)

  function Opened(content: Content): State {
    State(Readers(content, 0), 0, [content], Idle, map[], map[], 0, map[])
  }

  function Moved(s: State, id: Id, at: Progress): State
    requires id in s.lookups
  {
    s.(lookups := s.lookups[id := s.lookups[id].(at := at)])
  }

  predicate InTime(env: Env, entry: Entry, now: nat) {
    env.maxAge.None? || now <= entry.loaded + env.maxAge.value
  }

  /** The placeholder of a lookup stands. */
  predicate Stands(s: State, ip: Ip, id: Id) {
    ip in s.holders && s.holders[ip] == id
  }

  /** Asking the cache: for its entry, for a placeholder, or for what the holder of one reads. */
  function Probe(s: State, id: Id, step: Step): Option<State>
    requires id in s.lookups
  {
    var ip, at := s.lookups[id].ip, s.lookups[id].at;
    if step.Hit? && at.Probing? && ip in s.cache then Some(Moved(s, id, Checking(s.cache[ip])))
    else if step.Hold? && at.Probing? && ip !in s.cache && ip !in s.holders then
      Some(s.(lookups := s.lookups[id := s.lookups[id].(held := true, at := Missing)],
              holders := s.holders[ip := id]))
    else if step.Wait? && at.Probing? && ip in s.holders then Some(Moved(s, id, Waiting(s.holders[ip])))
    else if step.Receive? && at.Waiting? && at.on in s.lookups && HasRead(s.lookups[at.on]) then
      Some(Moved(s, id, Checking(s.lookups[at.on].at.entry)))
    else if step.Retry? && at.Waiting? && !Stands(s, ip, at.on) then Some(Moved(s, id, Probing))
    else None
  }

  predicate HasRead(lookup: Lookup) {
    lookup.at.Inserting? || lookup.at.Done?
  }

  /** Testing an entry that was found: one that fails is read again, with no placeholder. */
  function Judge(env: Env, s: State, id: Id, step: Step): Option<State>
    requires id in s.lookups
  {
    var at := s.lookups[id].at;
    if step.Check? && at.Checking? then
      Some(Moved(s, id, if at.entry.generation == s.generation then Ageing(at.entry) else Missing))
    else if step.Age? && at.Ageing? then
      Some(Moved(s, id, if InTime(env, at.entry, s.now) then Done(at.entry) else Missing))
    else None
  }

  /** What a lookup reads is filed, unless a placeholder was its own and stands no more. */
  predicate CanFile(s: State, id: Id)
    requires id in s.lookups
  {
    s.lookups[id].held ==> Stands(s, s.lookups[id].ip, id)
  }

  /** Reading the databases and filing the answer. */
  function Fetch(env: Env, s: State, id: Id, step: Step): Option<State>
    requires id in s.lookups
  {
    var ip, at := s.lookups[id].ip, s.lookups[id].at;
    if step.Load? && at.Missing? then Some(Moved(s, id, Loaded(s.readers)))
    else if step.Read? && at.Loaded? then
      Some(Moved(s, id, Inserting(Entry(s.now, at.readers.generation, env.read(at.readers.content, ip)))))
    else if step.Insert? && at.Inserting? then
      var t := Moved(s, id, Done(at.entry));
      Some(if CanFile(s, id) then t.(cache := s.cache[ip := at.entry], holders := s.holders - {ip}) else t)
    else None
  }

  /** One step of one lookup. */
  function Advance(env: Env, s: State, id: Id, step: Step): Option<State>
    requires id in s.lookups
  {
    if step.Check? || step.Age? then Judge(env, s, id, step)
    else if step.Load? || step.Read? || step.Insert? then Fetch(env, s, id, step)
    else Probe(s, id, step)
  }

  /** Dropping addresses from the cache drops their placeholders with them. */
  function Dropped(s: State, ips: set<Ip>): State {
    s.(cache := s.cache - ips, holders := s.holders - ips)
  }

  /** One step of the refresh that holds the lock: readers, then generation, then the clear. */
  function Swap(s: State, step: Step): Option<State> {
    if step.Lock? && s.refresh.Idle? then Some(s.(refresh := Locked))
    else if step.Stamp? && s.refresh.Locked? then
      Some(s.(refresh := Stamped(Readers(step.content, s.generation + 1))))
    else if step.Store? && s.refresh.Stamped? then
      Some(s.(readers := s.refresh.next,
              history := s.history + [s.refresh.next.content],
              refresh := Stored(s.refresh.next.generation)))
    else if step.Publish? && s.refresh.Stored? then Some(s.(generation := s.refresh.generation, refresh := Clearing))
    else if step.Clear? && s.refresh.Clearing? then Some(Dropped(s, step.dropped))
    else if step.Unlock? && (s.refresh.Locked? || s.refresh.Clearing?) then Some(s.(refresh := Idle))
    else None
  }

  function Begun(s: State, id: Id, ip: Ip): State {
    s.(lookups := s.lookups[id := Lookup(ip, s.generation, s.now, false, Probing)])
  }

  function Take(env: Env, s: State, step: Step): Option<State> {
    match step
    case Begin(id, ip) =>
      if id in s.lookups then None
      else Some(Begun(s, id, ip))
    case Evict(dropped) => Some(Dropped(s, dropped))
    case Tick(ticks) => Some(s.(now := s.now + ticks))
    case Lock | Stamp(_) | Store | Publish | Clear(_) | Unlock => Swap(s, step)
    case _ => if step.id in s.lookups then Advance(env, s, step.id, step) else None
  }

  /** The state some steps lead to, when each is enabled where it is taken. */
  function Run(env: Env, s: State, steps: seq<Step>): Option<State> {
    if steps == [] then Some(s)
    else
      var before := Run(env, s, steps[..|steps| - 1]);
      if before.None? then None else Take(env, before.value, steps[|steps| - 1])
  }

  // ----- What every step keeps ------------------------------------------------------

  /** The reader set is the one its generation names, at most one ahead of what is published. */
  ghost predicate Numbered(s: State) {
    && s.generation <= s.readers.generation <= s.generation + 1
    && |s.history| == s.readers.generation + 1
    && s.history[s.readers.generation] == s.readers.content
    && match s.refresh
       case Stamped(next) => s.generation == s.readers.generation && next.generation == s.generation + 1
       case Stored(generation) => s.readers.generation == generation == s.generation + 1
       case _ => s.generation == s.readers.generation
  }

  /** An entry is a read of the reader set its generation names. */
  ghost predicate Genuine(env: Env, s: State, ip: Ip, entry: Entry) {
    && entry.generation < |s.history|
    && entry.record == env.read(s.history[entry.generation], ip)
    && entry.loaded <= s.now
  }

  /** An answer fit to give: read from nothing older than the lookup began with, and in time. */
  ghost predicate Fit(env: Env, s: State, lookup: Lookup, entry: Entry) {
    && Genuine(env, s, lookup.ip, entry)
    && lookup.born <= entry.generation
    && InTime(env, entry, lookup.began)
  }

  ghost predicate Sound(env: Env, s: State, lookup: Lookup) {
    && lookup.born <= s.generation
    && lookup.began <= s.now
    && (lookup.held ==> Holding(lookup) || lookup.at.Done?)
    && match lookup.at
       case Probing => true
       case Waiting(on) => on in s.lookups && s.lookups[on].ip == lookup.ip && s.lookups[on].held
       case Missing => true
       case Checking(entry) => Genuine(env, s, lookup.ip, entry)
       case Ageing(entry) => Genuine(env, s, lookup.ip, entry) && lookup.born <= entry.generation
       case Loaded(readers) =>
         && lookup.born <= readers.generation < |s.history|
         && s.history[readers.generation] == readers.content
       case Inserting(entry) => Fit(env, s, lookup, entry)
       case Done(entry) => Fit(env, s, lookup, entry)
  }

  /** A lookup on its way to file what it reads. */
  predicate Holding(lookup: Lookup) {
    lookup.at.Missing? || lookup.at.Loaded? || lookup.at.Inserting?
  }

  /** A placeholder stands for an address not cached, and its holder has yet to file. */
  ghost predicate Placed(s: State) {
    forall ip <- s.holders ::
      && ip !in s.cache
      && s.holders[ip] in s.lookups
      && var lookup := s.lookups[s.holders[ip]];
         lookup.ip == ip && lookup.held && Holding(lookup)
  }

  ghost predicate Inv(env: Env, s: State) {
    && Numbered(s)
    && Placed(s)
    && (forall ip <- s.cache :: Genuine(env, s, ip, s.cache[ip]))
    && (forall id <- s.lookups :: Sound(env, s, s.lookups[id]))
  }

  /** Nothing is taken back: what was installed, published, begun or timed stays so. */
  ghost predicate Later(s: State, t: State) {
    && s.history <= t.history
    && s.generation <= t.generation
    && s.now <= t.now
    && (forall id <- s.lookups :: id in t.lookups)
    && forall id <- t.lookups ::
         if id in s.lookups then
           && t.lookups[id].ip == s.lookups[id].ip
           && t.lookups[id].born == s.lookups[id].born
           && t.lookups[id].began == s.lookups[id].began
         else s.generation <= t.lookups[id].born && s.now <= t.lookups[id].began
  }

  lemma LaterStill(s: State, t: State, u: State)
    requires Later(s, t) && Later(t, u)
    ensures Later(s, u)
  {
  }

  /** A step of one lookup that leaves it sound, and the cache and the placeholders in order. */
  lemma MovedKeeps(env: Env, s: State, t: State, id: Id)
    requires Inv(env, s) && id in s.lookups && id in t.lookups
    requires t == s.(lookups := s.lookups[id := t.lookups[id]], cache := t.cache, holders := t.holders)
    requires Sound(env, s, t.lookups[id]) && Placed(t)
    requires t.lookups[id].ip == s.lookups[id].ip && t.lookups[id].born == s.lookups[id].born
    requires t.lookups[id].began == s.lookups[id].began && (s.lookups[id].held ==> t.lookups[id].held)
    requires forall ip <- t.cache :: Genuine(env, s, ip, t.cache[ip])
    ensures Inv(env, t) && Later(s, t)
  {
    forall other <- t.lookups
      ensures Sound(env, t, t.lookups[other])
    {
      assert Sound(env, s, t.lookups[other]);
    }
  }

  lemma FiledKeeps(env: Env, s: State, cache: map<Ip, Entry>, holders: map<Ip, Id>)
    requires Inv(env, s)
    requires forall ip <- cache :: Genuine(env, s, ip, cache[ip])
    requires forall ip <- holders :: ip !in cache && Stands(s, ip, holders[ip])
    ensures var t := s.(cache := cache, holders := holders); Inv(env, t) && Later(s, t)
  {
    var t := s.(cache := cache, holders := holders);
    forall id <- t.lookups
      ensures Sound(env, t, t.lookups[id])
    {
      assert Sound(env, s, s.lookups[id]);
    }
  }

  lemma DroppedKeeps(env: Env, s: State, ips: set<Ip>)
    requires Inv(env, s)
    ensures Inv(env, Dropped(s, ips)) && Later(s, Dropped(s, ips))
  {
    FiledKeeps(env, s, s.cache - ips, s.holders - ips);
  }

  lemma ProbeKeeps(env: Env, s: State, id: Id, step: Step)
    requires Inv(env, s) && id in s.lookups && Probe(s, id, step).Some?
    ensures var t := Probe(s, id, step).value; Inv(env, t) && Later(s, t)
  {
    var t := Probe(s, id, step).value;
    assert Sound(env, s, s.lookups[id]);
    if step.Receive? {
      assert Sound(env, s, s.lookups[s.lookups[id].at.on]);
    }
    MovedKeeps(env, s, t, id);
  }

  lemma JudgeKeeps(env: Env, s: State, id: Id, step: Step)
    requires Inv(env, s) && id in s.lookups && Judge(env, s, id, step).Some?
    ensures var t := Judge(env, s, id, step).value; Inv(env, t) && Later(s, t)
  {
    assert Sound(env, s, s.lookups[id]);
    MovedKeeps(env, s, Judge(env, s, id, step).value, id);
  }

  lemma FetchKeeps(env: Env, s: State, id: Id, step: Step)
    requires Inv(env, s) && id in s.lookups && Fetch(env, s, id, step).Some?
    ensures var t := Fetch(env, s, id, step).value; Inv(env, t) && Later(s, t)
  {
    assert Sound(env, s, s.lookups[id]);
    MovedKeeps(env, s, Fetch(env, s, id, step).value, id);
  }

  lemma AdvanceKeeps(env: Env, s: State, id: Id, step: Step)
    requires Inv(env, s) && id in s.lookups && Advance(env, s, id, step).Some?
    ensures var t := Advance(env, s, id, step).value; Inv(env, t) && Later(s, t)
  {
    if step.Check? || step.Age? {
      JudgeKeeps(env, s, id, step);
    } else if step.Load? || step.Read? || step.Insert? {
      FetchKeeps(env, s, id, step);
    } else {
      ProbeKeeps(env, s, id, step);
    }
  }

  /** A step of one lookup takes a placeholder for itself alone, and files nothing but its answer. */
  ghost predicate Touches(s: State, t: State, id: Id)
    requires id in s.lookups
  {
    && id in t.lookups
    && t == s.(lookups := s.lookups[id := t.lookups[id]], cache := t.cache, holders := t.holders)
    && t.lookups[id].ip == s.lookups[id].ip
    && (forall ip <- t.holders :: t.holders[ip] != id ==> Stands(s, ip, t.holders[ip]))
    && (t.cache == s.cache ||
        (CanFile(s, id) && s.lookups[id].at.Inserting? &&
         t.cache == s.cache[s.lookups[id].ip := s.lookups[id].at.entry]))
  }

  /** A step of no lookup begins none, and only takes from the cache and the placeholders. */
  ghost predicate Shrinks(s: State, t: State) {
    && t.lookups == s.lookups
    && s.readers.generation <= t.readers.generation
    && (forall ip <- t.cache :: ip in s.cache && t.cache[ip] == s.cache[ip])
    && (forall ip <- t.holders :: Stands(s, ip, t.holders[ip]))
  }

  predicate OfNoLookup(step: Step) {
    || step.Evict? || step.Tick?
    || step.Lock? || step.Stamp? || step.Store? || step.Publish? || step.Clear? || step.Unlock?
  }

  lemma SwapShrinks(s: State, t: State, step: Step)
    requires Numbered(s) && Swap(s, step) == Some(t)
    ensures Shrinks(s, t)
  {
  }

  lemma OthersShrink(env: Env, s: State, t: State, step: Step)
    requires Numbered(s) && OfNoLookup(step) && Take(env, s, step) == Some(t)
    ensures Shrinks(s, t)
  {
    if !step.Evict? && !step.Tick? {
      SwapShrinks(s, t, step);
    }
  }

  lemma AdvanceTouches(env: Env, s: State, t: State, id: Id, step: Step)
    requires id in s.lookups && Advance(env, s, id, step) == Some(t)
    ensures Touches(s, t, id)
  {
  }

  /** A longer history, or a later generation or time, spoils no entry and no lookup. */
  lemma StaysSound(env: Env, s: State, t: State)
    requires Inv(env, s) && Numbered(t)
    requires s.history <= t.history && s.generation <= t.generation && s.now <= t.now
    requires t.lookups == s.lookups && t.cache == s.cache && t.holders == s.holders
    ensures Inv(env, t) && Later(s, t)
  {
    forall id <- t.lookups
      ensures Sound(env, t, t.lookups[id])
    {
      assert Sound(env, s, s.lookups[id]);
    }
  }

  lemma SwapKeeps(env: Env, s: State, step: Step)
    requires Inv(env, s) && Swap(s, step).Some?
    ensures var t := Swap(s, step).value; Inv(env, t) && Later(s, t)
  {
    if step.Clear? {
      DroppedKeeps(env, s, step.dropped);
    } else {
      StaysSound(env, s, Swap(s, step).value);
    }
  }

  lemma BegunKeeps(env: Env, s: State, id: Id, ip: Ip)
    requires Inv(env, s) && id !in s.lookups
    ensures Inv(env, Begun(s, id, ip)) && Later(s, Begun(s, id, ip))
  {
    var t := Begun(s, id, ip);
    forall other <- t.lookups
      ensures Sound(env, t, t.lookups[other])
    {
      assert other in s.lookups ==> Sound(env, s, s.lookups[other]);
    }
  }

  lemma TakeKeeps(env: Env, s: State, step: Step)
    requires Inv(env, s) && Take(env, s, step).Some?
    ensures var t := Take(env, s, step).value; Inv(env, t) && Later(s, t)
  {
    match step
    case Begin(id, ip) => BegunKeeps(env, s, id, ip);
    case Evict(dropped) => DroppedKeeps(env, s, dropped);
    case Tick(_) => StaysSound(env, s, Take(env, s, step).value);
    case Lock | Stamp(_) | Store | Publish | Clear(_) | Unlock => SwapKeeps(env, s, step);
    case _ => AdvanceKeeps(env, s, step.id, step);
  }

  lemma {:induction false} RunKeeps(env: Env, s: State, steps: seq<Step>)
    requires Inv(env, s) && Run(env, s, steps).Some?
    ensures var t := Run(env, s, steps).value; Inv(env, t) && Later(s, t)
  {
    if steps != [] {
      var n := |steps| - 1;
      RunKeeps(env, s, steps[..n]);
      TakeKeeps(env, Run(env, s, steps[..n]).value, steps[n]);
      LaterStill(s, Run(env, s, steps[..n]).value, Run(env, s, steps).value);
    }
  }

  // ----- Over every run ----------------------------------------------------------------

  /**
   * Over every interleaving, the reader set is at most one generation ahead of
   * the published one, and every cached answer is a read of the set it names.
   */
  lemma CacheIsGenuine(env: Env, content: Content, steps: seq<Step>)
    requires Run(env, Opened(content), steps).Some?
    ensures var s := Run(env, Opened(content), steps).value;
            && s.generation <= s.readers.generation <= s.generation + 1
            && s.readers.generation < |s.history|
            && s.readers.content == s.history[s.readers.generation]
            && forall ip <- s.cache :: Genuine(env, s, ip, s.cache[ip])
  {
    RunKeeps(env, Opened(content), steps);
  }

  /** Two stretches of a run keep what every step keeps. */
  lemma RunTwice(env: Env, content: Content, before: seq<Step>, after: seq<Step>, s: State, t: State)
    requires Run(env, Opened(content), before) == Some(s) && Run(env, s, after) == Some(t)
    ensures Inv(env, s) && Inv(env, t) && Later(s, t)
  {
    RunKeeps(env, Opened(content), before);
    RunKeeps(env, s, after);
  }

  lemma AnswersFrom(env: Env, s: State, t: State, id: Id)
    requires Inv(env, s) && Inv(env, t) && Later(s, t)
    requires id !in s.lookups && id in t.lookups && t.lookups[id].at.Done?
    ensures s.generation <= t.lookups[id].at.entry.generation <= t.readers.generation < |t.history|
    ensures Genuine(env, t, t.lookups[id].ip, t.lookups[id].at.entry)
    ensures InTime(env, t.lookups[id].at.entry, s.now)
  {
    assert Sound(env, t, t.lookups[id]);
  }

  /**
   * A lookup that begins after a generation was published answers from that one
   * or a later one that was installed before it finished, whatever stale answers
   * reach the cache in between, and from a read no older than the age limit.
   */
  lemma NeverOlder(env: Env, content: Content, before: seq<Step>, after: seq<Step>, s: State, t: State, id: Id)
    requires Run(env, Opened(content), before) == Some(s) && Run(env, s, after) == Some(t)
    requires id !in s.lookups && id in t.lookups && t.lookups[id].at.Done?
    ensures var lookup, entry := t.lookups[id], t.lookups[id].at.entry;
            && s.generation <= entry.generation <= t.readers.generation < |t.history|
            && entry.record == env.read(t.history[entry.generation], lookup.ip)
            && InTime(env, entry, s.now)
  {
    RunTwice(env, content, before, after, s, t);
    AnswersFrom(env, s, t, id);
  }

  /** With no refresh from its beginning to its end, a lookup answers what the databases hold. */
  lemma UndisturbedIsExact(env: Env, content: Content, before: seq<Step>, after: seq<Step>, s: State, t: State, id: Id)
    requires Run(env, Opened(content), before) == Some(s) && Run(env, s, after) == Some(t)
    requires id !in s.lookups && id in t.lookups && t.lookups[id].at.Done?
    requires !s.refresh.Stored? && t.readers.generation == s.readers.generation
    ensures t.lookups[id].at.entry.record == env.read(s.readers.content, t.lookups[id].ip)
  {
    RunTwice(env, content, before, after, s, t);
    SettledIsExact(env, s, t, id);
  }

  lemma SettledIsExact(env: Env, s: State, t: State, id: Id)
    requires Inv(env, s) && Inv(env, t) && Later(s, t)
    requires id !in s.lookups && id in t.lookups && t.lookups[id].at.Done?
    requires !s.refresh.Stored? && t.readers.generation == s.readers.generation
    ensures t.lookups[id].at.entry.record == env.read(s.readers.content, t.lookups[id].ip)
  {
    assert Sound(env, t, t.lookups[id]);
    assert t.lookups[id].at.entry.generation == s.generation;
  }

  /**
   * Of two lookups, the second beginning after the first finished, the second
   * may answer from one generation back, and only when the first finished
   * between the two stores of a swap.
   */
  lemma GoesBackOnlyMidSwap(env: Env, content: Content, before: seq<Step>, after: seq<Step>, s: State, t: State,
                            first: Id, second: Id)
    requires Run(env, Opened(content), before) == Some(s) && Run(env, s, after) == Some(t)
    requires first in s.lookups && s.lookups[first].at.Done?
    requires second !in s.lookups && second in t.lookups && t.lookups[second].at.Done?
    ensures var earlier, later := s.lookups[first].at.entry.generation, t.lookups[second].at.entry.generation;
            && earlier <= later + 1
            && (!s.refresh.Stored? ==> earlier <= later)
  {
    RunTwice(env, content, before, after, s, t);
    AnswersFrom(env, s, t, second);
    assert Sound(env, s, s.lookups[first]);
  }

  // ----- No lookup is stuck ---------------------------------------------------------------

  /** Some step of a lookup can be taken. */
  ghost predicate CanGoOn(env: Env, s: State, id: Id) {
    exists step :: IsOf(step, id) && Take(env, s, step).Some?
  }

  predicate IsOf(step: Step, id: Id) {
    !OfNoLookup(step) && !step.Begin? && step.id == id
  }

  /** Which step of a lookup comes next, and when it can be taken. */
  ghost predicate Next(s: State, lookup: Lookup, step: Step) {
    match lookup.at
    case Probing =>
      (step.Hit? && lookup.ip in s.cache) || (step.Wait? && lookup.ip in s.holders)
      || (step.Hold? && lookup.ip !in s.cache && lookup.ip !in s.holders)
    case Waiting(on) =>
      || (step.Receive? && on in s.lookups && (s.lookups[on].at.Inserting? || s.lookups[on].at.Done?))
      || (step.Retry? && !(lookup.ip in s.holders && s.holders[lookup.ip] == on))
    case Checking(_) => step.Check?
    case Ageing(_) => step.Age?
    case Missing => step.Load?
    case Loaded(_) => step.Read?
    case Inserting(_) => step.Insert?
    case Done(_) => false
  }

  /** A lookup takes its steps in turn, and only in turn. */
  lemma StepsInTurn(env: Env, s: State, id: Id, step: Step)
    requires id in s.lookups && IsOf(step, id)
    ensures Take(env, s, step).Some? <==> Next(s, s.lookups[id], step)
  {
  }

  /** A step that can be taken, where there is one. */
  lemma NextStep(env: Env, s: State, id: Id) returns (step: Step)
    requires Inv(env, s) && id in s.lookups && !s.lookups[id].at.Done?
    requires s.lookups[id].at.Waiting? ==>
               HasRead(s.lookups[s.lookups[id].at.on]) || !Stands(s, s.lookups[id].ip, s.lookups[id].at.on)
    ensures IsOf(step, id) && Take(env, s, step).Some?
  {
    var lookup := s.lookups[id];
    match lookup.at
    case Probing =>
      step := if lookup.ip in s.cache then Hit(id) else if lookup.ip in s.holders then Wait(id) else Hold(id);
    case Waiting(on) => step := if HasRead(s.lookups[on]) then Receive(id) else Retry(id);
    case Checking(_) => step := Check(id);
    case Ageing(_) => step := Age(id);
    case Missing => step := Load(id);
    case Loaded(_) => step := Read(id);
    case Inserting(_) => step := Insert(id);
  }

  /**
   * In every state that can be reached a lookup not done can go on, unless it waits
   * on a placeholder that stands and whose holder has not read yet; and then the
   * holder can go on, so none waits on one that waits.
   */
  lemma NeverStuck(env: Env, s: State, id: Id)
    requires Inv(env, s) && id in s.lookups && !s.lookups[id].at.Done?
    ensures var lookup := s.lookups[id];
            var waits := lookup.at.Waiting? && Stands(s, lookup.ip, lookup.at.on) && !HasRead(s.lookups[lookup.at.on]);
            && (CanGoOn(env, s, id) <==> !waits)
            && (waits ==> CanGoOn(env, s, lookup.at.on))
  {
    var lookup := s.lookups[id];
    assert Sound(env, s, lookup);
    if lookup.at.Waiting? && Stands(s, lookup.ip, lookup.at.on) && !HasRead(s.lookups[lookup.at.on]) {
      var step := NextStep(env, s, lookup.at.on);
      forall other | IsOf(other, id)
        ensures Take(env, s, other).None?
      {
        StepsInTurn(env, s, id, other);
      }
    } else {
      var step := NextStep(env, s, id);
    }
  }

  // ----- What the interleaving does allow ---------------------------------------------

  lemma Go(env: Env, o: State, steps: seq<Step>, s: State, step: Step) returns (steps': seq<Step>, t: State)
    requires Run(env, o, steps) == Some(s) && Take(env, s, step).Some?
    ensures Run(env, o, steps') == Some(t) && t == Take(env, s, step).value && steps' == steps + [step]
  {
    steps', t := steps + [step], Take(env, s, step).value;
    assert steps'[..|steps|] == steps;
  }

  lemma {:induction false} RunOn(env: Env, s: State, a: seq<Step>, t: State, b: seq<Step>)
    requires Run(env, s, a) == Some(t)
    ensures Run(env, s, a + b) == Run(env, t, b)
  {
    if b == [] {
      assert a + b == a;
    } else {
      assert (a + b)[..|a + b| - 1] == a + b[..|b| - 1];
      RunOn(env, s, a, t, b[..|b| - 1]);
    }
  }

  lemma HoldOne(env: Env, o: State, steps: seq<Step>, s: State, id: Id, ip: Ip) returns (steps': seq<Step>, t: State)
    requires Run(env, o, steps) == Some(s) && id !in s.lookups && ip !in s.cache && ip !in s.holders
    ensures Run(env, o, steps') == Some(t)
    ensures t == s.(lookups := s.lookups[id := Lookup(ip, s.generation, s.now, true, Missing)],
                    holders := s.holders[ip := id])
  {
    steps', t := Go(env, o, steps, s, Begin(id, ip));
    steps', t := Go(env, o, steps', t, Hold(id));
  }

  /** A lookup of an address neither cached nor held that read its answer, not yet filed. */
  lemma ReadOne(env: Env, o: State, steps: seq<Step>, s: State, id: Id, ip: Ip) returns (steps': seq<Step>, t: State)
    requires Run(env, o, steps) == Some(s) && id !in s.lookups && ip !in s.cache && ip !in s.holders
    ensures Run(env, o, steps') == Some(t)
    ensures var entry := Entry(s.now, s.readers.generation, env.read(s.readers.content, ip));
            t == s.(lookups := s.lookups[id := Lookup(ip, s.generation, s.now, true, Inserting(entry))],
                    holders := s.holders[ip := id])
  {
    steps', t := HoldOne(env, o, steps, s, id, ip);
    steps', t := Go(env, o, steps', t, Load(id));
    steps', t := Go(env, o, steps', t, Read(id));
  }

  /** The same, and its answer filed. */
  lemma FileOne(env: Env, o: State, steps: seq<Step>, s: State, id: Id, ip: Ip) returns (steps': seq<Step>, t: State)
    requires Run(env, o, steps) == Some(s) && id !in s.lookups && ip !in s.cache && ip !in s.holders
    ensures Run(env, o, steps') == Some(t)
    ensures var entry := Entry(s.now, s.readers.generation, env.read(s.readers.content, ip));
            t == s.(lookups := s.lookups[id := Lookup(ip, s.generation, s.now, true, Done(entry))],
                    cache := s.cache[ip := entry])
  {
    steps', t := ReadOne(env, o, steps, s, id, ip);
    steps', t := InsertOne(env, o, steps', t, id);
    assert t.holders == s.holders;
  }

  /** A lookup on its way to file, having read its answer or about to. */
  predicate WillFile(s: State, id: Id)
    requires id in s.lookups
  {
    (s.lookups[id].at.Loaded? || s.lookups[id].at.Inserting?) && CanFile(s, id)
  }

  function WhatItReads(env: Env, s: State, id: Id): Entry
    requires id in s.lookups && WillFile(s, id)
  {
    var lookup := s.lookups[id];
    if lookup.at.Inserting? then lookup.at.entry
    else Entry(s.now, lookup.at.readers.generation, env.read(lookup.at.readers.content, lookup.ip))
  }

  /** Its answer filed. */
  function FiledBy(s: State, id: Id, entry: Entry): State
    requires id in s.lookups
  {
    var ip := s.lookups[id].ip;
    Moved(s, id, Done(entry)).(cache := s.cache[ip := entry], holders := s.holders - {ip})
  }

  lemma InsertOne(env: Env, o: State, steps: seq<Step>, s: State, id: Id) returns (steps': seq<Step>, t: State)
    requires Run(env, o, steps) == Some(s) && id in s.lookups && s.lookups[id].at.Inserting? && CanFile(s, id)
    ensures Run(env, o, steps') == Some(t) && t == FiledBy(s, id, s.lookups[id].at.entry)
  {
    steps', t := Go(env, o, steps, s, Insert(id));
  }

  lemma FinishOne(env: Env, s: State, id: Id) returns (steps: seq<Step>, t: State)
    requires id in s.lookups && WillFile(s, id)
    ensures Run(env, s, steps) == Some(t) && t == FiledBy(s, id, WhatItReads(env, s, id))
  {
    steps, t := [], s;
    if s.lookups[id].at.Loaded? {
      steps, t := Go(env, s, steps, t, Read(id));
    }
    steps, t := InsertOne(env, s, steps, t, id);
  }

  /** The cache cleared of everything, placeholders included. */
  lemma ClearOne(env: Env, o: State, steps: seq<Step>, s: State) returns (steps': seq<Step>, t: State)
    requires Run(env, o, steps) == Some(s) && s.refresh.Clearing?
    ensures Run(env, o, steps') == Some(t) && t == s.(cache := map[], holders := map[])
  {
    steps', t := Go(env, o, steps, s, Clear(s.cache.Keys + s.holders.Keys));
    assert t.cache == map[] && t.holders == map[];
  }

  /** The readers of a refresh stored, its generation not yet. */
  lemma StoreOne(env: Env, o: State, steps: seq<Step>, s: State, content: Content) returns (steps': seq<Step>, t: State)
    requires Run(env, o, steps) == Some(s) && s.refresh.Idle?
    ensures Run(env, o, steps') == Some(t)
    ensures t == s.(readers := Readers(content, s.generation + 1), history := s.history + [content],
                    refresh := Stored(s.generation + 1))
  {
    steps', t := Go(env, o, steps, s, Lock);
    steps', t := Go(env, o, steps', t, Stamp(content));
    steps', t := Go(env, o, steps', t, Store);
  }

  /** A lookup reading again what a swap has made stale, its readers loaded and its answer not yet read. */
  function ReRead(ip: Ip, readers: Readers): Lookup {
    Lookup(ip, readers.generation, 0, false, Loaded(readers))
  }

  /** A state with nothing cached and nothing held, and one lookup reading again. */
  ghost predicate OneReReads(s: State, readers: Readers, ip: Ip) {
    && s.readers == readers && s.generation == readers.generation && s.now == 0
    && s.cache == map[] && s.holders == map[]
    && s.lookups.Keys == {0, 1} && s.lookups[1] == ReRead(ip, readers)
  }

  /** A lookup that found its answer published away, before the clear came to it. */
  lemma FoundStale(env: Env, content: Content, ip: Ip) returns (steps: seq<Step>, s: State)
    ensures Run(env, Opened(content), steps) == Some(s)
    ensures s.refresh == Clearing && s.readers == Readers(content, 1) && s.generation == 1 && s.now == 0
    ensures s.cache.Keys == {ip} && s.holders == map[]
    ensures s.lookups.Keys == {0, 1} && s.lookups[1] == Lookup(ip, 1, 0, false, Checking(s.cache[ip]))
    ensures s.cache[ip].generation == 0
  {
    var o := Opened(content);
    steps, s := FileOne(env, o, [], o, 0, ip);
    steps, s := StoreOne(env, o, steps, s, content);
    steps, s := Go(env, o, steps, s, Publish);
    steps, s := Go(env, o, steps, s, Begin(1, ip));
    steps, s := Go(env, o, steps, s, Hit(1));
  }

  lemma ReadsAgain(env: Env, content: Content, ip: Ip) returns (steps: seq<Step>, s: State)
    ensures Run(env, Opened(content), steps) == Some(s)
    ensures s.refresh == Idle && OneReReads(s, Readers(content, 1), ip)
  {
    var o := Opened(content);
    steps, s := FoundStale(env, content, ip);
    steps, s := Go(env, o, steps, s, Check(1));
    steps, s := Go(env, o, steps, s, Load(1));
    steps, s := ClearOne(env, o, steps, s);
    steps, s := Go(env, o, steps, s, Unlock);
  }

  lemma ClearedBesideIt(env: Env, old': Content, new': Content, ip: Ip) returns (steps: seq<Step>, s: State)
    ensures Run(env, Opened(old'), steps) == Some(s)
    ensures s.refresh == Clearing && s.readers == Readers(new', 2) && s.generation == 2
    ensures s.cache == map[] && s.holders == map[]
    ensures 1 in s.lookups && s.lookups[1] == ReRead(ip, Readers(old', 1))
  {
    var o := Opened(old');
    steps, s := ReadsAgain(env, old', ip);
    steps, s := StoreOne(env, o, steps, s, new');
    steps, s := Go(env, o, steps, s, Publish);
    steps, s := ClearOne(env, o, steps, s);
  }

  /**
   * Clearing on the swap does leave a window: there is a run in which the new
   * databases are published and the cache is cleared of everything, placeholders
   * included, and an answer of the old ones is filed after that, by a lookup that
   * was reading again what an earlier swap had made stale.
   */
  lemma StaleAnswerOutlivesTheClear(env: Env, old': Content, new': Content, ip: Ip)
    ensures exists before, s, after ::
              && Run(env, Opened(old'), before) == Some(s)
              && s.refresh == Clearing && s.cache == map[] && s.holders == map[]
              && s.readers == Readers(new', 2) && s.generation == 2
              && var t := Run(env, s, after);
                 && t.Some?
                 && t.value.refresh == Idle && t.value.readers == s.readers
                 && ip in t.value.cache
                 && t.value.cache[ip].generation == 1
                 && t.value.cache[ip].record == env.read(old', ip)
  {
    var before, s := ClearedBesideIt(env, old', new', ip);
    var filing, u := FinishOne(env, s, 1);
    var after, t := Go(env, s, filing, u, Unlock);
    assert Run(env, Opened(old'), before) == Some(s) && Run(env, s, after) == Some(t);
  }

  lemma AnsweredMidSwap(env: Env, old': Content, new': Content, first: Ip, second: Ip)
      returns (before: seq<Step>, s: State)
    ensures Run(env, Opened(old'), before) == Some(s)
    ensures s.lookups.Keys == {0, 1, 2} && s.generation == 1 && s.now == 0 && s.holders == map[]
    ensures s.lookups[1] == ReRead(second, Readers(old', 1))
    ensures s.lookups[2] == Lookup(first, 1, 0, true, Done(Entry(0, 2, env.read(new', first))))
  {
    var o := Opened(old');
    before, s := ReadsAgain(env, old', second);
    before, s := StoreOne(env, o, before, s, new');
    before, s := FileOne(env, o, before, s, 2, first);
  }

  /** A lookup served from the cache. */
  lemma ServeOne(env: Env, s: State, id: Id, ip: Ip) returns (steps: seq<Step>, t: State)
    requires id !in s.lookups && ip in s.cache
    requires s.cache[ip].generation == s.generation && InTime(env, s.cache[ip], s.now)
    ensures Run(env, s, steps) == Some(t)
    ensures id in t.lookups && t.lookups[id] == Lookup(ip, s.generation, s.now, false, Done(s.cache[ip]))
  {
    steps, t := Go(env, s, [], s, Begin(id, ip));
    steps, t := Go(env, s, steps, t, Hit(id));
    steps, t := Go(env, s, steps, t, Check(id));
    steps, t := Go(env, s, steps, t, Age(id));
  }

  /**
   * Callers that miss on one cold address read the databases once between them: one
   * that waits on a holder ends with what the holder read, still current, and reads
   * nothing itself.
   */
  lemma WaiterIsServed(env: Env, s: State, id: Id, entry: Entry) returns (steps: seq<Step>)
    requires id in s.lookups && s.lookups[id].at.Waiting? && s.lookups[id].at.on in s.lookups
    requires var holder := s.lookups[s.lookups[id].at.on]; holder.at == Inserting(entry) || holder.at == Done(entry)
    requires entry.generation == s.generation && InTime(env, entry, s.now)
    ensures Run(env, s, steps) == Some(Moved(s, id, Done(entry)))
    ensures forall step <- steps :: !step.Load? && !step.Read?
  {
    var t;
    steps, t := Go(env, s, [], s, Receive(id));
    steps, t := Go(env, s, steps, t, Check(id));
    steps, t := Go(env, s, steps, t, Age(id));
    assert t.lookups == Moved(s, id, Done(entry)).lookups;
  }

  /** In a state, a lookup of an address has finished with this answer. */
  ghost predicate Answered(s: Option<State>, id: Id, ip: Ip, record: Record) {
    && s.Some?
    && id in s.value.lookups
    && s.value.lookups[id].ip == ip
    && s.value.lookups[id].at.Done?
    && s.value.lookups[id].at.entry.record == record
  }

  /** What is read again between the two stores is still served. */
  lemma ServedAgain(env: Env, s: State, content: Content, ip: Ip) returns (after: seq<Step>)
    requires 1 in s.lookups && s.lookups[1] == ReRead(ip, Readers(content, s.generation)) && 3 !in s.lookups
    ensures Answered(Run(env, s, after), 3, ip, env.read(content, ip))
  {
    var filing, u := FinishOne(env, s, 1);
    var serving, t := ServeOne(env, u, 3, ip);
    RunOn(env, s, filing, u, serving);
    after := filing + serving;
  }

  /**
   * Between the two stores of a swap a lookup can answer from the new databases
   * and one begun after it from the old.
   */
  lemma AnswersCanGoBack(env: Env, old': Content, new': Content, first: Ip, second: Ip)
    ensures exists before, s, after ::
              && Run(env, Opened(old'), before) == Some(s)
              && Answered(Some(s), 2, first, env.read(new', first))
              && 3 !in s.lookups
              && Answered(Run(env, s, after), 3, second, env.read(old', second))
  {
    var before, s := AnsweredMidSwap(env, old', new', first, second);
    var after := ServedAgain(env, s, old', second);
    assert Answered(Some(s), 2, first, env.read(new', first));
  }

  // ----- Exactly when a stale answer outlives a clear ------------------------------------------

  /** A lookup that has read, or is about to read, databases already replaced. */
  ghost predicate ReadsOld(s: State, lookup: Lookup) {
    || (lookup.at.Loaded? && lookup.at.readers.generation < s.generation)
    || (lookup.at.Inserting? && lookup.at.entry.generation < s.generation)
  }

  /** Of such a lookup, what it reads will be filed: it reads again, or its placeholder stands. */
  ghost predicate WillFileOld(s: State, id: Id)
    requires id in s.lookups
  {
    ReadsOld(s, s.lookups[id]) && CanFile(s, id)
  }

  ghost predicate SomeWillFileOld(s: State) {
    exists id <- s.lookups :: WillFileOld(s, id)
  }

  ghost predicate HoldsStale(s: State) {
    exists ip <- s.cache :: s.cache[ip].generation < s.generation
  }

  /** Nothing replaced is cached, or on its way into the cache. */
  ghost predicate Settled(s: State) {
    !HoldsStale(s) && !SomeWillFileOld(s) && !s.refresh.Stored?
  }

  lemma AdvancedWillNotFileOld(env: Env, s: State, t: State, id: Id, step: Step)
    requires Numbered(s) && !s.refresh.Stored? && id in s.lookups && Advance(env, s, id, step) == Some(t)
    requires !WillFileOld(s, id) && id in t.lookups
    ensures !WillFileOld(t, id)
  {
  }

  lemma AdvanceStaysSettled(env: Env, s: State, t: State, id: Id)
    requires Inv(env, s) && Settled(s) && id in s.lookups && Touches(s, t, id) && !WillFileOld(t, id)
    ensures Settled(t)
  {
    assert !WillFileOld(s, id);
    forall other <- t.lookups | other != id
      ensures !WillFileOld(t, other)
    {
      assert !WillFileOld(s, other);
    }
  }

  lemma ShrunkStaysSettled(env: Env, s: State, t: State)
    requires Inv(env, s) && Inv(env, t) && Settled(s) && Shrinks(s, t)
    requires s.generation <= t.generation && t.readers.generation == s.readers.generation
    ensures Settled(t)
  {
    assert forall id <- t.lookups :: !WillFileOld(s, id);
  }

  /** Short of another swap's first store, it stays so. */
  lemma StaysSettled(env: Env, s: State, step: Step, t: State)
    requires Inv(env, s) && Inv(env, t) && Settled(s) && Take(env, s, step) == Some(t)
    requires s.generation <= t.generation && t.readers.generation == s.readers.generation
    ensures Settled(t)
  {
    if step.Begin? {
      assert forall id <- t.lookups :: id != step.id ==> !WillFileOld(s, id);
    } else if OfNoLookup(step) {
      OthersShrink(env, s, t, step);
      ShrunkStaysSettled(env, s, t);
    } else {
      assert !WillFileOld(s, step.id);
      AdvanceTouches(env, s, t, step.id, step);
      AdvancedWillNotFileOld(env, s, t, step.id, step);
      AdvanceStaysSettled(env, s, t, step.id);
    }
  }

  lemma {:induction false} RunStaysSettled(env: Env, s: State, steps: seq<Step>)
    requires Inv(env, s) && Settled(s) && Run(env, s, steps).Some?
    requires Run(env, s, steps).value.readers.generation == s.readers.generation
    ensures Settled(Run(env, s, steps).value)
  {
    if steps != [] {
      var n := |steps| - 1;
      var mid := Run(env, s, steps[..n]).value;
      RunKeeps(env, s, steps[..n]);
      TakeKeeps(env, mid, steps[n]);
      RunStaysSettled(env, s, steps[..n]);
      StaysSettled(env, mid, steps[n], Run(env, s, steps).value);
    }
  }

  lemma OldReadIsFiled(env: Env, s: State, id: Id) returns (after: seq<Step>, t: State)
    requires Inv(env, s) && id in s.lookups && WillFileOld(s, id)
    ensures Run(env, s, after) == Some(t) && t.readers == s.readers && HoldsStale(t)
  {
    after, t := FinishOne(env, s, id);
    assert t.cache[s.lookups[id].ip].generation < t.generation;
  }

  /** A run up to the next swap that ends with a stale answer in the cache. */
  ghost predicate FilesStale(env: Env, s: State, after: seq<Step>) {
    var t := Run(env, s, after);
    t.Some? && t.value.readers.generation == s.readers.generation && HoldsStale(t.value)
  }

  /**
   * With the cache cleared and no swap between its two stores, a stale answer can
   * reach the cache before the next swap exactly when some lookup has loaded the
   * replaced readers, or read from them, and has still to file: one that reads
   * again what it found stale, or one whose placeholder no clear has dropped.
   */
  lemma StaleOutlivesExactly(env: Env, s: State)
    requires Inv(env, s) && s.cache == map[] && !s.refresh.Stored?
    ensures (exists after :: FilesStale(env, s, after)) <==>
            exists id <- s.lookups ::
              && ReadsOld(s, s.lookups[id])
              && (s.lookups[id].held ==> Stands(s, s.lookups[id].ip, id))
  {
    if id :| id in s.lookups && WillFileOld(s, id) {
      var after, t := OldReadIsFiled(env, s, id);
      assert FilesStale(env, s, after);
    } else {
      forall after | FilesStale(env, s, after)
        ensures false
      {
        RunStaysSettled(env, s, after);
      }
    }
  }

  // ----- Exactly when answers can go back ---------------------------------------------------------

  /** An answer of the generation still published, in time. */
  ghost predicate Servable(env: Env, s: State, entry: Entry) {
    entry.generation == s.generation && InTime(env, entry, s.now)
  }

  /** A lookup about to file an answer of the generation still published. */
  ghost predicate Supplies(env: Env, s: State, lookup: Lookup) {
    || (lookup.at.Loaded? && lookup.at.readers.generation == s.generation)
    || (lookup.at.Inserting? && Servable(env, s, lookup.at.entry))
  }

  /** An address has an old answer left: cached, or on its way into the cache. */
  ghost predicate OldLeft(env: Env, s: State, ip: Ip) {
    || (ip in s.cache && Servable(env, s, s.cache[ip]))
    || (exists id <- s.lookups :: s.lookups[id].ip == ip && Supplies(env, s, s.lookups[id]) && CanFile(s, id))
  }

  /** A lookup with nothing of the generation still published about it. */
  ghost predicate Untainted(env: Env, s: State, lookup: Lookup) {
    match lookup.at
    case Checking(entry) => !Servable(env, s, entry)
    case Ageing(entry) => !Servable(env, s, entry)
    case Loaded(readers) => readers.generation != s.generation
    case Inserting(entry) => !Servable(env, s, entry)
    case Done(entry) => !Servable(env, s, entry)
    case _ => true
  }

  /** Since a state with no old answer left for its address, a lookup files none, and a new one has met none. */
  ghost predicate DryAt(env: Env, s: State, u: State, ip: Ip, id: Id)
    requires id in u.lookups
  {
    var lookup := u.lookups[id];
    lookup.ip == ip ==>
      && (CanFile(u, id) ==> !Supplies(env, s, lookup))
      && (id !in s.lookups ==>
            && Untainted(env, s, lookup)
            && (lookup.at.Waiting? && lookup.at.on in u.lookups ==> Untainted(env, s, u.lookups[lookup.at.on])))
  }

  ghost predicate Dry(env: Env, s: State, u: State, ip: Ip) {
    && s.generation < u.readers.generation
    && (ip in u.cache ==> !Servable(env, s, u.cache[ip]))
    && (forall id <- u.lookups :: DryAt(env, s, u, ip, id))
  }

  /** A lookup that holds its address, and has nothing old about it, gets nothing old. */
  lemma HolderStaysUntainted(env: Env, s: State, u: State, v: State, id: Id, step: Step)
    requires Inv(env, u) && s.generation < u.readers.generation
    requires id in u.lookups && u.lookups[id].held && Untainted(env, s, u.lookups[id])
    requires Advance(env, u, id, step) == Some(v) && id in v.lookups
    ensures Untainted(env, s, v.lookups[id])
  {
    assert Sound(env, u, u.lookups[id]);
  }

  lemma ProbedIsDry(env: Env, s: State, u: State, v: State, ip: Ip, id: Id, step: Step)
    requires Inv(env, u) && Dry(env, s, u, ip) && id in u.lookups && Probe(u, id, step) == Some(v) && id in v.lookups
    ensures DryAt(env, s, v, ip, id)
  {
    assert DryAt(env, s, u, ip, id) && Sound(env, u, u.lookups[id]);
    if step.Wait? {
      assert DryAt(env, s, u, ip, u.holders[u.lookups[id].ip]);
    }
  }

  lemma JudgedIsDry(env: Env, s: State, u: State, v: State, ip: Ip, id: Id, step: Step)
    requires Dry(env, s, u, ip) && id in u.lookups && Judge(env, u, id, step) == Some(v) && id in v.lookups
    ensures DryAt(env, s, v, ip, id)
  {
    assert DryAt(env, s, u, ip, id);
  }

  lemma FetchedIsDry(env: Env, s: State, u: State, v: State, ip: Ip, id: Id, step: Step)
    requires Dry(env, s, u, ip) && id in u.lookups && Fetch(env, u, id, step) == Some(v) && id in v.lookups
    ensures DryAt(env, s, v, ip, id)
  {
    assert DryAt(env, s, u, ip, id);
  }

  lemma AdvancedIsDry(env: Env, s: State, u: State, v: State, ip: Ip, id: Id, step: Step)
    requires Inv(env, u) && Dry(env, s, u, ip) && id in u.lookups && Advance(env, u, id, step) == Some(v)
    requires id in v.lookups
    ensures DryAt(env, s, v, ip, id)
  {
    if step.Check? || step.Age? {
      JudgedIsDry(env, s, u, v, ip, id, step);
    } else if step.Load? || step.Read? || step.Insert? {
      FetchedIsDry(env, s, u, v, ip, id, step);
    } else {
      ProbedIsDry(env, s, u, v, ip, id, step);
    }
  }

  /** Beside a lookup that takes a step, the others stay dry: one of them may be waiting on it. */
  lemma OtherStaysDry(env: Env, s: State, u: State, v: State, ip: Ip, id: Id, other: Id)
    requires Inv(env, u) && Dry(env, s, u, ip) && id in u.lookups && Touches(u, v, id)
    requires other in u.lookups && other != id
    requires u.lookups[id].held && Untainted(env, s, u.lookups[id]) ==> Untainted(env, s, v.lookups[id])
    ensures DryAt(env, s, v, ip, other)
  {
    assert DryAt(env, s, u, ip, other) && Sound(env, u, u.lookups[other]);
  }

  lemma AdvanceStaysDry(env: Env, s: State, u: State, v: State, ip: Ip, id: Id, step: Step)
    requires Inv(env, u) && Dry(env, s, u, ip) && id in u.lookups && Advance(env, u, id, step) == Some(v)
    ensures Dry(env, s, v, ip)
  {
    AdvanceTouches(env, u, v, id, step);
    AdvancedIsDry(env, s, u, v, ip, id, step);
    if u.lookups[id].held && Untainted(env, s, u.lookups[id]) {
      HolderStaysUntainted(env, s, u, v, id, step);
    }
    forall other <- v.lookups | other != id
      ensures DryAt(env, s, v, ip, other)
    {
      OtherStaysDry(env, s, u, v, ip, id, other);
    }
    assert DryAt(env, s, u, ip, id);
  }

  /** A step of no lookup leaves an address as dry as it was. */
  lemma ShrunkStaysDry(env: Env, s: State, u: State, v: State, ip: Ip)
    requires Dry(env, s, u, ip) && Shrinks(u, v)
    ensures Dry(env, s, v, ip)
  {
    forall id <- v.lookups
      ensures DryAt(env, s, v, ip, id)
    {
      assert DryAt(env, s, u, ip, id);
    }
  }

  lemma BegunStaysDry(env: Env, s: State, u: State, ip: Ip, id: Id, other: Ip)
    requires Inv(env, u) && Dry(env, s, u, ip) && id !in u.lookups
    ensures Dry(env, s, Begun(u, id, other), ip)
  {
    var v := Begun(u, id, other);
    forall old' <- v.lookups
      ensures DryAt(env, s, v, ip, old')
    {
      assert old' != id ==> DryAt(env, s, u, ip, old') && Sound(env, u, u.lookups[old']);
    }
  }

  lemma StaysDry(env: Env, s: State, u: State, v: State, ip: Ip, step: Step)
    requires Dry(env, s, u, ip) && Inv(env, u) && Take(env, u, step) == Some(v)
    ensures Dry(env, s, v, ip)
  {
    if step.Begin? {
      BegunStaysDry(env, s, u, ip, step.id, step.ip);
    } else if OfNoLookup(step) {
      OthersShrink(env, u, v, step);
      ShrunkStaysDry(env, s, u, v, ip);
    } else {
      AdvanceStaysDry(env, s, u, v, ip, step.id, step);
    }
  }

  lemma {:induction false} RunStaysDry(env: Env, s: State, ip: Ip, steps: seq<Step>)
    requires Inv(env, s) && s.refresh.Stored? && !OldLeft(env, s, ip) && Run(env, s, steps).Some?
    ensures Dry(env, s, Run(env, s, steps).value, ip)
  {
    if steps == [] {
      assert forall id <- s.lookups :: DryAt(env, s, s, ip, id);
    } else {
      var n := |steps| - 1;
      RunKeeps(env, s, steps[..n]);
      RunStaysDry(env, s, ip, steps[..n]);
      StaysDry(env, s, Run(env, s, steps[..n]).value, Run(env, s, steps).value, ip, steps[n]);
    }
  }

  /** A name no lookup has. */
  lemma {:induction false} Unused(ids: set<Id>) returns (id: Id)
    ensures forall other <- ids :: other < id
  {
    if ids == {} {
      id := 0;
    } else {
      var one :| one in ids;
      var above := Unused(ids - {one});
      id := if above <= one then one + 1 else above;
      assert forall other <- ids :: other == one || other in ids - {one};
    }
  }

  /** An old answer on its way, filed. */
  lemma SupplyOne(env: Env, s: State, id: Id) returns (steps: seq<Step>, t: State)
    requires id in s.lookups && Supplies(env, s, s.lookups[id]) && CanFile(s, id)
    ensures Run(env, s, steps) == Some(t) && t.lookups.Keys == s.lookups.Keys
    ensures t.generation == s.generation && t.now == s.now
    ensures s.lookups[id].ip in t.cache && Servable(env, t, t.cache[s.lookups[id].ip])
  {
    steps, t := FinishOne(env, s, id);
  }

  /** After some steps, a lookup of an address begun since has ended with an answer of a generation. */
  ghost predicate LaterAnswers(env: Env, s: State, after: seq<Step>, id: Id, ip: Ip, generation: nat) {
    var t := Run(env, s, after);
    && t.Some?
    && id !in s.lookups && id in t.value.lookups
    && t.value.lookups[id].ip == ip
    && t.value.lookups[id].at.Done?
    && t.value.lookups[id].at.entry.generation == generation
  }

  lemma OldIsServed(env: Env, s: State, ip: Ip) returns (after: seq<Step>, id: Id)
    requires OldLeft(env, s, ip)
    ensures LaterAnswers(env, s, after, id, ip, s.generation)
  {
    id := Unused(s.lookups.Keys);
    var t;
    if ip in s.cache && Servable(env, s, s.cache[ip]) {
      after, t := ServeOne(env, s, id, ip);
    } else {
      var other :|
        other in s.lookups && s.lookups[other].ip == ip && Supplies(env, s, s.lookups[other]) && CanFile(s, other);
      var filing, u := SupplyOne(env, s, other);
      var serving;
      serving, t := ServeOne(env, u, id, ip);
      RunOn(env, s, filing, u, serving);
      after := filing + serving;
    }
  }

  lemma NoneIsServed(env: Env, s: State, ip: Ip, after: seq<Step>, id: Id, generation: nat)
    requires Inv(env, s) && s.refresh.Stored? && !OldLeft(env, s, ip)
    requires LaterAnswers(env, s, after, id, ip, generation)
    ensures generation != s.generation
  {
    var t := Run(env, s, after).value;
    RunKeeps(env, s, after);
    RunStaysDry(env, s, ip, after);
    assert Sound(env, t, t.lookups[id]) && DryAt(env, s, t, ip, id);
  }

  /** A lookup begun after another ended can answer from older databases than it did. */
  ghost predicate CanGoBack(env: Env, s: State, first: Entry, ip: Ip) {
    exists after, id, generation: nat ::
      generation < first.generation && LaterAnswers(env, s, after, id, ip, generation)
  }

  /**
   * In every state that can be reached, a lookup of an address begun after
   * another ended can answer from older databases than it did exactly when a swap
   * stands between its two stores, the one that ended had answered from the new
   * readers, and an answer of the old generation is left for the address, in time:
   * cached, or about to be filed by a lookup that reads again or whose placeholder
   * stands.
   */
  lemma GoesBackExactly(env: Env, s: State, first: Id, ip: Ip)
    requires Inv(env, s) && first in s.lookups && s.lookups[first].at.Done?
    ensures CanGoBack(env, s, s.lookups[first].at.entry, ip) <==>
            && s.refresh.Stored?
            && s.lookups[first].at.entry.generation == s.readers.generation
            && OldLeft(env, s, ip)
  {
    var entry := s.lookups[first].at.entry;
    assert Sound(env, s, s.lookups[first]);
    if s.refresh.Stored? && entry.generation == s.readers.generation && OldLeft(env, s, ip) {
      var after, id := OldIsServed(env, s, ip);
      assert LaterAnswers(env, s, after, id, ip, s.generation);
    }
    forall after, id, generation: nat |
      generation < entry.generation && LaterAnswers(env, s, after, id, ip, generation)
      ensures s.refresh.Stored? && entry.generation == s.readers.generation && OldLeft(env, s, ip)
    {
      RunKeeps(env, s, after);
      var t := Run(env, s, after).value;
      assert Sound(env, t, t.lookups[id]);
      if !OldLeft(env, s, ip) {
        NoneIsServed(env, s, ip, after, id, generation);
      }
    }
  }

  /** A whole swap with nothing between its steps. */
  lemma SwapOne(env: Env, s: State, content: Content) returns (steps: seq<Step>, t: State)
    requires Inv(env, s) && s.refresh.Idle?
    ensures Run(env, s, steps) == Some(t) && Inv(env, t)
    ensures t == s.(readers := Readers(content, s.generation + 1), generation := s.generation + 1,
                    history := s.history + [content], cache := map[], holders := map[])
  {
    steps, t := StoreOne(env, s, [], s, content);
    steps, t := Go(env, s, steps, t, Publish);
    steps, t := ClearOne(env, s, steps, t);
    steps, t := Go(env, s, steps, t, Unlock);
    RunKeeps(env, s, steps);
  }

  // ----- One caller at a time ---------------------------------------------------------------

  /** The shared state, as its methods run when nothing interleaves with them. */
  class Inner {
    const env: Env
    const reserved: Ip -> bool
    const reservedRecord: Record
    var readers: Readers
    var generation: nat
    var cache: map<Ip, Entry>
    ghost var history: seq<Content>

    /** The state between steps, at a time no earlier than any cached answer. */
    ghost function Snapshot(now: nat): State
      reads this
    {
      State(readers, generation, history, Idle, cache, map[], now, map[])
    }

    ghost predicate Valid(now: nat)
      reads this
    {
      Inv(env, Snapshot(now))
    }

    /** What a lookup answers: a cache that changes nothing but the cost. */
    ghost function Answer(ip: Ip): Record
      reads `readers
    {
      if reserved(ip) then reservedRecord else env.read(readers.content, ip)
    }

    constructor (env: Env, reserved: Ip -> bool, reservedRecord: Record, content: Content)
      ensures Snapshot(0) == Opened(content) && Valid(0)
      ensures this.env == env && this.reserved == reserved && this.reservedRecord == reservedRecord
    {
      this.env, this.reserved, this.reservedRecord := env, reserved, reservedRecord;
      readers, generation, cache, history := Readers(content, 0), 0, map[], [content];
    }

    /** One whole swap, with nothing between its stores. */
    method SwapReaders(content: Content, now: nat)
      requires Valid(now)
      modifies this
      ensures Valid(now)
      ensures readers.content == content && generation == old(generation) + 1 && cache == map[]
      ensures exists steps :: Run(env, old(Snapshot(now)), steps) == Some(Snapshot(now))
    {
      ghost var steps, t := SwapOne(env, Snapshot(now), content);
      var next := Readers(content, generation + 1);
      readers := next;
      history := history + [content];
      generation := next.generation;
      cache := map[];
      assert Snapshot(now) == t;
    }

    /** Dropping every cached answer is a run of the steps, and changes no answer. */
    method ClearCache(now: nat)
      requires Valid(now)
      modifies `cache
      ensures Valid(now) && cache == map[]
      ensures exists steps :: Run(env, old(Snapshot(now)), steps) == Some(Snapshot(now))
      ensures forall ip :: Answer(ip) == old(Answer(ip))
    {
      ghost var s := Snapshot(now);
      ghost var steps, t := Go(env, s, [], s, Evict(s.cache.Keys));
      assert s.cache - s.cache.Keys == map[];
      cache := map[];
      assert Snapshot(now) == t;
    }

    /** An entry of the published generation, within the age limit. */
    predicate Current(entry: Entry, now: nat)
      reads `generation
    {
      entry.generation == generation && InTime(env, entry, now)
    }

    /** A fresh entry: genuine, of now, and of the readers in place. */
    method Miss(ip: Ip, now: nat) returns (entry: Entry)
      requires Valid(now)
      ensures Genuine(env, Snapshot(now), ip, entry)
      ensures entry == Entry(now, generation, env.read(readers.content, ip))
    {
      entry := Entry(now, readers.generation, env.read(readers.content, ip));
    }

    /** Look one address up; `evicted` is what the cache drops to make room. */
    method Lookup(ip: Ip, now: nat, evicted: set<Ip>) returns (record: Record)
      requires Valid(now)
      modifies `cache
      ensures Valid(now)
      ensures record == Answer(ip)
      ensures var current := ip in old(cache) && old(cache)[ip].generation == generation
                            && (env.maxAge.Some? ==> now <= old(cache)[ip].loaded + env.maxAge.value);
              cache == if reserved(ip) || current then old(cache)
                       else old(cache)[ip := Entry(now, generation, record)] - evicted
    {
      if reserved(ip) {
        return reservedRecord;
      }
      if ip in cache && Current(cache[ip], now) {
        assert Genuine(env, Snapshot(now), ip, cache[ip]);
        return cache[ip].record;
      }
      var entry := Miss(ip, now);
      FiledKeeps(env, Snapshot(now), cache[ip := entry] - evicted, map[]);
      cache := cache[ip := entry] - evicted;
      return entry.record;
    }

    /** Look a batch up: the answers, in the order asked, whatever the cache held. */
    method LookupMany(ips: seq<Ip>, now: nat, evicted: Ip -> set<Ip>) returns (records: seq<Record>)
      requires Valid(now)
      modifies `cache
      ensures Valid(now)
      ensures |records| == |ips| && forall i :: 0 <= i < |ips| ==> records[i] == Answer(ips[i])
    {
      records := [];
      for i := 0 to |ips|
        invariant Valid(now)
        invariant |records| == i && forall k :: 0 <= k < i ==> records[k] == Answer(ips[k])
      {
        var record := Lookup(ips[i], now, evicted(ips[i]));
        records := records + [record];
      }
    }
  }
}
