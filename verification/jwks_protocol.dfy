/**
 The key cache as a protocol: any number of synchronous and asynchronous calls, interleaved.

 One step is one block under the cache's lock, one reading of the clock outside it, or one end of a
 fetch.  A synchronous call leaves the fetch lock with the last step it takes inside it.  The issuer
 is a history of published key sets: a fetch is answered with the set of some instant between its
 start and its answer, so a response may be late and answers may overtake each other.
 */
module JwksProtocol {
  import opened Options
  import opened Jwks

  type CallId = int
  type History = Time -> KeySet

  datatype Mode = Sync | Async

  /** `from` is the position in the store log of the set the key was read from. */
  datatype Outcome =
    | Returned(key: Key, from: nat, at: Time)
    | Denied(stamp: Time, window: Time)
    | StillUnknown(at: Time)
    | FetchError(stamp: Time)

  datatype Pc =
    | Called
    | Queued
    | Locked
    | Missed(at: Time)
    | Stamped(at: Time, stamp: Time)
    | Granted(stamp: Time)
    | Fetching(stamp: Time, since: Time)
    | Fetched(stamp: Time, since: Time, seen: Time)
    | Stored(since: Time, at: Time)
    | Done(outcome: Outcome)

  datatype Call = Call(mode: Mode, kid: Option<string>, began: Time, pc: Pc)

  /** One write of the key set: its claim's stamp, when its fetch began, the instant it shows, when it was stored. */
  datatype StoreEvent = StoreEvent(claimed: Time, since: Time, seen: Time, at: Time, ttl: Time, keys: KeySet)

  datatype State = State(
    now: Time,
    cache: Cache,
    fetchLock: Option<CallId>,
    calls: map<CallId, Call>,
    stores: seq<StoreEvent>,      // every write of the key set, in order
    missStamps: seq<Time>,        // the stamps of the claims granted on a fresh set
    staleStamps: seq<Time>)       // the stamps of the claims granted on an empty or stale set

  datatype Act =
    | FirstLookup
    | Acquire
    | SecondLookup
    | ReadClock
    | TakeClaim
    | Send
    | Receive(seen: Time)
    | Fail
    | Put
    | LastLookup

  datatype Step =
    | Tick(to: Time)
    | SetTtl(ttl: Time)
    | Begin(id: CallId, mode: Mode, kid: Option<string>)
    | By(id: CallId, act: Act)

  function Last<T>(s: seq<T>): T
    requires s != []
  {
    s[|s| - 1]
  }

  ghost predicate CanAct(s: State, pc: Pc, act: Act) {
    match act
    case FirstLookup => pc.Called?
    case Acquire => pc.Queued? && s.fetchLock.None?
    case SecondLookup => pc.Locked?
    case ReadClock => pc.Missed?
    case TakeClaim => pc.Stamped?
    case Send => pc.Granted?
    case Receive(seen) => pc.Fetching? && pc.since <= seen <= s.now
    case Fail => pc.Fetching? || pc.Fetched?
    case Put => pc.Fetched?
    case LastLookup => pc.Stored?
  }

  ghost predicate Enabled(s: State, step: Step) {
    match step
    case Tick(to) => s.now <= to
    case SetTtl(_) => true
    case Begin(id, _, _) => id !in s.calls
    case By(id, act) => id in s.calls && CanAct(s, s.calls[id].pc, act)
  }

  /** What an act leaves behind: where its call stands, and everything the calls share. */
  datatype Effect = Effect(
    pc: Pc,
    cache: Cache,
    fetchLock: Option<CallId>,
    stores: seq<StoreEvent>,
    missStamps: seq<Time>,
    staleStamps: seq<Time>)

  function Only(s: State, pc: Pc): Effect {
    Effect(pc, s.cache, s.fetchLock, s.stores, s.missStamps, s.staleStamps)
  }

  /** The last act of the block a synchronous call runs under the fetch lock. */
  function Leaving(s: State, id: CallId, pc: Pc): Effect {
    Only(s, pc).(fetchLock := if s.fetchLock == Some(id) then None else s.fetchLock)
  }

  function Hit(s: State, key: Key): Pc {
    Done(Returned(key, if s.stores == [] then 0 else |s.stores| - 1, s.now))
  }

  ghost function Do(published: History, s: State, id: CallId, act: Act): Effect
    requires id in s.calls && CanAct(s, s.calls[id].pc, act)
  {
    var call := s.calls[id];
    match act
    case FirstLookup =>
      (match Lookup(s.cache, s.now, call.kid, true)
       case Some(key) => Only(s, Hit(s, key))
       case None => Only(s, if call.mode.Sync? then Queued else Missed(s.now)))
    case Acquire => Only(s, Locked).(fetchLock := Some(id))
    case SecondLookup =>
      (match Lookup(s.cache, s.now, call.kid, true)
       case Some(key) => Leaving(s, id, Hit(s, key))
       case None => Only(s, Missed(s.now)))
    case ReadClock => Only(s, Stamped(call.pc.at, s.now))
    case TakeClaim =>
      var stamp := call.pc.stamp;
      var (granted, cache) := Claim(s.cache, stamp);
      if !granted then Leaving(s, id, Done(Denied(stamp, s.cache.missAt.value)))
      else if Fresh(s.cache, stamp) then Only(s, Granted(stamp)).(cache := cache, missStamps := s.missStamps + [stamp])
      else Only(s, Granted(stamp)).(cache := cache, staleStamps := s.staleStamps + [stamp])
    case Send => Only(s, Fetching(call.pc.stamp, s.now))
    case Receive(seen) => Only(s, Fetched(call.pc.stamp, call.pc.since, seen))
    case Fail => Leaving(s, id, Done(FetchError(call.pc.stamp)))
    case Put =>
      var keys := published(call.pc.seen);
      Leaving(s, id, Stored(call.pc.since, s.now)).(
        cache := Store(s.cache, keys, s.now),
        stores := s.stores + [StoreEvent(call.pc.stamp, call.pc.since, call.pc.seen, s.now, s.cache.ttl, keys)])
    case LastLookup =>
      (match Lookup(s.cache, s.now, call.kid, false)
       case Some(key) => Only(s, Hit(s, key))
       case None => Only(s, Done(StillUnknown(s.now))))
  }

  /** The clock is read on its own, before the lock is taken: the claim that follows is judged by that reading. */
  lemma ClaimIsJudgedByReading(published: History, s: State, t: State, id: CallId)
    requires id in s.calls && s.calls[id].pc.Missed?
    requires id in t.calls && t.calls[id].pc == Do(published, s, id, ReadClock).pc
    ensures
      var e := Do(published, t, id, TakeClaim);
      if t.cache.keySet.None? || s.now >= t.cache.expiresAt then
        e.pc == Granted(s.now) && e.cache == t.cache && e.staleStamps == t.staleStamps + [s.now]
      else if t.cache.missAt.Some? && s.now - t.cache.missAt.value < t.cache.refetchInterval then
        e.pc == Done(Denied(s.now, t.cache.missAt.value)) && e.cache == t.cache
      else
        e.pc == Granted(s.now) && e.cache == t.cache.(missAt := Some(s.now)) && e.missStamps == t.missStamps + [s.now]
  {
  }

  function Perform(s: State, id: CallId, e: Effect): State
    requires id in s.calls
  {
    State(s.now, e.cache, e.fetchLock, s.calls[id := s.calls[id].(pc := e.pc)], e.stores, e.missStamps, e.staleStamps)
  }

  ghost function Apply(published: History, s: State, step: Step): State
    requires Enabled(s, step)
  {
    match step
    case Tick(to) => s.(now := to)
    case SetTtl(ttl) => s.(cache := s.cache.(ttl := ttl))
    case Begin(id, mode, kid) => s.(calls := s.calls[id := Call(mode, kid, s.now, Called)])
    case By(id, act) => Perform(s, id, Do(published, s, id, act))
  }

  function Start(now: Time, ttl: Time, refetchInterval: Time): State {
    State(now, Cache(None, 0.0, None, ttl, refetchInterval), None, map[], [], [], [])
  }

  ghost predicate Starts(s: State) {
    s == Start(s.now, s.cache.ttl, s.cache.refetchInterval)
  }

  ghost predicate Next(published: History, s: State, t: State) {
    exists step :: Enabled(s, step) && t == Apply(published, s, step)
  }

  /** A run of a cache that starts out empty. */
  ghost predicate Run(published: History, trace: seq<State>) {
    && trace != []
    && Starts(trace[0])
    && forall i | 0 < i < |trace| :: Next(published, trace[i - 1], trace[i])
  }

  // ---- what every reachable state satisfies ----

  /** The cache holds what was stored last, until that store's own TTL is over. */
  ghost predicate CacheIsLastStore(s: State) {
    if s.stores == [] then s.cache.keySet == None
    else s.cache.keySet == Some(Last(s.stores).keys) && s.cache.expiresAt == Last(s.stores).at + Last(s.stores).ttl
  }

  ghost predicate StoresAreHonest(published: History, s: State) {
    forall i | 0 <= i < |s.stores| ::
      var e := s.stores[i];
      e.claimed <= e.since <= e.seen <= e.at <= s.now && e.keys == published(e.seen)
  }

  /** A returned key was first for its `kid` in a set that was fresh, or newer than the call. */
  ghost predicate GoodReturn(s: State, call: Call, key: Key, from: nat, at: Time) {
    && call.began <= at <= s.now
    && from < |s.stores|
    && FirstNamed(s.stores[from].keys, call.kid) == Some(key)
    && s.stores[from].at <= at
    && (at < s.stores[from].at + s.stores[from].ttl || call.began <= s.stores[from].at)
  }

  ghost predicate CallIsSound(s: State, call: Call) {
    && call.began <= s.now
    && match call.pc
       case Missed(at) => call.began <= at <= s.now
       case Stamped(at, stamp) => call.began <= at <= stamp <= s.now
       case Granted(stamp) => call.began <= stamp <= s.now
       case Fetching(stamp, since) => call.began <= stamp <= since <= s.now
       case Fetched(stamp, since, seen) => call.began <= stamp <= since <= seen <= s.now
       case Stored(since, at) =>
         call.began <= since <= at <= s.now && s.stores != [] && at <= Last(s.stores).at
       case Done(Returned(key, from, at)) => GoodReturn(s, call, key, from, at)
       case Done(Denied(stamp, window)) => call.began <= stamp <= s.now && stamp - window < s.cache.refetchInterval
       case Done(StillUnknown(at)) => call.began <= at <= s.now
       case _ => true
  }

  ghost predicate Sound(published: History, s: State) {
    && CacheIsLastStore(s)
    && StoresAreHonest(published, s)
    && forall id {:trigger CallIsSound(s, s.calls[id])} | id in s.calls :: CallIsSound(s, s.calls[id])
  }

  /** Nothing a call's soundness rests on is ever taken back. */
  ghost predicate Grows(s: State, t: State) {
    && s.now <= t.now
    && s.cache.refetchInterval == t.cache.refetchInterval
    && |s.stores| <= |t.stores|
    && (forall i | 0 <= i < |s.stores| :: t.stores[i] == s.stores[i])
    && (s.stores != [] ==> Last(s.stores).at <= Last(t.stores).at)
  }

  lemma StoresStaySound(published: History, s: State, id: CallId, act: Act)
    requires Sound(published, s) && id in s.calls && CanAct(s, s.calls[id].pc, act)
    ensures
      var t := Perform(s, id, Do(published, s, id, act));
      CacheIsLastStore(t) && StoresAreHonest(published, t) && Grows(s, t)
  {
    assert CallIsSound(s, s.calls[id]);
    assert s.stores != [] ==> Last(s.stores).at <= s.now;
    if act.Put? {
      var t := Perform(s, id, Do(published, s, id, act));
      assert t.stores[..|s.stores|] == s.stores;
    }
  }

  lemma GrowthKeepsCalls(s: State, t: State, call: Call)
    requires Grows(s, t) && CallIsSound(s, call)
    ensures CallIsSound(t, call)
  {
  }

  lemma MoverStaysSound(published: History, s: State, id: CallId, act: Act)
    requires Sound(published, s) && id in s.calls && CanAct(s, s.calls[id].pc, act)
    ensures
      var e := Do(published, s, id, act);
      CallIsSound(Perform(s, id, e), s.calls[id].(pc := e.pc))
  {
    assert CallIsSound(s, s.calls[id]);
    assert s.stores != [] ==> Last(s.stores).at <= s.now;
  }

  lemma SoundAct(published: History, s: State, id: CallId, act: Act)
    requires Sound(published, s) && id in s.calls && CanAct(s, s.calls[id].pc, act)
    ensures var t := Perform(s, id, Do(published, s, id, act)); Sound(published, t) && Grows(s, t)
  {
    var e := Do(published, s, id, act);
    var t := Perform(s, id, e);
    StoresStaySound(published, s, id, act);
    MoverStaysSound(published, s, id, act);
    forall other | other in t.calls
      ensures CallIsSound(t, t.calls[other])
    {
      if other != id {
        GrowthKeepsCalls(s, t, s.calls[other]);
      }
    }
  }

  lemma SoundStep(published: History, s: State, t: State)
    requires Sound(published, s) && Next(published, s, t)
    ensures Sound(published, t) && Grows(s, t)
  {
    var step :| Enabled(s, step) && t == Apply(published, s, step);
    if step.By? {
      SoundAct(published, s, step.id, step.act);
    } else {
      forall id | id in t.calls
        ensures CallIsSound(t, t.calls[id])
      {
        if id in s.calls {
          GrowthKeepsCalls(s, t, s.calls[id]);
        }
      }
    }
  }

  lemma {:induction false} RunIsSound(published: History, trace: seq<State>, i: nat)
    requires Run(published, trace) && i < |trace|
    ensures Sound(published, trace[i])
    ensures trace[i].cache.refetchInterval == trace[0].cache.refetchInterval
  {
    if i > 0 {
      RunIsSound(published, trace, i - 1);
      SoundStep(published, trace[i - 1], trace[i]);
    }
  }

  // ---- the fetch lock ----

  ghost predicate BetweenClaimAndStore(pc: Pc) {
    pc.Granted? || pc.Fetching? || pc.Fetched?
  }

  ghost predicate UnderFetchLock(pc: Pc) {
    pc.Locked? || pc.Missed? || pc.Stamped? || BetweenClaimAndStore(pc)
  }

  ghost predicate Holds(s: State, id: CallId) {
    id in s.calls && s.calls[id].mode.Sync? && UnderFetchLock(s.calls[id].pc)
  }

  /** The synchronous calls under the fetch lock are exactly its one holder. */
  ghost predicate LockIsExclusive(s: State) {
    && (forall id | id in s.calls && (s.calls[id].pc.Queued? || s.calls[id].pc.Locked?) :: s.calls[id].mode.Sync?)
    && forall id: CallId :: Holds(s, id) <==> s.fetchLock == Some(id)
  }

  lemma LockAct(published: History, s: State, id: CallId, act: Act)
    requires LockIsExclusive(s) && id in s.calls && CanAct(s, s.calls[id].pc, act)
    ensures LockIsExclusive(Perform(s, id, Do(published, s, id, act)))
  {
  }

  lemma LockStep(published: History, s: State, t: State)
    requires LockIsExclusive(s) && Next(published, s, t)
    ensures LockIsExclusive(t)
  {
    var step :| Enabled(s, step) && t == Apply(published, s, step);
    if step.By? {
      LockAct(published, s, step.id, step.act);
    } else {
      forall id: CallId
        ensures Holds(t, id) <==> Holds(s, id)
      {
      }
    }
  }

  /** Single flight: of the synchronous calls, at most one is between its claim and its store. */
  lemma {:induction false} SingleFlight(published: History, trace: seq<State>, i: nat)
    requires Run(published, trace) && i < |trace|
    ensures LockIsExclusive(trace[i])
    ensures forall a: CallId, b: CallId | a in trace[i].calls && b in trace[i].calls
              && trace[i].calls[a].mode.Sync? && BetweenClaimAndStore(trace[i].calls[a].pc)
              && trace[i].calls[b].mode.Sync? && BetweenClaimAndStore(trace[i].calls[b].pc) :: a == b
  {
    if i > 0 {
      SingleFlight(published, trace, i - 1);
      LockStep(published, trace[i - 1], trace[i]);
    }
    var s := trace[i];
    forall a: CallId, b: CallId | a in s.calls && b in s.calls
      && s.calls[a].mode.Sync? && BetweenClaimAndStore(s.calls[a].pc)
      && s.calls[b].mode.Sync? && BetweenClaimAndStore(s.calls[b].pc)
      ensures a == b
    {
      assert Holds(s, a) && Holds(s, b);
    }
  }
}
