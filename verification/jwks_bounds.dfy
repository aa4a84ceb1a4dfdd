/**
 What the key cache promises over whole runs: bounded withdrawal, bounded traffic, prompt rotation.
 */
module JwksBounds {
  import opened Options
  import opened Jwks
  import opened JwksProtocol

  // ---- withdrawal ----

  /** Every fetch-to-store takes at most `lag`, and every store uses a TTL of at most `ttl`. */
  ghost predicate StoresWithin(s: State, lag: Time, ttl: Time) {
    forall i | 0 <= i < |s.stores| :: s.stores[i].at - s.stores[i].since <= lag && s.stores[i].ttl <= ttl
  }

  /**
   Bounded staleness, for every interleaving of both kinds of call: what a call returns is the
   issuer's own first answer for its `kid` at some instant no more than `lag + ttl` before the call.
   */
  lemma BoundedStaleness(published: History, trace: seq<State>, i: nat, id: CallId, lag: Time, ttl: Time)
    returns (instant: Time)
    requires Run(published, trace) && i < |trace|
    requires StoresWithin(trace[i], lag, ttl) && 0.0 <= ttl
    requires id in trace[i].calls && trace[i].calls[id].pc.Done? && trace[i].calls[id].pc.outcome.Returned?
    ensures trace[i].calls[id].began - lag - ttl <= instant <= trace[i].now
    ensures FirstNamed(published(instant), trace[i].calls[id].kid) == Some(trace[i].calls[id].pc.outcome.key)
  {
    RunIsSound(published, trace, i);
    var s, call := trace[i], trace[i].calls[id];
    assert CallIsSound(s, call);
    instant := s.stores[call.pc.outcome.from].seen;
  }

  /** A key gone from time `w` on is never returned to a call that starts at `w + lag + ttl` or later. */
  lemma WithdrawalBound(published: History, trace: seq<State>, i: nat, id: CallId,
                        key: Key, w: Time, lag: Time, ttl: Time)
    requires Run(published, trace) && i < |trace|
    requires StoresWithin(trace[i], lag, ttl) && 0.0 <= ttl
    requires forall t: Time | w <= t :: key !in published(t)
    requires id in trace[i].calls && w + lag + ttl <= trace[i].calls[id].began
    requires trace[i].calls[id].pc.Done? && trace[i].calls[id].pc.outcome.Returned?
    ensures trace[i].calls[id].pc.outcome.key != key
  {
    var instant := BoundedStaleness(published, trace, i, id, lag, ttl);
  }

  // ---- traffic ----

  ghost predicate Spaced(stamps: seq<Time>, gap: Time) {
    forall i | 0 < i < |stamps| :: stamps[i] - stamps[i - 1] >= gap
  }

  /** The window always starts at the last claim granted on a fresh set. */
  ghost predicate MissesAreSpaced(s: State) {
    && Spaced(s.missStamps, s.cache.refetchInterval)
    && s.cache.missAt == (if s.missStamps == [] then None else Some(Last(s.missStamps)))
  }

  lemma {:induction false} MissCeiling(published: History, trace: seq<State>, i: nat)
    requires Run(published, trace) && i < |trace|
    ensures MissesAreSpaced(trace[i])
  {
    if i > 0 {
      MissCeiling(published, trace, i - 1);
    }
  }

  lemma {:induction false} SpacedApart(stamps: seq<Time>, gap: Time, i: nat, j: nat)
    requires Spaced(stamps, gap) && 0.0 <= gap
    requires i < j < |stamps|
    ensures stamps[j] - stamps[i] >= gap
  {
    if i + 1 < j {
      SpacedApart(stamps, gap, i, j - 1);
    }
  }

  /** Any two claims granted on a fresh set, in any run of both kinds of call, are an interval apart. */
  lemma AnyTwoMisses(published: History, trace: seq<State>, i: nat, a: nat, b: nat)
    requires Run(published, trace) && i < |trace| && 0.0 <= trace[i].cache.refetchInterval
    requires a < b < |trace[i].missStamps|
    ensures trace[i].missStamps[b] - trace[i].missStamps[a] >= trace[i].cache.refetchInterval
  {
    MissCeiling(published, trace, i);
    SpacedApart(trace[i].missStamps, trace[i].cache.refetchInterval, a, b);
  }

  /** How many of the stamps lie in the period from `a` to `b`, both ends included. */
  function CountIn(stamps: seq<Time>, a: Time, b: Time): nat {
    if stamps == [] then 0
    else CountIn(stamps[..|stamps| - 1], a, b) + if a <= Last(stamps) <= b then 1 else 0
  }

  lemma {:induction false} CountUpTo(stamps: seq<Time>, a: Time, b: Time, c: Time)
    requires c <= b && forall i | 0 <= i < |stamps| :: stamps[i] <= c
    ensures CountIn(stamps, a, b) == CountIn(stamps, a, c)
  {
    if stamps != [] {
      CountUpTo(stamps[..|stamps| - 1], a, b, c);
    }
  }

  /** `n` gaps, one after the other. */
  function Gaps(n: nat, gap: Time): Time {
    if n == 0 then 0.0 else Gaps(n - 1, gap) + gap
  }

  lemma {:induction false} GapsMultiply(n: nat, gap: Time)
    ensures Gaps(n, gap) == n as real * gap
  {
    if n > 0 {
      GapsMultiply(n - 1, gap);
      assert n as real * gap == (n - 1) as real * gap + gap;
    }
  }

  lemma {:induction false} SpacedCount(stamps: seq<Time>, gap: Time, a: Time, b: Time)
    requires Spaced(stamps, gap) && 0.0 < gap
    ensures CountIn(stamps, a, b) == 0 || Gaps(CountIn(stamps, a, b) - 1, gap) <= b - a
  {
    if stamps != [] {
      var front, last := stamps[..|stamps| - 1], Last(stamps);
      assert Spaced(front, gap);
      if a <= last <= b {
        forall i | 0 <= i < |front|
          ensures front[i] <= last - gap
        {
          SpacedApart(stamps, gap, i, |stamps| - 1);
        }
        CountUpTo(front, a, b, last - gap);
        SpacedCount(front, gap, a, last - gap);
      } else {
        SpacedCount(front, gap, a, b);
      }
    }
  }

  lemma WholeGaps(n: nat, gap: Time, length: Time)
    requires 0.0 < gap && 0.0 <= length
    requires n == 0 || Gaps(n - 1, gap) <= length
    ensures n <= 1 + (length / gap).Floor
  {
    if n > 0 {
      GapsMultiply(n - 1, gap);
      assert (n - 1) as real <= length / gap;
    }
  }

  /**
   The ceiling holds for both kinds of call together: in any period the claims granted on a fresh
   set are bounded by the length of the period, however many calls and however many unknown `kid`s.
   */
  lemma MissTraffic(published: History, trace: seq<State>, i: nat, a: Time, b: Time)
    requires Run(published, trace) && i < |trace|
    requires a <= b && 0.0 < trace[i].cache.refetchInterval
    ensures CountIn(trace[i].missStamps, a, b) <= 1 + ((b - a) / trace[i].cache.refetchInterval).Floor
  {
    MissCeiling(published, trace, i);
    var s := trace[i];
    SpacedCount(s.missStamps, s.cache.refetchInterval, a, b);
    WholeGaps(CountIn(s.missStamps, a, b), s.cache.refetchInterval, b - a);
  }

  // ---- synchronous callers ----

  ghost predicate Serial(s: State) {
    forall id | id in s.calls :: s.calls[id].mode.Sync?
  }

  predicate Failed(pc: Pc) {
    pc.Done? && pc.outcome.FetchError?
  }

  /** Synchronous callers whose fetches succeed. */
  ghost predicate Smooth(s: State) {
    Serial(s) && forall id | id in s.calls :: !Failed(s.calls[id].pc)
  }

  lemma SerialBefore(published: History, s: State, t: State)
    requires Next(published, s, t) && Serial(t)
    ensures Serial(s) && (Smooth(t) ==> Smooth(s))
  {
    var step :| Enabled(s, step) && t == Apply(published, s, step);
    forall id | id in s.calls
      ensures id in t.calls && s.calls[id].mode == t.calls[id].mode && (Failed(s.calls[id].pc) ==> Failed(t.calls[id].pc))
    {
    }
  }

  ghost predicate InFlight(s: State) {
    s.fetchLock.Some? && s.fetchLock.value in s.calls && BetweenClaimAndStore(s.calls[s.fetchLock.value].pc)
  }

  ghost predicate NoLaterThan(stamps: seq<Time>, t: Time) {
    stamps != [] ==> Last(stamps) <= t
  }

  ghost predicate CallIsSettled(s: State, call: Call) {
    match call.pc
    case Missed(at) => Lookup(s.cache, at, call.kid, true) == None
    case Stamped(at, stamp) => Lookup(s.cache, at, call.kid, true) == None
    case Fetching(_, since) => FollowsClaims(s, since)
    case Fetched(_, since, seen) => FollowsClaims(s, since)
    case Stored(since, at) => s.stores != [] && since <= Last(s.stores).since
    case _ => true
  }

  ghost predicate FollowsClaims(s: State, since: Time) {
    && NoLaterThan(s.missStamps, since)
    && NoLaterThan(s.staleStamps, since)
    && (s.stores != [] ==> Last(s.stores).since <= since)
  }

  ghost predicate StampsArePast(s: State) {
    && (forall i | 0 <= i < |s.missStamps| :: s.missStamps[i] <= s.now)
    && (forall i | 0 <= i < |s.staleStamps| :: s.staleStamps[i] <= s.now)
  }

  /** Everything known of a run of synchronous calls. */
  ghost predicate Settled(published: History, s: State) {
    && Sound(published, s)
    && LockIsExclusive(s)
    && Serial(s)
    && StampsArePast(s)
    && forall id {:trigger CallIsSettled(s, s.calls[id])} | id in s.calls :: CallIsSettled(s, s.calls[id])
  }

  /** While one synchronous call is past the fetch lock, no other one claims or stores. */
  lemma OtherStaysSettled(published: History, s: State, id: CallId, act: Act, other: CallId)
    requires Settled(published, s) && id in s.calls && CanAct(s, s.calls[id].pc, act)
    requires other in s.calls && other != id
    ensures CallIsSettled(Perform(s, id, Do(published, s, id, act)), s.calls[other])
  {
    assert CallIsSettled(s, s.calls[other]) && CallIsSettled(s, s.calls[id]);
    if act.TakeClaim? || act.Put? {
      assert Holds(s, id) && !Holds(s, other);
    } else {
      var e := Do(published, s, id, act);
      assert e.cache == s.cache && e.stores == s.stores
          && e.missStamps == s.missStamps && e.staleStamps == s.staleStamps;
    }
  }

  lemma MoverStaysSettled(published: History, s: State, id: CallId, act: Act)
    requires Settled(published, s) && id in s.calls && CanAct(s, s.calls[id].pc, act)
    ensures
      var e := Do(published, s, id, act);
      CallIsSettled(Perform(s, id, e), s.calls[id].(pc := e.pc))
  {
    assert CallIsSettled(s, s.calls[id]) && CallIsSound(s, s.calls[id]);
    assert Holds(s, id) <==> s.fetchLock == Some(id);
  }

  lemma CallsStaySettled(published: History, s: State, id: CallId, act: Act)
    requires Settled(published, s) && id in s.calls && CanAct(s, s.calls[id].pc, act)
    ensures
      var t := Perform(s, id, Do(published, s, id, act));
      forall other {:trigger CallIsSettled(t, t.calls[other])} | other in t.calls :: CallIsSettled(t, t.calls[other])
  {
    var t := Perform(s, id, Do(published, s, id, act));
    forall other | other in t.calls
      ensures CallIsSettled(t, t.calls[other])
    {
      if other == id {
        MoverStaysSettled(published, s, id, act);
      } else {
        OtherStaysSettled(published, s, id, act, other);
      }
    }
  }

  lemma StampsStepPast(published: History, s: State, t: State)
    requires Settled(published, s) && Next(published, s, t)
    ensures StampsArePast(t)
  {
    var step :| Enabled(s, step) && t == Apply(published, s, step);
    if step.By? {
      assert CallIsSound(s, s.calls[step.id]);
    }
  }

  lemma CallsStepSettled(published: History, s: State, t: State)
    requires Settled(published, s) && Next(published, s, t)
    ensures forall id {:trigger CallIsSettled(t, t.calls[id])} | id in t.calls :: CallIsSettled(t, t.calls[id])
  {
    var step :| Enabled(s, step) && t == Apply(published, s, step);
    if step.By? {
      CallsStaySettled(published, s, step.id, step.act);
    } else {
      forall id | id in t.calls
        ensures CallIsSettled(t, t.calls[id])
      {
        if id in s.calls {
          assert CallIsSettled(s, s.calls[id]);
        }
      }
    }
  }

  lemma {:induction false} RunIsSettled(published: History, trace: seq<State>, i: nat)
    requires Run(published, trace) && i < |trace| && Serial(trace[i])
    ensures Settled(published, trace[i])
  {
    RunIsSound(published, trace, i);
    SingleFlight(published, trace, i);
    if i > 0 {
      SerialBefore(published, trace[i - 1], trace[i]);
      RunIsSettled(published, trace, i - 1);
      StampsStepPast(published, trace[i - 1], trace[i]);
      CallsStepSettled(published, trace[i - 1], trace[i]);
    }
  }

  // ---- synchronous callers whose fetches succeed ----

  ghost predicate StoredSince(s: State, stamps: seq<Time>) {
    stamps != [] ==> s.stores != [] && Last(stamps) <= Last(s.stores).since
  }

  /** Every granted claim is followed by its own fetch and store before the next one is made. */
  ghost predicate ClaimsAreStored(s: State) {
    !InFlight(s) ==> StoredSince(s, s.missStamps) && StoredSince(s, s.staleStamps)
  }

  lemma ClaimsStayStored(published: History, s: State, id: CallId, act: Act)
    requires Settled(published, s) && ClaimsAreStored(s)
    requires id in s.calls && CanAct(s, s.calls[id].pc, act) && !act.Fail?
    ensures ClaimsAreStored(Perform(s, id, Do(published, s, id, act)))
  {
    assert CallIsSettled(s, s.calls[id]) && CallIsSound(s, s.calls[id]);
    assert Holds(s, id) <==> s.fetchLock == Some(id);
  }

  lemma ClaimsStepStored(published: History, s: State, t: State)
    requires Settled(published, s) && ClaimsAreStored(s) && Next(published, s, t) && Smooth(t)
    ensures ClaimsAreStored(t)
  {
    var step :| Enabled(s, step) && t == Apply(published, s, step);
    if step.By? {
      assert !Failed(t.calls[step.id].pc);
      ClaimsStayStored(published, s, step.id, step.act);
    }
  }

  lemma {:induction false} RunStoresClaims(published: History, trace: seq<State>, i: nat)
    requires Run(published, trace) && i < |trace| && Smooth(trace[i])
    ensures ClaimsAreStored(trace[i])
  {
    if i > 0 {
      SerialBefore(published, trace[i - 1], trace[i]);
      RunIsSettled(published, trace, i - 1);
      RunStoresClaims(published, trace, i - 1);
      ClaimsStepStored(published, trace[i - 1], trace[i]);
    }
  }

  ghost predicate FixedTtl(s: State, ttl: Time) {
    forall i | 0 <= i < |s.stores| :: s.stores[i].ttl == ttl
  }

  lemma SpacedAppend(stamps: seq<Time>, gap: Time, stamp: Time)
    requires Spaced(stamps, gap) && (stamps != [] ==> stamp - Last(stamps) >= gap)
    ensures Spaced(stamps + [stamp], gap)
  {
  }

  lemma SpacedAppendIfStale(s: State, t: State, id: CallId, ttl: Time)
    requires CacheIsLastStore(s) && ClaimsAreStored(s) && FixedTtl(s, ttl) && Spaced(s.staleStamps, ttl)
    requires id in s.calls && s.calls[id].pc.Stamped? && s.fetchLock == Some(id)
    requires forall i | 0 <= i < |s.stores| :: s.stores[i].since <= s.stores[i].at
    requires t.staleStamps == s.staleStamps
          || (!Fresh(s.cache, s.calls[id].pc.stamp) && t.staleStamps == s.staleStamps + [s.calls[id].pc.stamp])
    ensures Spaced(t.staleStamps, ttl)
  {
    var stamp := s.calls[id].pc.stamp;
    assert !InFlight(s);
    if t.staleStamps != s.staleStamps && s.staleStamps != [] {
      assert Last(s.staleStamps) + ttl <= s.cache.expiresAt <= stamp;
    }
    if t.staleStamps != s.staleStamps {
      SpacedAppend(s.staleStamps, ttl, stamp);
    }
  }

  lemma StaleStep(published: History, s: State, t: State, ttl: Time)
    requires Settled(published, s) && ClaimsAreStored(s) && Next(published, s, t)
    requires FixedTtl(s, ttl) && Spaced(s.staleStamps, ttl)
    ensures Spaced(t.staleStamps, ttl)
  {
    var step :| Enabled(s, step) && t == Apply(published, s, step);
    if step.By? && step.act.TakeClaim? {
      assert Holds(s, step.id);
      SpacedAppendIfStale(s, t, step.id, ttl);
    }
  }

  /** Until a stored set expires, nobody is sent back for an empty or stale one. */
  lemma {:induction false} StaleClaimsAreSpaced(published: History, trace: seq<State>, i: nat, ttl: Time)
    requires Run(published, trace) && i < |trace|
    requires Smooth(trace[i]) && FixedTtl(trace[i], ttl)
    ensures Spaced(trace[i].staleStamps, ttl)
  {
    if i > 0 {
      var s, t := trace[i - 1], trace[i];
      SerialBefore(published, s, t);
      RunIsSettled(published, trace, i - 1);
      RunStoresClaims(published, trace, i - 1);
      SoundStep(published, s, t);
      assert FixedTtl(s, ttl) by {
        assert forall j | 0 <= j < |s.stores| :: s.stores[j] == t.stores[j];
      }
      StaleClaimsAreSpaced(published, trace, i - 1, ttl);
      StaleStep(published, s, t, ttl);
    }
  }

  /**
   All the traffic of synchronous callers whose fetches succeed: in any period, at most one trip for
   each window of unknown `kid`s and one for each expiry.  Junk does not buy a single request more.
   */
  lemma TrafficBound(published: History, trace: seq<State>, i: nat, ttl: Time, a: Time, b: Time)
    requires Run(published, trace) && i < |trace|
    requires Smooth(trace[i]) && FixedTtl(trace[i], ttl) && 0.0 < ttl
    requires a <= b && 0.0 < trace[i].cache.refetchInterval
    ensures CountIn(trace[i].missStamps, a, b) + CountIn(trace[i].staleStamps, a, b)
         <= (1 + ((b - a) / trace[i].cache.refetchInterval).Floor) + (1 + ((b - a) / ttl).Floor)
  {
    MissTraffic(published, trace, i, a, b);
    StaleClaimsAreSpaced(published, trace, i, ttl);
    SpacedCount(trace[i].staleStamps, ttl, a, b);
    WholeGaps(CountIn(trace[i].staleStamps, a, b), ttl, b - a);
  }

  // ---- rotation in ----

  ghost predicate PublishesFrom(published: History, kid: string, w: Time) {
    forall t: Time | w <= t :: FirstNamed(published(t), Some(kid)).Some?
  }

  /** The fetch that was claimed with this stamp ended in an error. */
  ghost predicate FetchFailed(s: State, stamp: Time) {
    exists id :: id in s.calls && s.calls[id].pc == Done(FetchError(stamp))
  }

  ghost predicate ClaimInFlight(s: State, stamp: Time) {
    InFlight(s) && s.calls[s.fetchLock.value].pc.stamp == stamp
  }

  /** What became of the last claim granted on a fresh set: under way, failed, or followed by a store. */
  ghost predicate WindowIsUsed(s: State) {
    s.cache.missAt.Some? ==>
      var window := s.cache.missAt.value;
      || ClaimInFlight(s, window)
      || FetchFailed(s, window)
      || (s.stores != [] && window <= Last(s.stores).since)
  }

  lemma FailuresStay(published: History, s: State, id: CallId, act: Act, stamp: Time)
    requires id in s.calls && CanAct(s, s.calls[id].pc, act)
    ensures
      var t := Perform(s, id, Do(published, s, id, act));
      FetchFailed(s, stamp) || t.calls[id].pc == Done(FetchError(stamp)) ==> FetchFailed(t, stamp)
  {
    var t := Perform(s, id, Do(published, s, id, act));
    if other :| other in s.calls && s.calls[other].pc == Done(FetchError(stamp)) {
      assert t.calls[other] == s.calls[other];
    }
  }

  /** A step of the clock, of the settings or of a new call changes neither. */
  lemma OthersKeepWindow(published: History, s: State, t: State, step: Step, stamp: Time)
    requires Enabled(s, step) && !step.By? && t == Apply(published, s, step)
    ensures FetchFailed(s, stamp) ==> FetchFailed(t, stamp)
    ensures ClaimInFlight(s, stamp) ==> ClaimInFlight(t, stamp)
  {
    if other :| other in s.calls && s.calls[other].pc == Done(FetchError(stamp)) {
      assert t.calls[other] == s.calls[other];
    }
  }

  lemma WindowStaysUsed(published: History, s: State, id: CallId, act: Act)
    requires Settled(published, s) && WindowIsUsed(s) && id in s.calls && CanAct(s, s.calls[id].pc, act)
    ensures WindowIsUsed(Perform(s, id, Do(published, s, id, act)))
  {
    assert CallIsSettled(s, s.calls[id]) && CallIsSound(s, s.calls[id]);
    assert Holds(s, id) <==> s.fetchLock == Some(id);
    if s.cache.missAt.Some? {
      FailuresStay(published, s, id, act, s.cache.missAt.value);
    }
  }

  lemma {:induction false} RunUsesWindows(published: History, trace: seq<State>, i: nat)
    requires Run(published, trace) && i < |trace| && Serial(trace[i])
    ensures WindowIsUsed(trace[i])
  {
    if i > 0 {
      var s, t := trace[i - 1], trace[i];
      SerialBefore(published, s, t);
      RunIsSettled(published, trace, i - 1);
      RunUsesWindows(published, trace, i - 1);
      var step :| Enabled(s, step) && t == Apply(published, s, step);
      if step.By? {
        WindowStaysUsed(published, s, step.id, step.act);
      } else {
        if s.cache.missAt.Some? {
          OthersKeepWindow(published, s, t, step, s.cache.missAt.value);
        }
      }
    }
  }

  /** How a call that names a published `kid` may end. */
  ghost predicate ServedOrWindowed(s: State, call: Call, kid: string, w: Time) {
    match call.pc
    case Done(Returned(key, _, _)) => key.id == Some(kid)
    case Done(Denied(stamp, window)) =>
      && window in s.missStamps && stamp < window + s.cache.refetchInterval
      && (window < w || FetchFailed(s, window))
    case Done(FetchError(_)) => true
    case Done(StillUnknown(_)) => false
    case _ => true
  }

  lemma ServedAct(published: History, s: State, id: CallId, act: Act, kid: string, w: Time)
    requires Settled(published, s) && MissesAreSpaced(s) && WindowIsUsed(s)
    requires id in s.calls && CanAct(s, s.calls[id].pc, act)
    requires PublishesFrom(published, kid, w) && s.calls[id].kid == Some(kid) && w <= s.calls[id].began
    ensures
      var e := Do(published, s, id, act);
      ServedOrWindowed(Perform(s, id, e), s.calls[id].(pc := e.pc), kid, w)
  {
    assert CallIsSettled(s, s.calls[id]) && CallIsSound(s, s.calls[id]);
    assert Holds(s, id) <==> s.fetchLock == Some(id);
    if s.stores != [] && w <= Last(s.stores).since {
      assert FirstNamed(Last(s.stores).keys, Some(kid)).Some?;
    }
    if act.TakeClaim? && s.cache.missAt.Some? {
      FailuresStay(published, s, id, act, s.cache.missAt.value);
    }
  }

  lemma MissStampsGrow(published: History, s: State, id: CallId, act: Act, stamp: Time)
    requires id in s.calls && CanAct(s, s.calls[id].pc, act) && stamp in s.missStamps
    ensures stamp in Do(published, s, id, act).missStamps
  {
  }

  lemma ServedStep(published: History, s: State, t: State, id: CallId, kid: string, w: Time)
    requires Settled(published, s) && MissesAreSpaced(s) && WindowIsUsed(s) && Next(published, s, t)
    requires PublishesFrom(published, kid, w)
    requires id in s.calls && s.calls[id].kid == Some(kid) && w <= s.calls[id].began
    requires ServedOrWindowed(s, s.calls[id], kid, w)
    ensures id in t.calls && ServedOrWindowed(t, t.calls[id], kid, w)
  {
    var step :| Enabled(s, step) && t == Apply(published, s, step);
    if step.By? {
      if step.id == id {
        ServedAct(published, s, id, step.act, kid, w);
      } else if s.calls[id].pc.Done? && s.calls[id].pc.outcome.Denied? {
        MissStampsGrow(published, s, step.id, step.act, s.calls[id].pc.outcome.window);
        FailuresStay(published, s, step.id, step.act, s.calls[id].pc.outcome.window);
      }
    } else if s.calls[id].pc.Done? && s.calls[id].pc.outcome.Denied? {
      OthersKeepWindow(published, s, t, step, s.calls[id].pc.outcome.window);
    }
  }

  lemma CallsKeepTheirOrigin(published: History, s: State, t: State, id: CallId)
    requires Next(published, s, t) && id in t.calls
    ensures id in s.calls ==> s.calls[id].(pc := t.calls[id].pc) == t.calls[id]
    ensures id !in s.calls ==> t.calls[id].pc == Called
    ensures s.cache.refetchInterval == t.cache.refetchInterval
  {
  }

  /**
   Rotation in, for synchronous callers.  Once the issuer publishes `kid` from time `w` on, a call that
   names it and starts at `w` or later ends with a key of that `kid`, unless its own fetch fails, or it
   is turned away inside a window that another miss opened: one opened before `w`, or one whose own
   fetch failed.
   */
  lemma {:induction false} RotationIn(published: History, trace: seq<State>, i: nat, id: CallId, kid: string, w: Time)
    requires Run(published, trace) && i < |trace| && Serial(trace[i])
    requires PublishesFrom(published, kid, w)
    requires id in trace[i].calls && trace[i].calls[id].kid == Some(kid) && w <= trace[i].calls[id].began
    ensures ServedOrWindowed(trace[i], trace[i].calls[id], kid, w)
  {
    if i > 0 {
      var s, t := trace[i - 1], trace[i];
      SerialBefore(published, s, t);
      CallsKeepTheirOrigin(published, s, t, id);
      if id in s.calls {
        RotationIn(published, trace, i - 1, id, kid, w);
        RunIsSettled(published, trace, i - 1);
        RunUsesWindows(published, trace, i - 1);
        MissCeiling(published, trace, i - 1);
        ServedStep(published, s, t, id, kid, w);
      }
    }
  }

  /** So where no fetch fails a new key waits at most one window. */
  lemma RotationInBound(published: History, trace: seq<State>, i: nat, id: CallId, kid: string, w: Time)
    requires Run(published, trace) && i < |trace| && Smooth(trace[i])
    requires PublishesFrom(published, kid, w)
    requires id in trace[i].calls && trace[i].calls[id].kid == Some(kid)
    requires w + trace[i].cache.refetchInterval <= trace[i].calls[id].began && 0.0 <= trace[i].cache.refetchInterval
    requires trace[i].calls[id].pc.Done?
    ensures trace[i].calls[id].pc.outcome.Returned? && trace[i].calls[id].pc.outcome.key.id == Some(kid)
  {
    RotationIn(published, trace, i, id, kid, w);
    RunIsSound(published, trace, i);
    assert CallIsSound(trace[i], trace[i].calls[id]);
    assert !Failed(trace[i].calls[id].pc);
  }
}
