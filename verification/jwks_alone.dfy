/**
 The two models of the key cache meet: a call of the protocol that nobody disturbs keeps the contract
 that the class's methods are proved to keep.
 */
module JwksAlone {
  import opened Options
  import opened Jwks
  import opened JwksProtocol

  /** Time passes, or the one call acts. */
  ghost predicate AloneStep(published: History, s: State, t: State, id: CallId) {
    exists step :: Enabled(s, step) && (step.Tick? || (step.By? && step.id == id)) && t == Apply(published, s, step)
  }

  ghost predicate AloneRun(published: History, alone: seq<State>, id: CallId) {
    && alone != []
    && id in alone[0].calls && alone[0].calls[id].pc == Called
    && forall i | 0 < i < |alone| :: AloneStep(published, alone[i - 1], alone[i], id)
  }

  /** The cache is as the call found it, and had no key for it at time `at`. */
  ghost predicate MissedAt(first: State, s: State, kid: Option<string>, at: Time) {
    && s.cache == first.cache && s.stores == first.stores
    && first.now <= at <= s.now && Lookup(first.cache, at, kid, true) == None
  }

  /** The call has claimed its trip and nothing else has changed. */
  ghost predicate ClaimedAt(first: State, s: State, kid: Option<string>, stamp: Time) {
    && s.cache == first.cache.(missAt := s.cache.missAt) && s.stores == first.stores
    && first.now <= stamp <= s.now && Claims(first.cache, s.cache.missAt, stamp)
    && Lookup(first.cache, stamp, kid, true) == None
  }

  ghost predicate StoredBy(first: State, s: State, kid: Option<string>) {
    && |s.stores| == |first.stores| + 1
    && var e := Last(s.stores);
       && first.now <= e.claimed <= e.at <= s.now
       && s.cache == Store(first.cache.(missAt := s.cache.missAt), e.keys, e.at)
       && Claims(first.cache, s.cache.missAt, e.claimed)
       && Lookup(first.cache, e.claimed, kid, true) == None
  }

  /** How the end of a call reads as the end of the class's method: requests, answer and result. */
  ghost predicate Contract(first: State, s: State, kid: Option<string>, outcome: Outcome) {
    var asked := |s.stores| > |first.stores|;
    match outcome
    case Returned(key, _, at) =>
      UndisturbedCall(first.cache, s.cache, kid, first.now, at, if asked then 1 else 0,
                      if asked then Keys(Last(s.stores).keys) else Unreachable, Found(key))
    case Denied(stamp, _) =>
      !asked && UndisturbedCall(first.cache, s.cache, kid, first.now, stamp, 0, Unreachable, UnknownKid)
    case StillUnknown(at) =>
      asked && UndisturbedCall(first.cache, s.cache, kid, first.now, at, 1, Keys(Last(s.stores).keys), UnknownKid)
    case FetchError(stamp) =>
      !asked && UndisturbedCall(first.cache, s.cache, kid, first.now, stamp, 1, Unreachable, IssuerFailed)
  }

  ghost predicate SoFar(first: State, s: State, call: Call) {
    && first.now <= s.now
    && match call.pc
       case Called => s.cache == first.cache && s.stores == first.stores
       case Queued => s.cache == first.cache && s.stores == first.stores
       case Locked => s.cache == first.cache && s.stores == first.stores
       case Missed(at) => MissedAt(first, s, call.kid, at)
       case Stamped(at, stamp) => MissedAt(first, s, call.kid, at) && at <= stamp <= s.now
       case Granted(stamp) => ClaimedAt(first, s, call.kid, stamp)
       case Fetching(stamp, since) => ClaimedAt(first, s, call.kid, stamp) && stamp <= since
       case Fetched(stamp, since, seen) => ClaimedAt(first, s, call.kid, stamp) && stamp <= since <= seen <= s.now
       case Stored(since, at) => StoredBy(first, s, call.kid)
       case Done(outcome) => Contract(first, s, call.kid, outcome)
  }

  lemma ActKeepsSoFar(published: History, first: State, s: State, id: CallId, act: Act)
    requires id in s.calls && SoFar(first, s, s.calls[id]) && CanAct(s, s.calls[id].pc, act)
    ensures var e := Do(published, s, id, act); SoFar(first, Perform(s, id, e), s.calls[id].(pc := e.pc))
  {
  }

  lemma TickKeepsSoFar(first: State, s: State, to: Time, call: Call)
    requires SoFar(first, s, call) && s.now <= to
    ensures SoFar(first, s.(now := to), call)
  {
  }

  /** Whichever way the call ends, and whenever the clock ticks on the way. */
  lemma {:induction false} AloneKeepsContract(published: History, alone: seq<State>, id: CallId)
    requires AloneRun(published, alone, id)
    ensures
      var s := alone[|alone| - 1];
      && id in s.calls && SoFar(alone[0], s, s.calls[id])
      && (s.calls[id].pc.Done? ==> Contract(alone[0], s, s.calls[id].kid, s.calls[id].pc.outcome))
    decreases |alone|
  {
    if |alone| > 1 {
      var s, t := alone[|alone| - 2], alone[|alone| - 1];
      AloneKeepsContract(published, alone[..|alone| - 1], id);
      assert AloneStep(published, s, t, id);
      var step :| Enabled(s, step) && (step.Tick? || (step.By? && step.id == id)) && t == Apply(published, s, step);
      if step.By? {
        ActKeepsSoFar(published, alone[0], s, id, step.act);
      } else {
        TickKeepsSoFar(alone[0], s, step.to, s.calls[id]);
      }
    }
  }
}
