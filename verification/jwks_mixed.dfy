/**
 Rotation in when synchronous and asynchronous calls mix.  Windows are shared there but fetches are
 not waited for, so how long a new key can be refused depends on how long a fetch can be under way.
 */
module JwksMixed {
  import opened Options
  import opened Jwks
  import opened JwksProtocol
  import opened JwksBounds

  /** No fetch has failed, and none is under way for longer than `lag` after the clock reading of its claim. */
  ghost predicate Prompt(s: State, lag: Time) {
    forall id | id in s.calls ::
      !Failed(s.calls[id].pc) && (BetweenClaimAndStore(s.calls[id].pc) ==> s.now <= s.calls[id].pc.stamp + lag)
  }

  ghost predicate Asking(s: State, stamp: Time) {
    exists id :: id in s.calls && BetweenClaimAndStore(s.calls[id].pc) && s.calls[id].pc.stamp == stamp
  }

  ghost predicate HasStored(s: State, stamp: Time) {
    exists q :: 0 <= q < |s.stores| && s.stores[q].claimed == stamp
  }

  ghost predicate StoresAreInTime(s: State, lag: Time) {
    && (forall q | 0 <= q < |s.stores| :: s.stores[q].at <= s.stores[q].claimed + lag)
    && forall q, p | 0 <= q <= p < |s.stores| :: s.stores[q].at <= s.stores[p].at
  }

  /** Every claim granted on a fresh set is under way or stored, in time; stores are in the order of their making. */
  ghost predicate ClaimsArrive(s: State, lag: Time) {
    && StoresAreInTime(s, lag)
    && forall m | 0 <= m < |s.missStamps| :: Asking(s, s.missStamps[m]) || HasStored(s, s.missStamps[m])
  }

  /** A set stored no earlier than store `q` had expired at time `at`. */
  ghost predicate ExpiredAfter(s: State, q: int, at: Time) {
    exists p :: 0 <= q <= p < |s.stores| && s.stores[p].at + s.stores[p].ttl <= at
  }

  /** A call that missed although a set with its key had been stored before it began looked at an expired set. */
  ghost predicate MissIsExplained(s: State, call: Call, from: Time) {
    call.pc.Missed? || call.pc.Stamped? ==>
      forall q | 0 <= q < |s.stores| && from <= s.stores[q].at < call.began :: ExpiredAfter(s, q, call.pc.at)
  }

  /** A set that was stored a fetch's duration after `kid` was published has a key of it. */
  lemma LateSetHasKey(published: History, s: State, kid: string, w: Time, lag: Time)
    requires Sound(published, s) && ClaimsArrive(s, lag) && PublishesFrom(published, kid, w)
    requires s.stores != [] && w + lag <= Last(s.stores).at
    ensures s.cache.keySet.Some? && FirstNamed(s.cache.keySet.value, Some(kid)).Some?
  {
    var e := Last(s.stores);
    assert e.at <= e.claimed + lag;
    assert FirstNamed(published(e.seen), Some(kid)).Some?;
  }

  lemma StoresArrive(published: History, s: State, t: State, step: Step, lag: Time)
    requires StoresAreHonest(published, s) && StoresAreInTime(s, lag) && Prompt(s, lag)
    requires Enabled(s, step) && t == Apply(published, s, step)
    ensures StoresAreInTime(t, lag)
  {
  }

  lemma ClaimsArriveStep(published: History, s: State, t: State, lag: Time)
    requires Sound(published, s) && ClaimsArrive(s, lag) && Prompt(s, lag) && Prompt(t, lag) && Next(published, s, t)
    ensures ClaimsArrive(t, lag)
  {
    var step :| Enabled(s, step) && t == Apply(published, s, step);
    StoresArrive(published, s, t, step, lag);
    forall m | 0 <= m < |t.missStamps|
      ensures Asking(t, t.missStamps[m]) || HasStored(t, t.missStamps[m])
    {
      if m < |s.missStamps| {
        ClaimStaysArriving(published, s, t, step, lag, s.missStamps[m]);
      } else {
        assert t.calls[step.id].pc.stamp == t.missStamps[m];
      }
    }
  }

  lemma ClaimStaysArriving(published: History, s: State, t: State, step: Step, lag: Time, stamp: Time)
    requires Enabled(s, step) && t == Apply(published, s, step) && Prompt(t, lag)
    requires Asking(s, stamp) || HasStored(s, stamp)
    ensures Asking(t, stamp) || HasStored(t, stamp)
  {
    if q :| 0 <= q < |s.stores| && s.stores[q].claimed == stamp {
      assert t.stores[q] == s.stores[q];
    } else {
      var id :| id in s.calls && BetweenClaimAndStore(s.calls[id].pc) && s.calls[id].pc.stamp == stamp;
      assert id in t.calls && !Failed(t.calls[id].pc);
      if step == By(id, Put) {
        assert t.stores[|s.stores|].claimed == stamp;
      }
    }
  }

  lemma {:induction false} RunClaimsArrive(published: History, trace: seq<State>, i: nat, lag: Time)
    requires Run(published, trace) && i < |trace|
    requires forall j | 0 <= j <= i :: Prompt(trace[j], lag)
    ensures ClaimsArrive(trace[i], lag)
  {
    if i > 0 {
      assert Next(published, trace[i - 1], trace[i]) && Prompt(trace[i - 1], lag) && Prompt(trace[i], lag);
      RunClaimsArrive(published, trace, i - 1, lag);
      RunIsSound(published, trace, i - 1);
      ClaimsArriveStep(published, trace[i - 1], trace[i], lag);
    }
  }

  /**
   How a call may end that names a published `kid` and starts a fetch's duration or more after its
   publication.  It is turned away only inside a window: one opened before then, or one whose own fetch
   could still be under way when the call started, or one in which a set has expired since.
   */
  ghost predicate ServedOrOverlapped(s: State, call: Call, kid: string, from: Time, lag: Time) {
    match call.pc
    case Done(Returned(key, _, _)) => key.id == Some(kid)
    case Done(Denied(stamp, window)) =>
      && window in s.missStamps && stamp < window + s.cache.refetchInterval
      && (window < from || call.began <= window + lag || ExpiredInWindow(s, window, stamp))
    case Done(_) => false
    case _ => MissIsExplained(s, call, from)
  }

  ghost predicate ExpiredInWindow(s: State, window: Time, stamp: Time) {
    exists p :: 0 <= p < |s.stores| && window <= s.stores[p].at && s.stores[p].at + s.stores[p].ttl <= stamp
  }

  lemma LookupIsExplained(published: History, s: State, call: Call, kid: string, w: Time, lag: Time)
    requires Sound(published, s) && ClaimsArrive(s, lag) && PublishesFrom(published, kid, w)
    requires call.pc == Missed(s.now) && Lookup(s.cache, s.now, Some(kid), true) == None
    ensures MissIsExplained(s, call, w + lag)
  {
    forall q | 0 <= q < |s.stores| && w + lag <= s.stores[q].at < call.began
      ensures ExpiredAfter(s, q, s.now)
    {
      LateSetHasKey(published, s, kid, w, lag);
      assert Last(s.stores).at + Last(s.stores).ttl <= s.now;
    }
  }

  lemma DenialIsExplained(published: History, s: State, call: Call, kid: string, w: Time, lag: Time)
    requires Sound(published, s) && ClaimsArrive(s, lag) && Prompt(s, lag) && MissesAreSpaced(s)
    requires CallIsSound(s, call) && call.pc.Stamped? && MissIsExplained(s, call, w + lag)
    requires Shut(s.cache, call.pc.stamp)
    ensures
      var window := s.cache.missAt.value;
      && window in s.missStamps
      && (window < w + lag || call.began <= window + lag || ExpiredInWindow(s, window, call.pc.stamp))
  {
    var window := s.cache.missAt.value;
    assert s.missStamps[|s.missStamps| - 1] == window;
    if w + lag <= window && window + lag < call.began {
      assert HasStored(s, window);
      var q :| 0 <= q < |s.stores| && s.stores[q].claimed == window;
      assert ExpiredAfter(s, q, call.pc.at);
      var p :| 0 <= q <= p < |s.stores| && s.stores[p].at + s.stores[p].ttl <= call.pc.at;
      assert window <= s.stores[p].at;
    }
  }

  lemma MixedAct(published: History, s: State, id: CallId, act: Act, kid: string, w: Time, lag: Time)
    requires Sound(published, s) && ClaimsArrive(s, lag) && Prompt(s, lag) && MissesAreSpaced(s)
    requires id in s.calls && CanAct(s, s.calls[id].pc, act) && !act.Fail?
    requires PublishesFrom(published, kid, w) && s.calls[id].kid == Some(kid) && w + lag <= s.calls[id].began
    requires ServedOrOverlapped(s, s.calls[id], kid, w + lag, lag)
    ensures
      var e := Do(published, s, id, act);
      ServedOrOverlapped(Perform(s, id, e), s.calls[id].(pc := e.pc), kid, w + lag, lag)
  {
    var call, e := s.calls[id], Do(published, s, id, act);
    var t := Perform(s, id, e);
    assert CallIsSound(s, call);
    if e.pc.Missed? {
      LookupIsExplained(published, s, call.(pc := e.pc), kid, w, lag);
    } else if act.TakeClaim? && e.pc.Done? {
      DenialIsExplained(published, s, call, kid, w, lag);
    } else if act.LastLookup? {
      LateSetHasKey(published, s, kid, w, lag);
    }
  }

  lemma ExplanationStays(s: State, t: State, call: Call, kid: string, from: Time, lag: Time)
    requires Grows(s, t) && (forall m | m in s.missStamps :: m in t.missStamps)
    requires call.began <= s.now && (forall q | |s.stores| <= q < |t.stores| :: s.now <= t.stores[q].at)
    requires ServedOrOverlapped(s, call, kid, from, lag)
    ensures ServedOrOverlapped(t, call, kid, from, lag)
  {
    if call.pc.Missed? || call.pc.Stamped? {
      forall q | 0 <= q < |t.stores| && from <= t.stores[q].at < call.began
        ensures ExpiredAfter(t, q, call.pc.at)
      {
        assert q < |s.stores| && ExpiredAfter(s, q, call.pc.at);
        var p :| 0 <= q <= p < |s.stores| && s.stores[p].at + s.stores[p].ttl <= call.pc.at;
        assert t.stores[p] == s.stores[p];
      }
    }
  }

  lemma LogsGrow(published: History, s: State, t: State, step: Step)
    requires Enabled(s, step) && t == Apply(published, s, step)
    ensures forall m | m in s.missStamps :: m in t.missStamps
    ensures forall q | |s.stores| <= q < |t.stores| :: s.now <= t.stores[q].at
  {
  }

  lemma MixedStep(published: History, s: State, t: State, id: CallId, kid: string, w: Time, lag: Time)
    requires Sound(published, s) && ClaimsArrive(s, lag) && Prompt(s, lag) && MissesAreSpaced(s)
    requires Next(published, s, t) && Prompt(t, lag)
    requires PublishesFrom(published, kid, w)
    requires id in s.calls && s.calls[id].kid == Some(kid) && w + lag <= s.calls[id].began
    requires ServedOrOverlapped(s, s.calls[id], kid, w + lag, lag)
    ensures id in t.calls && ServedOrOverlapped(t, t.calls[id], kid, w + lag, lag)
  {
    var step :| Enabled(s, step) && t == Apply(published, s, step);
    if step.By? && step.id == id {
      assert !Failed(t.calls[id].pc);
      MixedAct(published, s, id, step.act, kid, w, lag);
    } else {
      SoundStep(published, s, t);
      LogsGrow(published, s, t, step);
      assert t.calls[id] == s.calls[id];
      assert s.calls[id].began <= s.now by {
        assert CallIsSound(s, s.calls[id]);
      }
      ExplanationStays(s, t, s.calls[id], kid, w + lag, lag);
    }
  }

  /** The same for every run of both kinds of call whose fetches succeed within `lag`. */
  lemma {:induction false} MixedRotation(published: History, trace: seq<State>, i: nat, id: CallId, kid: string,
                                         w: Time, lag: Time)
    requires Run(published, trace) && i < |trace|
    requires forall j | 0 <= j <= i :: Prompt(trace[j], lag)
    requires PublishesFrom(published, kid, w)
    requires id in trace[i].calls && trace[i].calls[id].kid == Some(kid) && w + lag <= trace[i].calls[id].began
    ensures ServedOrOverlapped(trace[i], trace[i].calls[id], kid, w + lag, lag)
  {
    if i > 0 {
      var s, t := trace[i - 1], trace[i];
      assert Next(published, s, t) && Prompt(s, lag) && Prompt(t, lag);
      CallsKeepTheirOrigin(published, s, t, id);
      if id in s.calls {
        MixedRotation(published, trace, i - 1, id, kid, w, lag);
        RunIsSound(published, trace, i - 1);
        RunClaimsArrive(published, trace, i - 1, lag);
        MissCeiling(published, trace, i - 1);
        MixedStep(published, s, t, id, kid, w, lag);
      }
    }
  }

  /**
   So with a TTL of at least one interval, a call that starts `lag` and one interval after the key was
   published is refused only if it started at most `lag` after the stamp of the window that refuses it.
   */
  lemma MixedRotationBound(published: History, trace: seq<State>, i: nat, id: CallId, kid: string, w: Time, lag: Time)
    requires Run(published, trace) && i < |trace|
    requires forall j | 0 <= j <= i :: Prompt(trace[j], lag)
    requires forall q | 0 <= q < |trace[i].stores| :: trace[i].cache.refetchInterval <= trace[i].stores[q].ttl
    requires PublishesFrom(published, kid, w) && 0.0 <= trace[i].cache.refetchInterval
    requires id in trace[i].calls && trace[i].calls[id].kid == Some(kid)
    requires w + lag + trace[i].cache.refetchInterval <= trace[i].calls[id].began && trace[i].calls[id].pc.Done?
    ensures
      match trace[i].calls[id].pc.outcome
      case Returned(key, _, _) => key.id == Some(kid)
      case Denied(stamp, window) => window in trace[i].missStamps && trace[i].calls[id].began <= window + lag
      case _ => false
  {
    MixedRotation(published, trace, i, id, kid, w, lag);
    RunIsSound(published, trace, i);
    assert CallIsSound(trace[i], trace[i].calls[id]);
  }
}
