/**
 Where the key cache's promises end: the withdrawal bound cannot be improved, and the rotation bound
 needs both of its conditions, synchronous callers and fetches that succeed.
 */
module JwksLimits {
  import opened Options
  import opened Jwks
  import opened JwksProtocol
  import opened JwksBounds

  lemma Extend(published: History, trace: seq<State>, step: Step) returns (longer: seq<State>)
    requires Run(published, trace) && Enabled(Last(trace), step)
    ensures Run(published, longer) && Last(longer) == Apply(published, Last(trace), step)
  {
    longer := trace + [Apply(published, Last(trace), step)];
    forall i | 0 < i < |longer|
      ensures Next(published, longer[i - 1], longer[i])
    {
      if i == |trace| {
        assert Enabled(longer[i - 1], step);
      } else {
        assert Next(published, trace[i - 1], trace[i]);
      }
    }
  }

  /** From the start of a call to the answer of its fetch, on a set that is empty or does not help. */
  lemma AskIssuer(published: History, trace: seq<State>, id: CallId, kid: string) returns (asked: seq<State>)
    requires Run(published, trace)
    requires var s := Last(trace); id !in s.calls && s.fetchLock.None? && s.cache.keySet.None?
    ensures Run(published, asked)
    ensures
      var s := Last(trace);
      Last(asked) == s.(
        fetchLock := Some(id),
        calls := s.calls[id := Call(Sync, Some(kid), s.now, Fetched(s.now, s.now, s.now))],
        staleStamps := s.staleStamps + [s.now])
  {
    asked := Extend(published, trace, Begin(id, Sync, Some(kid)));
    asked := Extend(published, asked, By(id, FirstLookup));
    asked := Extend(published, asked, By(id, Acquire));
    asked := Extend(published, asked, By(id, SecondLookup));
    asked := Extend(published, asked, By(id, ReadClock));
    asked := Extend(published, asked, By(id, TakeClaim));
    asked := Extend(published, asked, By(id, Send));
    asked := Extend(published, asked, By(id, Receive(Last(trace).now)));
    assert Last(asked).calls == Last(trace).calls[id := Call(Sync, Some(kid), Last(trace).now,
                                                       Fetched(Last(trace).now, Last(trace).now, Last(trace).now))];
  }

  function GoneFrom(key: Key, w: Time): History {
    (t: Time) => if t < w then [key] else []
  }

  /** A run in which a call that starts at `start` is returned the withdrawn key, within both bounds. */
  ghost predicate ReturnedAt(published: History, trace: seq<State>, id: CallId, key: Key, w: Time, lag: Time, ttl: Time,
                             start: Time)
  {
    && Run(published, trace) && StoresWithin(Last(trace), lag, ttl)
    && (forall t: Time | w <= t :: key !in published(t))
    && id in Last(trace).calls && Last(trace).calls[id].began == start
    && Last(trace).calls[id].pc.Done? && Last(trace).calls[id].pc.outcome.Returned?
    && Last(trace).calls[id].pc.outcome.key == key
  }

  /** The slowest fetch shows the last instant before the withdrawal, and its set lives out its TTL. */
  lemma ReturnedByHit(key: Key, kid: string, w: Time, lag: Time, ttl: Time, early: Time)
    returns (published: History, trace: seq<State>, id: CallId)
    requires key.id == Some(kid)
    requires 0.0 < early && 0.0 <= lag && 0.0 < ttl
    ensures ReturnedAt(published, trace, id, key, w, lag, ttl, w + lag + ttl - early)
  {
    published := GoneFrom(key, w);
    var asking := w - if early <= ttl then early / 2.0 else early - ttl / 2.0;
    trace := [Start(asking, ttl, 30.0)];
    trace := AskIssuer(published, trace, 1, kid);
    trace := Extend(published, trace, Tick(asking + lag));
    trace := Extend(published, trace, By(1, Put));
    trace := Extend(published, trace, Tick(w + lag + ttl - early));
    id := 2;
    trace := Extend(published, trace, Begin(2, Sync, Some(kid)));
    trace := Extend(published, trace, By(2, FirstLookup));
  }

  /** An asynchronous call from its start to its last lookup, at one instant and on an empty cache. */
  lemma StoreAtOnce(published: History, trace: seq<State>, id: CallId, kid: string) returns (stored: seq<State>)
    requires Run(published, trace)
    requires var s := Last(trace); id !in s.calls && s.cache.keySet.None?
    ensures Run(published, stored)
    ensures
      var s, t := Last(trace), Last(stored);
      && t.now == s.now && id in t.calls && t.calls[id] == Call(Async, Some(kid), s.now, Stored(s.now, s.now))
      && (forall c | c in s.calls :: c in t.calls && t.calls[c] == s.calls[c])
      && t.cache.ttl == s.cache.ttl
      && t.stores == s.stores + [StoreEvent(s.now, s.now, s.now, s.now, s.cache.ttl, published(s.now))]
  {
    stored := Extend(published, trace, Begin(id, Async, Some(kid)));
    stored := Extend(published, stored, By(id, FirstLookup));
    stored := Extend(published, stored, By(id, ReadClock));
    stored := Extend(published, stored, By(id, TakeClaim));
    stored := Extend(published, stored, By(id, Send));
    stored := Extend(published, stored, By(id, Receive(Last(trace).now)));
    stored := Extend(published, stored, By(id, Put));
  }

  /** Where sets expire at once a call may still be overtaken, between its own store and its last lookup. */
  lemma ReturnedByOvertaking(key: Key, kid: string, w: Time, lag: Time, early: Time)
    returns (published: History, trace: seq<State>, id: CallId)
    requires key.id == Some(kid)
    requires 0.0 < early && 0.0 <= lag
    ensures ReturnedAt(published, trace, id, key, w, lag, 0.0, w + lag - early)
  {
    published := GoneFrom(key, w);
    trace := [Start(w - early, 0.0, 30.0)];
    trace := AskIssuer(published, trace, 1, kid);
    trace := Extend(published, trace, Tick(w + lag - early));
    id := 2;
    trace := StoreAtOnce(published, trace, 2, kid);
    trace := Extend(published, trace, By(1, Put));
    trace := Extend(published, trace, By(2, LastLookup));
  }

  /** The withdrawal bound is the best there is: any earlier and a call may still get the key. */
  lemma WithdrawalIsTight(key: Key, kid: string, w: Time, lag: Time, ttl: Time, early: Time)
    returns (published: History, trace: seq<State>, id: CallId)
    requires key.id == Some(kid)
    requires 0.0 < early && 0.0 <= lag && 0.0 <= ttl
    ensures ReturnedAt(published, trace, id, key, w, lag, ttl, w + lag + ttl - early)
  {
    if ttl == 0.0 {
      published, trace, id := ReturnedByOvertaking(key, kid, w, lag, early);
    } else {
      published, trace, id := ReturnedByHit(key, kid, w, lag, ttl, early);
    }
  }

  function NewFrom(oldKey: Key, newKey: Key, w: Time): History {
    (t: Time) => if t < w then [oldKey] else [oldKey, newKey]
  }

  /** A cache that holds the set of an instant before the new key was published. */
  lemma HoldOldSet(oldKey: Key, newKey: Key, kid: string, w: Time) returns (trace: seq<State>)
    requires oldKey.id == Some(kid)
    ensures Run(NewFrom(oldKey, newKey, w), trace)
    ensures
      var s := Last(trace);
      && s.now == w - 1.0 && s.fetchLock.None? && s.calls.Keys == {1}
      && s.calls[1].pc.Stored? && s.calls[1].mode.Sync?
      && s.cache == Cache(Some([oldKey]), w + 3599.0, None, 3600.0, 30.0)
  {
    var published := NewFrom(oldKey, newKey, w);
    trace := [Start(w - 1.0, 3600.0, 30.0)];
    trace := AskIssuer(published, trace, 1, kid);
    trace := Extend(published, trace, By(1, Put));
  }

  /** A fresh set without the key, and nobody at the fetch lock. */
  ghost predicate Lacks(s: State, kid: string) {
    Fresh(s.cache, s.now) && FirstNamed(s.cache.keySet.value, Some(kid)) == None && s.fetchLock.None?
  }

  /** A call that misses a fresh set, up to its claim. */
  lemma MissToClaim(published: History, trace: seq<State>, id: CallId, mode: Mode, kid: string) returns (missed: seq<State>)
    requires Run(published, trace)
    requires id !in Last(trace).calls && Lacks(Last(trace), kid)
    ensures Run(published, missed)
    ensures
      var s := Last(trace);
      Last(missed) == s.(
        fetchLock := if mode.Sync? then Some(id) else None,
        calls := s.calls[id := Call(mode, Some(kid), s.now, Stamped(s.now, s.now))])
  {
    var s := Last(trace);
    missed := Extend(published, trace, Begin(id, mode, Some(kid)));
    missed := Extend(published, missed, By(id, FirstLookup));
    if mode.Sync? {
      missed := Extend(published, missed, By(id, Acquire));
      missed := Extend(published, missed, By(id, SecondLookup));
    }
    missed := Extend(published, missed, By(id, ReadClock));
    assert Last(missed).calls == s.calls[id := Call(mode, Some(kid), s.now, Stamped(s.now, s.now))];
  }

  /** A miss that goes to the issuer and has not come back, or has come back with a failure. */
  lemma OpenWindow(published: History, trace: seq<State>, id: CallId, mode: Mode) returns (shut: seq<State>)
    requires Run(published, trace)
    requires id !in Last(trace).calls && Lacks(Last(trace), "junk") && Last(trace).cache.missAt.None?
    ensures Run(published, shut)
    ensures
      var s, call := Last(trace), Last(shut).calls;
      && id in call && call == s.calls[id := call[id]]
      && call[id].mode == mode && call[id].pc == (if mode.Sync? then Done(FetchError(s.now)) else Fetching(s.now, s.now))
      && Last(shut).now == s.now && Last(shut).fetchLock == None
      && Last(shut).cache == s.cache.(missAt := Some(s.now))
  {
    shut := MissToClaim(published, trace, id, mode, "junk");
    shut := Extend(published, shut, By(id, TakeClaim));
    shut := Extend(published, shut, By(id, Send));
    if mode.Sync? {
      shut := Extend(published, shut, By(id, Fail));
    }
  }

  lemma TurnAway(published: History, trace: seq<State>, id: CallId, mode: Mode, kid: string) returns (refused: seq<State>)
    requires Run(published, trace)
    requires id !in Last(trace).calls && Lacks(Last(trace), kid) && Shut(Last(trace).cache, Last(trace).now)
    ensures Run(published, refused)
    ensures
      var s := Last(trace);
      && Last(refused).cache == s.cache
      && Last(refused).calls
         == s.calls[id := Call(mode, Some(kid), s.now, Done(Denied(s.now, s.cache.missAt.value)))]
  {
    var s := Last(trace);
    refused := MissToClaim(published, trace, id, mode, kid);
    refused := Extend(published, refused, By(id, TakeClaim));
    assert Last(refused).calls
        == s.calls[id := Call(mode, Some(kid), s.now, Done(Denied(s.now, s.cache.missAt.value)))];
  }

  /** A call that names a key published at `w`, starts at `w + waited`, and is turned away. */
  ghost predicate TurnedAwayAfter(published: History, trace: seq<State>, id: CallId, w: Time, waited: Time) {
    && Run(published, trace)
    && PublishesFrom(published, "new", w)
    && Last(trace).cache.refetchInterval == 30.0
    && id in Last(trace).calls
    && Last(trace).calls[id].kid == Some("new")
    && Last(trace).calls[id].began == w + waited
    && Last(trace).calls[id].pc.Done?
    && Last(trace).calls[id].pc.outcome.Denied?
  }

  lemma LateAfterJunk(w: Time, waited: Time, mode: Mode) returns (published: History, trace: seq<State>)
    requires 0.0 <= waited <= 3000.0
    ensures TurnedAwayAfter(published, trace, 3, w, waited)
    ensures Last(trace).calls.Keys == {1, 2, 3}
    ensures Last(trace).calls[1].pc.Stored? && Last(trace).calls[1].mode.Sync?
    ensures Last(trace).calls[2].mode == Last(trace).calls[3].mode == mode
    ensures Last(trace).calls[2].pc ==
      (if mode.Sync? then Done(FetchError(w + waited)) else Fetching(w + waited, w + waited))
  {
    var a, b := Key(Some("old"), 0), Key(Some("new"), 1);
    published := NewFrom(a, b, w);
    forall t: Time | w <= t
      ensures FirstNamed(published(t), Some("new")).Some?
    {
      assert b in published(t);
    }
    trace := HoldOldSet(a, b, "old", w);
    trace := Extend(published, trace, Tick(w + waited));
    trace := OpenWindow(published, trace, 2, mode);
    trace := TurnAway(published, trace, 3, mode, "new");
  }

  /**
   Asynchronous callers are not covered by the rotation bound, even if every fetch succeeds: a key
   published for any length of time is refused while the fetch of another miss, whose window is
   shared, is still on its way.
   */
  lemma AsyncRotationCanBeLate(w: Time, waited: Time) returns (published: History, trace: seq<State>)
    requires 0.0 <= waited <= 3000.0
    ensures TurnedAwayAfter(published, trace, 3, w, waited)
    ensures forall c | c in Last(trace).calls :: !Failed(Last(trace).calls[c].pc)
  {
    published, trace := LateAfterJunk(w, waited, Async);
  }

  /** Nor are synchronous callers among which a fetch failed: the failure has used up the window. */
  lemma FailedFetchShutsTheWindow(w: Time, waited: Time) returns (published: History, trace: seq<State>)
    requires 0.0 <= waited <= 3000.0
    ensures TurnedAwayAfter(published, trace, 3, w, waited)
    ensures forall c | c in Last(trace).calls :: Last(trace).calls[c].mode.Sync?
  {
    published, trace := LateAfterJunk(w, waited, Sync);
  }
}
