/**
 The issuer's discovery document: one check that decides whose it is, and a cache keyed by issuer.

 The cache's only writes are the puts of accepted documents, so a history of lookups and of answers
 that arrived, in the order they reached the cache, is all there is to any interleaving of calls.
 */
module Discovery {
  import opened Options
  import opened Text
  import Jwks

  type Time = Jwks.Time

  datatype Value = Str(text: string) | NotText

  datatype Payload = Object(fields: map<string, Value>) | NotObject

  datatype Document = Document(issuer: string, claims: map<string, Value>)

  function Normal(issuer: string): string {
    RStrip(issuer, '/')
  }

  predicate HasText(fields: map<string, Value>, name: string) {
    name in fields && fields[name].Str? && fields[name].text != ""
  }

  predicate HasEndpoints(fields: map<string, Value>) {
    HasText(fields, "authorization_endpoint") && HasText(fields, "token_endpoint") && HasText(fields, "jwks_uri")
  }

  function Parse(payload: Payload, issuer: string): Option<Document> {
    if payload.NotObject? then None
    else
      var fields := payload.fields;
      if "issuer" !in fields || fields["issuer"].NotText? || Normal(fields["issuer"].text) != Normal(issuer) then None
      else if !HasEndpoints(fields) then None
      else Some(Document(Normal(issuer), fields))
  }

  /** A document that may be used for an issuer: it names that issuer, and a flow can start from it. */
  ghost predicate Speaks(document: Document, issuer: string) {
    && document.issuer == Normal(issuer)
    && "issuer" in document.claims && document.claims["issuer"].Str?
    && Normal(document.claims["issuer"].text) == Normal(issuer)
    && HasEndpoints(document.claims)
  }

  lemma ParsedSpeaks(payload: Payload, issuer: string)
    ensures Parse(payload, issuer).Some? ==> Speaks(Parse(payload, issuer).value, issuer)
    ensures Parse(payload, issuer) == Parse(payload, Normal(issuer))
  {
    RStripTwice(issuer, '/');
  }

  ghost predicate IsSomeText(fields: map<string, Value>, name: string) {
    name in fields && exists text :: text != "" && fields[name] == Str(text)
  }

  /**
   A document is accepted exactly if it is an object that names the issuer, trailing slashes apart, and
   has text for each endpoint; its claims are then the payload's own, every one of them.
   */
  lemma ParseAccepts(payload: Payload, issuer: string)
    ensures Parse(payload, issuer).Some? <==>
      && payload.Object?
      && "issuer" in payload.fields && payload.fields["issuer"].Str?
      && RStrip(payload.fields["issuer"].text, '/') == RStrip(issuer, '/')
      && IsSomeText(payload.fields, "authorization_endpoint")
      && IsSomeText(payload.fields, "token_endpoint")
      && IsSomeText(payload.fields, "jwks_uri")
    ensures Parse(payload, issuer).Some? ==>
      Parse(payload, issuer).value == Document(RStrip(issuer, '/'), payload.fields)
  {
  }

  // ---- the cache ----

  datatype Entry = Entry(document: Document, expiresAt: Time)

  type Entries = map<string, Entry>

  function Get(entries: Entries, key: string, now: Time): Option<Document> {
    if key in entries && now < entries[key].expiresAt then Some(entries[key].document) else None
  }

  /** `answer` is None for a request that failed or was not answered with JSON. */
  datatype Event =
    | LookedUp(issuer: string, at: Time)
    | Answered(issuer: string, answer: Option<Payload>, ttl: Time, at: Time)
    | Cleared

  function Accepted(e: Event): Option<Document> {
    if e.Answered? && e.answer.Some? then Parse(e.answer.value, Normal(e.issuer)) else None
  }

  function Do(entries: Entries, e: Event): Entries {
    if e.Cleared? then map[]
    else if Accepted(e).Some? then entries[Normal(e.issuer) := Entry(Accepted(e).value, e.at + e.ttl)]
    else entries
  }

  function After(events: seq<Event>): Entries {
    if events == [] then map[] else Do(After(events[..|events| - 1]), events[|events| - 1])
  }

  /** What the history alone says is cached for a key: its last accepted answer, unless cleared since. */
  function LastPut(events: seq<Event>, key: string): Option<nat> {
    if events == [] then None
    else
      var last := events[|events| - 1];
      if last.Cleared? then None
      else if Accepted(last).Some? && Normal(last.issuer) == key then Some(|events| - 1)
      else LastPut(events[..|events| - 1], key)
  }

  function At(entries: Entries, key: string): Option<Entry> {
    if key in entries then Some(entries[key]) else None
  }

  /** The entry an accepted answer makes. */
  function PutBy(e: Event): Option<Entry> {
    match Accepted(e)
    case Some(document) => Some(Entry(document, e.at + e.ttl))
    case None => None
  }

  lemma DoAt(entries: Entries, e: Event, key: string)
    ensures At(Do(entries, e), key) ==
      (if e.Cleared? then None
       else if Accepted(e).Some? && Normal(e.issuer) == key then PutBy(e)
       else At(entries, key))
  {
  }

  /** The cache and the history agree on every key. */
  lemma {:induction false} CacheIsLastPut(events: seq<Event>, key: string)
    ensures
      match LastPut(events, key)
      case None => At(After(events), key) == None
      case Some(put) =>
        && put < |events| && events[put].Answered? && Normal(events[put].issuer) == key
        && PutBy(events[put]).Some? && At(After(events), key) == PutBy(events[put])
  {
    if events != [] {
      CacheIsLastPut(events[..|events| - 1], key);
      DoAt(After(events[..|events| - 1]), events[|events| - 1], key);
    }
  }

  /**
   Soundness, over every history of forced, cached, failing and clearing calls for any issuers: a hit
   names the issuer that was asked for, has the endpoints a flow needs, and is younger than the TTL of
   the very put it comes from, the last one accepted for that issuer.
   */
  lemma HitIsSound(events: seq<Event>, issuer: string, now: Time) returns (put: nat)
    requires Get(After(events), Normal(issuer), now).Some?
    ensures put < |events| && LastPut(events, Normal(issuer)) == Some(put)
    ensures events[put].Answered? && Accepted(events[put]) == Get(After(events), Normal(issuer), now)
    ensures now < events[put].at + events[put].ttl
    ensures Speaks(Get(After(events), Normal(issuer), now).value, issuer)
  {
    CacheIsLastPut(events, Normal(issuer));
    put := LastPut(events, Normal(issuer)).value;
    ParsedSpeaks(events[put].answer.value, Normal(events[put].issuer));
    RStripTwice(issuer, '/');
  }

  /** And completeness: a lookup answers with the last accepted document for as long as that is young enough. */
  lemma LookupIsLastPut(events: seq<Event>, issuer: string, now: Time)
    ensures Get(After(events), Normal(issuer), now) ==
      match LastPut(events, Normal(issuer))
      case Some(put) =>
        if put < |events| && events[put].Answered? && now < events[put].at + events[put].ttl
        then Accepted(events[put]) else None
      case None => None
  {
    CacheIsLastPut(events, Normal(issuer));
  }

  lemma AfterOneMore(events: seq<Event>, e: Event)
    ensures After(events + [e]) == Do(After(events), e)
  {
    assert (events + [e])[..|events|] == events;
  }

  /** A lookup, or an answer that is refused, changes no entry; an accepted one is what the next lookup gets. */
  lemma OnlyAcceptedAnswersWrite(events: seq<Event>, e: Event)
    requires !e.Cleared?
    ensures Accepted(e).None? ==> After(events + [e]) == After(events)
    ensures Accepted(e).Some? ==>
      Get(After(events + [e]), Normal(e.issuer), e.at) == (if 0.0 < e.ttl then Accepted(e) else None)
  {
    AfterOneMore(events, e);
  }

  predicate Concerns(e: Event, key: string) {
    e.Cleared? || Normal(e.issuer) == key
  }

  /** The events that concern one issuer. */
  function For(events: seq<Event>, key: string): seq<Event> {
    if events == [] then []
    else
      var earlier, last := For(events[..|events| - 1], key), events[|events| - 1];
      if Concerns(last, key) then earlier + [last] else earlier
  }

  ghost predicate SameAt(a: Entries, b: Entries, key: string) {
    (key in a <==> key in b) && (key in a ==> a[key] == b[key])
  }

  lemma DoKeepsSame(a: Entries, b: Entries, e: Event, key: string)
    requires SameAt(a, b, key)
    ensures SameAt(Do(a, e), Do(b, e), key)
    ensures !Concerns(e, key) ==> SameAt(Do(a, e), b, key)
  {
  }

  lemma {:induction false} OtherIssuersLeaveSame(events: seq<Event>, key: string)
    ensures SameAt(After(events), After(For(events, key)), key)
  {
    if events != [] {
      var front, last := events[..|events| - 1], events[|events| - 1];
      OtherIssuersLeaveSame(front, key);
      DoKeepsSame(After(front), After(For(front, key)), last, key);
      if Concerns(last, key) {
        AfterOneMore(For(front, key), last);
      }
    }
  }

  /** Calls for other issuers never change this issuer's answer: striking them out changes nothing. */
  lemma IssuersDoNotInterfere(events: seq<Event>, key: string, now: Time)
    ensures Get(After(events), key, now) == Get(After(For(events, key)), key, now)
  {
    OtherIssuersLeaveSame(events, key);
  }

  // ---- the cache in place ----

  class DocumentCache {
    var entries: Entries

    constructor ()
      ensures entries == map[]
    {
      entries := map[];
    }

    method Lookup(key: string, clock: Jwks.Clock) returns (found: Option<Document>)
      modifies clock
      ensures old(clock.now) <= clock.now && found == Get(entries, key, clock.now)
    {
      if key !in entries {
        var _ := clock.Read();
        return None;
      }
      var entry := entries[key];
      var now := clock.Read();
      found := if now < entry.expiresAt then Some(entry.document) else None;
    }

    method Clear()
      modifies this
      ensures entries == Do(old(entries), Cleared)
    {
      entries := map[];
    }

    /** `answer` is what the issuer would say; it is asked only when `fetched`. */
    method Discover(issuer: string, ttl: Time, force: bool, answer: Option<Payload>, clock: Jwks.Clock)
      returns (document: Option<Document>, fetched: bool)
      modifies this, clock
      ensures old(clock.now) <= clock.now
      ensures force ==> fetched
      ensures !force && Get(old(entries), Normal(issuer), clock.now).Some? ==> !fetched
      ensures !fetched ==>
        && entries == old(entries)
        && document.Some?
        && document == Get(old(entries), Normal(issuer), clock.now)
      ensures fetched ==>
        && entries == Do(old(entries), Answered(issuer, answer, ttl, clock.now))
        && document == Accepted(Answered(issuer, answer, ttl, clock.now))
    {
      var key := RStrip(issuer, '/');
      if !force {
        document := Lookup(key, clock);
        if document.Some? {
          return document, false;
        }
      }
      fetched := true;
      if answer.None? {
        return None, true;
      }
      document := Parse(answer.value, key);
      if document.None? {
        return None, true;
      }
      var now := clock.Read();
      entries := entries[key := Entry(document.value, now + ttl)];
    }
  }
}
