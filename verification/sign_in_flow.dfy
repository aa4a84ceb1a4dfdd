/**
 The sign-in round trip: `start` mints a transaction and sends the browser away, `callback` turns
 what comes back into a session.  The application's views and the admin's are the two doors; both
 sign their cookies alike, so either may be shown a cookie that the other one issued.
 */
module SignInFlow {
  import opened Options

  type Time = int
  type Secret = string
  type Code = nat
  type ClaimSet = map<string, string>

  datatype Door = App | Admin

  /** One sign-in's secrets and destination, which the browser carries for the server. */
  datatype Transaction = Transaction(state: Secret, verifier: Secret, nonce: Secret, next: string)

  /** What the authorization URL says; `client` is the door's own OAuth client. */
  datatype Request = Request(client: Door, state: Secret, nonce: Secret, challenge: string)

  datatype Flow = Flow(door: Door, txn: Transaction, mintedAt: Time)

  /** The issuer's record of a code: the request it was given on, and for whom. */
  datatype Grant = Grant(request: Request, sub: string, email: string, used: bool)

  datatype Established = Established(door: Door, flow: nat, code: Code, sub: string, location: string, at: Time)

  datatype State = State(
    now: Time,
    minted: seq<Flow>,
    grants: map<Code, Grant>,
    sessions: seq<Established>)

  /** `digest` is the S256 challenge of a verifier. */
  datatype Config = Config(digest: Secret -> string, maxAge: Time)

  /** A cookie value as the server can tell values apart: only its own signature is accepted. */
  datatype Cookie = Absent | Forged | Signed(flow: nat)

  datatype Reply = Reachable | Unreachable | WithoutIdToken | BadSignature

  /** One request to a callback, with what the issuer and the project's accounts will answer. */
  datatype Visit = Visit(
    door: Door,
    error: string,
    cookie: Cookie,
    state: Secret,
    code: Code,
    reply: Reply,
    userinfo: Option<ClaimSet>,
    hasAccount: bool)

  datatype Failure = Denied | Expired | IssuerError | ExchangeFailed | AccountNotFound

  /** `clears`: the transaction cookie is deleted by this response. */
  datatype Response =
    | SignedIn(location: string, sub: string, clears: bool)
    | Failed(failure: Failure, clears: bool)

  function RequestOf(cfg: Config, f: Flow): Request {
    Request(f.door, f.txn.state, f.txn.nonce, cfg.digest(f.txn.verifier))
  }

  // ---- the issuer, as the standards bind it ----

  /** The code is for this client, unused, and its challenge is the verifier's digest. */
  predicate Exchanges(cfg: Config, s: State, client: Door, code: Code, verifier: Secret) {
    && code in s.grants && !s.grants[code].used
    && s.grants[code].request.client == client
    && s.grants[code].request.challenge == cfg.digest(verifier)
  }

  function IdToken(g: Grant): ClaimSet {
    var base := map["sub" := g.sub, "nonce" := g.request.nonce];
    if g.email == "" then base else base["email" := g.email]
  }

  function Spend(s: State, code: Code): State {
    if code in s.grants then s.(grants := s.grants[code := s.grants[code].(used := true)]) else s
  }

  // ---- the views ----

  /** `transaction.read`. */
  function ReadTxn(cfg: Config, s: State, cookie: Cookie): Option<Transaction> {
    if cookie.Signed? && cookie.flow < |s.minted| && s.now - s.minted[cookie.flow].mintedAt <= cfg.maxAge
    then Some(s.minted[cookie.flow].txn) else None
  }

  function Claim(claims: ClaimSet, name: string): string {
    if name in claims then claims[name] else ""
  }

  /** Only the session view asks for userinfo, and only if the token has no email; a claim the token makes is kept. */
  function Merged(token: ClaimSet, userinfo: Option<ClaimSet>): ClaimSet {
    if Claim(token, "email") == "" && userinfo.Some? then userinfo.value + token else token
  }

  /** Only the session views delete the cookie when they refuse; the admin raises. */
  function Refusal(door: Door, failure: Failure): Response {
    Failed(failure, door.App?)
  }

  function Callback(cfg: Config, s: State, v: Visit): (State, Response) {
    if v.error != "" then
      (s, Refusal(v.door, if v.error == "access_denied" then Denied else IssuerError))
    else
      var txn := ReadTxn(cfg, s, v.cookie);
      if txn.None? || v.state != txn.value.state then (s, Refusal(v.door, Expired))
      else if v.reply.Unreachable? then (s, Refusal(v.door, IssuerError))
      else if !Exchanges(cfg, s, v.door, v.code, txn.value.verifier) then (s, Refusal(v.door, ExchangeFailed))
      else
        var token := IdToken(s.grants[v.code]);
        var spent := Spend(s, v.code);
        if v.reply.WithoutIdToken? || v.reply.BadSignature? || token["nonce"] != txn.value.nonce then
          (spent, Refusal(v.door, IssuerError))
        else if !v.hasAccount then (spent, Refusal(v.door, AccountNotFound))
        else
          var sub := Claim(Merged(token, if v.door.App? then v.userinfo else None), "sub");
          (spent.(sessions := s.sessions + [Established(v.door, v.cookie.flow, v.code, sub, txn.value.next, s.now)]),
           SignedIn(txn.value.next, sub, true))
  }

  // ---- the system ----

  datatype Event =
    | Tick(to: Time)
    | Start(door: Door, txn: Transaction)
    | Authorize(request: Request, sub: string, email: string, code: Code)
    | Burn(code: Code)
    | Visits(v: Visit)

  /** A minted verifier is fresh.  The request the issuer is shown may be anything at all. */
  ghost predicate Enabled(s: State, e: Event) {
    match e
    case Tick(to) => s.now <= to
    case Start(_, txn) => forall i | 0 <= i < |s.minted| :: s.minted[i].txn.verifier != txn.verifier
    case Authorize(_, _, _, code) => code !in s.grants
    case Burn(_) => true
    case Visits(_) => true
  }

  ghost function Apply(cfg: Config, s: State, e: Event): State {
    match e
    case Tick(to) => s.(now := to)
    case Start(door, txn) => s.(minted := s.minted + [Flow(door, txn, s.now)])
    case Authorize(request, sub, email, code) => s.(grants := s.grants[code := Grant(request, sub, email, false)])
    case Burn(code) => Spend(s, code)
    case Visits(v) => Callback(cfg, s, v).0
  }

  ghost predicate Next(cfg: Config, s: State, t: State) {
    exists e :: Enabled(s, e) && t == Apply(cfg, s, e)
  }

  ghost predicate Run(cfg: Config, trace: seq<State>) {
    && trace != [] && trace[0] == State(trace[0].now, [], map[], [])
    && forall i | 0 < i < |trace| :: Next(cfg, trace[i - 1], trace[i])
  }

  // ---- agreement ----

  /** No two verifiers minted so far have one digest, unless the nonces minted with them differ. */
  ghost predicate ToldApart(cfg: Config, s: State) {
    forall i, j | 0 <= i < |s.minted| && 0 <= j < |s.minted|
      && s.minted[i].txn.nonce == s.minted[j].txn.nonce
      && cfg.digest(s.minted[i].txn.verifier) == cfg.digest(s.minted[j].txn.verifier) ::
      s.minted[i].txn.verifier == s.minted[j].txn.verifier
  }

  /** A session, and the one flow and the one code it came from. */
  ghost predicate Agrees(cfg: Config, s: State, e: Established) {
    && e.flow < |s.minted| && e.code in s.grants
    && var f, g := s.minted[e.flow], s.grants[e.code];
       && g.used && g.sub == e.sub && g.request.client == e.door
       && g.request.nonce == f.txn.nonce
       && g.request.challenge == RequestOf(cfg, f).challenge
       && e.location == f.txn.next
       && e.at <= s.now && e.at - f.mintedAt <= cfg.maxAge
  }

  ghost predicate Agreement(cfg: Config, s: State) {
    && (forall k | 0 <= k < |s.sessions| :: Agrees(cfg, s, s.sessions[k]))
    && (forall j, k | 0 <= j < k < |s.sessions| :: s.sessions[j].code != s.sessions[k].code)
    && (forall i, j | 0 <= i < j < |s.minted| :: s.minted[i].txn.verifier != s.minted[j].txn.verifier)
  }

  ghost predicate Extends(s: State, t: State) {
    && s.now <= t.now
    && |s.minted| <= |t.minted| && (forall i | 0 <= i < |s.minted| :: t.minted[i] == s.minted[i])
    && forall c | c in s.grants && s.grants[c].used :: c in t.grants && t.grants[c] == s.grants[c]
  }

  lemma VisitAgrees(cfg: Config, s: State, v: Visit)
    requires Agreement(cfg, s)
    ensures Agreement(cfg, Callback(cfg, s, v).0)
  {
    var t := Callback(cfg, s, v).0;
    assert Extends(s, t);
    forall k | 0 <= k < |t.sessions|
      ensures Agrees(cfg, t, t.sessions[k])
    {
      if k < |s.sessions| {
        assert Agrees(cfg, s, s.sessions[k]) && t.sessions[k] == s.sessions[k];
      }
    }
    if |t.sessions| > |s.sessions| {
      forall j | 0 <= j < |s.sessions|
        ensures s.sessions[j].code != v.code
      {
        assert Agrees(cfg, s, s.sessions[j]);
      }
    }
  }

  lemma StepAgrees(cfg: Config, s: State, t: State)
    requires Agreement(cfg, s) && Next(cfg, s, t)
    ensures Agreement(cfg, t)
  {
    var e :| Enabled(s, e) && t == Apply(cfg, s, e);
    if e.Visits? {
      VisitAgrees(cfg, s, e.v);
    } else {
      forall k | 0 <= k < |t.sessions|
        ensures Agrees(cfg, t, t.sessions[k])
      {
        assert Agrees(cfg, s, s.sessions[k]);
      }
    }
  }

  /**
   Agreement, for every interleaving of flows, doors and browsers, even if cookies, states and codes
   are shown by anybody and the issuer is shown requests nobody minted: each session is for the
   person the issuer gave that very code for, on a request with that very flow's challenge and nonce;
   it leads to that flow's destination, in time; and no two sessions were bought with one code.
   */
  lemma {:induction false} RoundTripAgreement(cfg: Config, trace: seq<State>, i: nat)
    requires Run(cfg, trace) && i < |trace|
    ensures Agreement(cfg, trace[i])
  {
    if i > 0 {
      RoundTripAgreement(cfg, trace, i - 1);
      StepAgrees(cfg, trace[i - 1], trace[i]);
    }
  }

  /** Only requests that a `start` minted reach the issuer. */
  ghost predicate BrowsersAreHonest(cfg: Config, s: State) {
    forall c | c in s.grants :: exists i :: 0 <= i < |s.minted| && s.grants[c].request == RequestOf(cfg, s.minted[i])
  }

  /** Then the issuer authenticated the person on the very request of the flow whose cookie was shown. */
  lemma HonestAgreement(cfg: Config, trace: seq<State>, i: nat, k: nat)
    requires Run(cfg, trace) && i < |trace| && k < |trace[i].sessions|
    requires ToldApart(cfg, trace[i]) && BrowsersAreHonest(cfg, trace[i])
    ensures
      var s := trace[i];
      var e := s.sessions[k];
      && e.flow < |s.minted| && e.code in s.grants
      && s.grants[e.code].request == Request(e.door, s.minted[e.flow].txn.state, s.minted[e.flow].txn.nonce,
                                             cfg.digest(s.minted[e.flow].txn.verifier))
      && s.grants[e.code].sub == e.sub && s.minted[e.flow].door == e.door
  {
    RoundTripAgreement(cfg, trace, i);
    var s := trace[i];
    var e := s.sessions[k];
    assert Agrees(cfg, s, e);
    var j :| 0 <= j < |s.minted| && s.grants[e.code].request == RequestOf(cfg, s.minted[j]);
    assert s.minted[j].txn.verifier == s.minted[e.flow].txn.verifier;
  }

  /** The other direction: an undisturbed trip ends in a session exactly if the cookie is still young enough. */
  lemma HonestTripCompletes(cfg: Config, s: State, door: Door, txn: Transaction, sub: string, email: string,
                            code: Code, userinfo: Option<ClaimSet>, later: Time)
    requires code !in s.grants && s.now <= later
    ensures
      var started := Apply(cfg, s, Start(door, txn));
      var flow := started.minted[|s.minted|];
      var authorized := Apply(cfg, started, Authorize(RequestOf(cfg, flow), sub, email, code));
      var back := Apply(cfg, authorized, Tick(later));
      var (end, response) := Callback(cfg, back,
        Visit(door, "", Signed(|s.minted|), txn.state, code, Reachable, userinfo, true));
      if later - s.now <= cfg.maxAge then
        && response == SignedIn(txn.next, sub, true)
        && end.sessions == s.sessions + [Established(door, |s.minted|, code, sub, txn.next, later)]
      else response == Failed(Expired, door == App) && end.sessions == s.sessions
  {
  }

  /** Whatever the application's callback answers, the transaction cookie is gone with it. */
  lemma EveryAnswerClears(cfg: Config, s: State, v: Visit)
    ensures Callback(cfg, s, v).1.clears <==> v.door.App? || Callback(cfg, s, v).1.SignedIn?
    ensures Callback(cfg, s, v).1.SignedIn? <==> Callback(cfg, s, v).0.sessions != s.sessions
  {
    var t := Callback(cfg, s, v).0;
    assert |t.sessions| == |s.sessions| + if Callback(cfg, s, v).1.SignedIn? then 1 else 0;
  }

  /** What a browser still carries after an answer. */
  function Carried(cookie: Cookie, response: Response): Cookie {
    if response.clears then Absent else cookie
  }

  /**
   So going back to a callback that was answered signs nobody in, whatever else is different by then:
   only after a refusal by the admin, which leaves its cookie, can another visit still succeed.
   */
  lemma AnsweredOnce(cfg: Config, s: State, v: Visit, later: State, again: Visit)
    requires again.door == v.door && again.cookie == Carried(v.cookie, Callback(cfg, s, v).1)
    ensures Callback(cfg, later, again).1.SignedIn? ==> v.door.Admin? && Callback(cfg, s, v).1.Failed?
    ensures v.door.App? ==> Callback(cfg, later, again).0 == later
  {
    EveryAnswerClears(cfg, s, v);
  }

  // ---- every answer, by its own condition ----

  /** The cookie is one the server signed, for a flow that is young enough. */
  ghost predicate ShowsFlow(cfg: Config, s: State, v: Visit) {
    v.cookie.Signed? && v.cookie.flow < |s.minted| && s.now <= s.minted[v.cookie.flow].mintedAt + cfg.maxAge
  }

  /** No error came back, and the state that did is the flow's own. */
  ghost predicate IsReturn(cfg: Config, s: State, v: Visit) {
    v.error == "" && ShowsFlow(cfg, s, v) && v.state == s.minted[v.cookie.flow].txn.state
  }

  /** The code is known, unused, of this door's client, and bound to the digest of the flow's verifier. */
  ghost predicate CodeIsGood(cfg: Config, s: State, v: Visit)
    requires IsReturn(cfg, s, v)
  {
    && v.code in s.grants && !s.grants[v.code].used && s.grants[v.code].request.client == v.door
    && s.grants[v.code].request.challenge == cfg.digest(s.minted[v.cookie.flow].txn.verifier)
  }

  ghost predicate TokenIsGood(cfg: Config, s: State, v: Visit)
    requires IsReturn(cfg, s, v) && CodeIsGood(cfg, s, v)
  {
    v.reply == Reachable && s.grants[v.code].request.nonce == s.minted[v.cookie.flow].txn.nonce
  }

  lemma SignsInExactly(cfg: Config, s: State, v: Visit)
    ensures Callback(cfg, s, v).1.SignedIn? <==>
      IsReturn(cfg, s, v) && CodeIsGood(cfg, s, v) && TokenIsGood(cfg, s, v) && v.hasAccount
  {
  }

  /** Which word each refusal is given. */
  lemma RefusesExactly(cfg: Config, s: State, v: Visit, failure: Failure)
    ensures Callback(cfg, s, v).1 == Failed(failure, v.door == App) <==>
      match failure
      case Denied => v.error == "access_denied"
      case Expired => v.error == "" && !IsReturn(cfg, s, v)
      case ExchangeFailed => IsReturn(cfg, s, v) && v.reply != Unreachable && !CodeIsGood(cfg, s, v)
      case AccountNotFound =>
        IsReturn(cfg, s, v) && CodeIsGood(cfg, s, v) && TokenIsGood(cfg, s, v) && !v.hasAccount
      case IssuerError =>
        || (v.error != "" && v.error != "access_denied")
        || (IsReturn(cfg, s, v) && v.reply == Unreachable)
        || (IsReturn(cfg, s, v) && CodeIsGood(cfg, s, v) && !TokenIsGood(cfg, s, v))
  {
  }

  /** What a visit leaves behind: a code that reached the issuer is spent, and only a sign-in adds a session. */
  lemma CallbackLeaves(cfg: Config, s: State, v: Visit)
    ensures
      var (t, response) := Callback(cfg, s, v);
      && t.now == s.now && t.minted == s.minted
      && t.grants == (if IsReturn(cfg, s, v) && v.reply != Unreachable && CodeIsGood(cfg, s, v)
                      then s.grants[v.code := s.grants[v.code].(used := true)] else s.grants)
      && (response.Failed? ==> t.sessions == s.sessions)
      && (response.SignedIn? ==>
            ShowsFlow(cfg, s, v) && v.code in s.grants
            && var f, sub := s.minted[v.cookie.flow], s.grants[v.code].sub;
               && response == SignedIn(f.txn.next, sub, true)
               && t.sessions == s.sessions + [Established(v.door, v.cookie.flow, v.code, sub, f.txn.next, s.now)])
  {
  }

  /** The claims an account is looked up by: userinfo adds to a token that has no email, and overrides none of it. */
  lemma TokenWins(g: Grant, userinfo: Option<ClaimSet>, name: string)
    ensures
      var claims := Merged(IdToken(g), userinfo);
      Claim(claims, name) ==
        if name == "sub" then g.sub
        else if name == "nonce" then g.request.nonce
        else if name == "email" && g.email != "" then g.email
        else if g.email == "" && userinfo.Some? && name in userinfo.value then userinfo.value[name]
        else ""
  {
  }
}
