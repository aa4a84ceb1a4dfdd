/** The views that start and finish a sign-in, acting step by step on the site's state. */
module Views {
  import opened Options
  import opened Redirects
  import opened SignInFlow

  class SignInViews {
    const cfg: Config
    const base: string             // GRANTOR_FRONTEND_BASE_URL
    const allowed: string -> bool  // Django's check of a destination against the request's host
    const home: string             // GRANTOR_LOGIN_REDIRECT_URL
    var now: Time
    var minted: seq<Flow>
    var grants: map<Code, Grant>
    var sessions: seq<Established>

    function Snapshot(): State
      reads this
    {
      State(now, minted, grants, sessions)
    }

    constructor (cfg: Config, base: string, allowed: string -> bool, home: string, now: Time)
      ensures this.cfg == cfg && this.base == base && this.allowed == allowed && this.home == home
      ensures Snapshot() == State(now, [], map[], [])
    {
      this.cfg, this.base, this.allowed, this.home, this.now := cfg, base, allowed, home, now;
      minted, grants, sessions := [], map[], [];
    }

    /** Where each door sends a person who asked for `raw`; `home` stands for the admin's index, too. */
    function Destination(door: Door, raw: Option<string>): string {
      if door.App? then SafeNext(base, allowed, raw, home) else RelativePathOnly(raw, home)
    }

    /**
     Mints a transaction, which the browser is given signed, and the request for the issuer.  When the
     issuer cannot be reached nothing is minted, and the browser gets neither.
     */
    method Begin(door: Door, state: Secret, verifier: Secret, nonce: Secret, raw: Option<string>, reachable: bool)
      returns (sentTo: Option<Request>, cookie: Cookie)
      modifies this`minted
      ensures
        var txn := Transaction(state, verifier, nonce, Destination(door, raw));
        if reachable then
          && Snapshot() == Apply(cfg, old(Snapshot()), Start(door, txn))
          && Snapshot() == old(Snapshot()).(minted := old(minted) + [Flow(door, txn, now)])
          && sentTo == Some(Request(door, state, nonce, cfg.digest(verifier)))
          && ReadTxn(cfg, Snapshot(), cookie) == (if cfg.maxAge < 0 then None else Some(txn))
        else Snapshot() == old(Snapshot()) && sentTo.None? && ReadTxn(cfg, Snapshot(), cookie).None?
    {
      var next := if door.App? then SafeNext(base, allowed, raw, home) else RelativePathOnly(raw, home);
      if !reachable {
        return None, Absent;
      }
      sentTo := Some(Request(door, state, nonce, cfg.digest(verifier)));
      cookie := Signed(|minted|);
      minted := minted + [Flow(door, Transaction(state, verifier, nonce, next), now)];
    }

    method ExchangeCode(client: Door, code: Code, verifier: Secret) returns (token: Option<ClaimSet>)
      modifies this`grants
      ensures token.Some? <==> Exchanges(cfg, old(Snapshot()), client, code, verifier)
      ensures token.Some? ==> Snapshot() == Spend(old(Snapshot()), code) && token.value == IdToken(old(grants)[code])
      ensures token.None? ==> grants == old(grants)
    {
      if !Exchanges(cfg, Snapshot(), client, code, verifier) {
        return None;
      }
      token := Some(IdToken(grants[code]));
      grants := grants[code := grants[code].(used := true)];
    }

    method Finish(v: Visit) returns (response: Response)
      modifies this`grants, this`sessions
      ensures (Snapshot(), response) == Callback(cfg, old(Snapshot()), v)
    {
      if v.error == "access_denied" {
        return Refusal(v.door, Denied);
      } else if v.error != "" {
        return Refusal(v.door, IssuerError);
      }
      var txn := ReadTxn(cfg, Snapshot(), v.cookie);
      if txn.None? {
        return Refusal(v.door, Expired);
      }
      if v.state != txn.value.state {
        return Refusal(v.door, Expired);
      }
      if v.reply.Unreachable? {
        return Refusal(v.door, IssuerError);
      }
      var token := ExchangeCode(v.door, v.code, txn.value.verifier);
      if token.None? {
        return Refusal(v.door, ExchangeFailed);
      }
      if v.reply.WithoutIdToken? || v.reply.BadSignature? || Claim(token.value, "nonce") != txn.value.nonce {
        return Refusal(v.door, IssuerError);
      }
      var claims := token.value;
      if v.door.App? && Claim(claims, "email") == "" && v.userinfo.Some? {
        claims := v.userinfo.value + claims;
      }
      if !v.hasAccount {
        return Refusal(v.door, AccountNotFound);
      }
      response := SignedIn(txn.value.next, Claim(claims, "sub"), true);
      sessions := sessions + [Established(v.door, v.cookie.flow, v.code, Claim(claims, "sub"), txn.value.next, now)];
    }
  }
}
