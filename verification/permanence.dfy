/** Who a subject belongs to, over every run of the site: links are permanent, single, and spent once. */
module Permanence {
  import opened Options
  import opened Accounts
  import opened SignIns
  import opened SubjectRoutes
  import opened Site

  /** Once a row carries a subject it carries that subject, and only live row to do so, ever after. */
  lemma LinkIsPermanent(cfg: Config, trace: seq<State>, i: nat, j: nat, pk: Pk)
    requires Run(cfg, trace) && i <= j < |trace|
    requires pk in trace[i].db.rows && !IsBlank(trace[i].db.rows[pk].sub)
    ensures pk in trace[j].db.rows && trace[j].db.rows[pk] == trace[i].db.rows[pk]
    ensures forall other | other in trace[j].db.rows && other != pk && trace[i].db.rows[pk].live
              && trace[j].db.rows[other].live :: trace[j].db.rows[other].sub != trace[i].db.rows[pk].sub
  {
    RunKeeps(cfg, trace, i, j);
  }

  lemma HidingIsKept(cfg: Config, s: Db, t: Db)
    requires Valid(cfg, s) && Valid(cfg, t) && Keeps(cfg, s, t) && HidesWhatManagerHides(cfg, s)
    requires !cfg.placement.Nowhere?
    ensures HidesWhatManagerHides(cfg, t)
  {
  }

  /**
   So from then on every sign-in with that subject, through either door, resolves to that row and
   writes nothing on the way, whatever its email claims say.  (A stated queryset has to hide what the
   subject model's manager hides; see `SubjectRoutes.FindsLiveRow` for what happens otherwise.)
   */
  lemma ResolvesForEver(cfg: Config, trace: seq<State>, i: nat, j: nat, pk: Pk, claims: Claims, slot: NewRow)
    requires Run(cfg, trace) && i <= j < |trace|
    requires !cfg.placement.Nowhere? && HidesWhatManagerHides(cfg, trace[i].db)
    requires claims.sub != "" && pk in trace[i].db.rows && Valid(cfg, trace[i].db)
    requires trace[i].db.rows[pk] == SubjectRow(Some(claims.sub), true) && Real(cfg, trace[i].db.users[pk])
    ensures Valid(cfg, trace[j].db) && pk in trace[j].db.users
    ensures FindOrLink(cfg, trace[j].db, claims) == (trace[j].db, Some(pk))
    ensures AdminFind(cfg, trace[j].db, claims) == (trace[j].db, Some(pk))
    ensures Authenticate(cfg, trace[j].db, claims, slot) == (trace[j].db, IfActive(trace[j].db, pk))
    ensures var r := UserForClaims(cfg, trace[j].db, claims, slot);
            r.db.rows == trace[j].db.rows && (r.saved.Some? ==> r.saved == Some(pk))
  {
    RunKeeps(cfg, trace, i, j);
    HidingIsKept(cfg, trace[i].db, trace[j].db);
    FindsLiveRow(cfg, trace[j].db, pk, claims.sub);
    AdminEndings(cfg, trace[j].db, claims, slot);
  }

  // ---- the bootstrap is spent once ----

  /** What a sign-in through either door, with a subject to sign in with, makes of the tables. */
  ghost predicate SignsIn(cfg: Config, s: Db, t: Db, claims: Claims) {
    && Valid(cfg, s) && claims.sub != ""
    && exists slot :: t == Authenticate(cfg, s, claims, slot).0 || t == UserForClaims(cfg, s, claims, slot).db
  }

  ghost predicate SomeoneSignsIn(cfg: Config, s: Db, t: Db) {
    exists claims :: SignsIn(cfg, s, t, claims)
  }

  ghost predicate SignInRun(cfg: Config, trace: seq<Db>) {
    && trace != [] && Valid(cfg, trace[0])
    && forall i | 0 < i < |trace| :: SomeoneSignsIn(cfg, trace[i - 1], trace[i])
  }

  /** Whatever a sign-in links met every condition of the bootstrap. */
  lemma SignInLinksAtMostOne(cfg: Config, s: Db, t: Db, claims: Claims)
    requires SignsIn(cfg, s, t, claims)
    ensures Valid(cfg, t) && Keeps(cfg, s, t) && LinksAtMostOne(cfg, s, t, claims)
  {
    var slot :| t == Authenticate(cfg, s, claims, slot).0 || t == UserForClaims(cfg, s, claims, slot).db;
    if t == Authenticate(cfg, s, claims, slot).0 {
      AuthenticateEffect(cfg, s, claims, slot);
    } else {
      AdminEffect(cfg, s, claims, slot);
    }
  }

  lemma StepUsesUpOne(cfg: Config, s: Db, t: Db)
    requires SomeoneSignsIn(cfg, s, t)
    ensures Valid(cfg, t)
    ensures |Unlinked(s)| == |Unlinked(t)| + if Unlinked(t) != Unlinked(s) then 1 else 0
  {
    var claims :| SignsIn(cfg, s, t, claims);
    SignInLinksAtMostOne(cfg, s, t, claims);
    if Unlinked(t) != Unlinked(s) {
      var pk :| Claimable(cfg, s, claims, pk) && Unlinked(t) == Unlinked(s) - {pk};
    }
  }

  /** How many of a run's steps link a row. */
  function Links(trace: seq<Db>): nat {
    if |trace| < 2 then 0
    else Links(trace[..|trace| - 1])
         + if Unlinked(trace[|trace| - 1]) != Unlinked(trace[|trace| - 2]) then 1 else 0
  }

  /**
   Conservation: over any run of sign-ins every link uses up one unlinked row, so links can never
   outnumber the rows there were, however many sign-ins there are and whatever they claim.
   */
  lemma {:induction false} LinksAreConserved(cfg: Config, trace: seq<Db>)
    requires SignInRun(cfg, trace)
    ensures Valid(cfg, trace[|trace| - 1])
    ensures Links(trace) + |Unlinked(trace[|trace| - 1])| == |Unlinked(trace[0])|
    decreases |trace|
  {
    if |trace| > 1 {
      LinksAreConserved(cfg, trace[..|trace| - 1]);
      StepUsesUpOne(cfg, trace[|trace| - 2], trace[|trace| - 1]);
    }
  }

  /** No row is linked twice: two steps that link link different rows. */
  lemma LinkedOnce(cfg: Config, trace: seq<State>, i: nat, j: nat, pk: Pk)
    requires Run(cfg, trace) && i + 1 < |trace| && j + 1 < |trace| && i < j
    requires pk in Unlinked(trace[i].db) && pk !in Unlinked(trace[i + 1].db)
    ensures pk !in Unlinked(trace[j].db)
  {
    RunKeeps(cfg, trace, i, i + 1);
    RunKeeps(cfg, trace, i + 1, j);
  }
}
