/** The two query routes to a subject, and what the default one keeps out of reach. */
module SubjectRoutes {
  import opened Options
  import opened Accounts

  /** The database with the rows its subject model's manager hides taken out. */
  function Excluding(db: Db): Db {
    db.(rows := map pk | pk in db.rows && db.rows[pk].live :: db.rows[pk])
  }

  /** The same project, had it stated its own queryset. */
  function Stating(cfg: Config): Config {
    cfg.(statesQueryset := true)
  }

  /** The stated queryset names the users the default manager does. */
  ghost predicate StatesSameUsers(db: Db) {
    forall pk | pk in db.users :: db.users[pk].stated == db.users[pk].listed
  }

  /** The related-manager route is the join route on what the manager lets through. */
  lemma ManagerRouteIsJoinOnLiveRows(cfg: Config, db: Db, sub: string, email: string)
    requires AsksManager(cfg) && StatesSameUsers(db) && sub != ""
    ensures FindBySubject(cfg, db, sub) == FindBySubject(Stating(cfg), Excluding(db), sub)
    ensures Candidate(cfg, db, email) == Candidate(Stating(cfg), Excluding(db), email)
  {
    var other, live := Stating(cfg), Excluding(db);
    assert ManagerFinds(cfg, db, sub) == JoinFinds(other, live, sub);
    assert ManagerUnlinked(cfg, db, email) == JoinUnlinked(other, live, email);
  }

  /** With a manager that hides nothing the two routes return the same user, for either question. */
  lemma RoutesAgree(cfg: Config, db: Db, sub: string, email: string)
    requires AsksManager(cfg) && StatesSameUsers(db)
    requires forall pk | pk in db.rows :: db.rows[pk].live
    ensures FindBySubject(cfg, db, sub) == FindBySubject(Stating(cfg), db, sub)
    ensures Candidate(cfg, db, email) == Candidate(Stating(cfg), db, email)
  {
    assert Excluding(db) == db;
    ManagerRouteIsJoinOnLiveRows(cfg, db, if sub == "" then "x" else sub, email);
  }

  lemma ExcludingStaysValid(cfg: Config, db: Db)
    requires cfg.placement.Related? && Valid(cfg, db)
    ensures Valid(Stating(cfg), Excluding(db))
  {
  }

  lemma CollidesAlike(db: Db, pk: Pk, row: SubjectRow)
    ensures Collides(db, pk, row) <==> Collides(Excluding(db), pk, row)
  {
    var live := Excluding(db);
    forall other: Pk | other in db.rows && db.rows[other].live
      ensures other in live.rows && live.rows[other] == db.rows[other]
    {
    }
  }

  lemma LinkRefines(cfg: Config, db: Db, claims: Claims)
    requires AsksManager(cfg) && StatesSameUsers(db) && Valid(cfg, db) && claims.sub != ""
    requires Valid(Stating(cfg), Excluding(db))
    ensures Excluding(Link(cfg, db, claims).0) == Link(Stating(cfg), Excluding(db), claims).0
    ensures Link(cfg, db, claims).1 == Link(Stating(cfg), Excluding(db), claims).1
  {
    ManagerRouteIsJoinOnLiveRows(cfg, db, claims.sub, claims.email);
    var candidate := Candidate(cfg, db, claims.email);
    if candidate.Some? {
      var pk := candidate.value;
      assert pk in Holders(db, "");
      CollidesAlike(db, pk, db.rows[pk].(sub := Some(claims.sub)));
      assert Excluding(WithSubject(db, pk, claims.sub)).rows == WithSubject(Excluding(db), pk, claims.sub).rows;
    }
  }

  /**
   The default sign-in on any database is the stated-queryset sign-in on the database without the
   rows the manager hides: the same answer, and the same tables afterwards.
   */
  lemma DefaultSignInRefinesStated(cfg: Config, db: Db, claims: Claims, slot: NewRow)
    requires AsksManager(cfg) && StatesSameUsers(db) && Valid(cfg, db)
    ensures Valid(Stating(cfg), Excluding(db))
    ensures
      var (after, answer) := Authenticate(cfg, db, claims, slot);
      Authenticate(Stating(cfg), Excluding(db), claims, slot) == (Excluding(after), answer)
  {
    ExcludingStaysValid(cfg, db);
    if claims.sub != "" {
      ManagerRouteIsJoinOnLiveRows(cfg, db, claims.sub, claims.email);
      LinkRefines(cfg, db, claims);
    }
  }

  /** A hidden row is neither signed in nor written, whatever the claims say. */
  lemma HiddenRowsAreOutOfReach(cfg: Config, db: Db, claims: Claims, slot: NewRow, pk: Pk)
    requires AsksManager(cfg) && Valid(cfg, db)
    requires pk in db.rows && !db.rows[pk].live
    ensures
      var (after, answer) := Authenticate(cfg, db, claims, slot);
      answer != Accepted(pk) && pk in after.rows && after.rows[pk] == db.rows[pk]
  {
  }

  /** Who a sign-in lets in: an active user whose subject is now the token's own. */
  lemma AcceptedCarriesSubject(cfg: Config, db: Db, claims: Claims, slot: NewRow)
    requires Valid(cfg, db)
    ensures
      var (after, answer) := Authenticate(cfg, db, claims, slot);
      answer.Accepted? ==>
        (answer.pk in after.users && after.users[answer.pk].active
         && Column(after, answer.pk) == Some(claims.sub) && claims.sub != "")
  {
  }

  /** No user the queryset names has a subject row that is hidden. */
  ghost predicate HidesWhatManagerHides(cfg: Config, db: Db) {
    AsksManager(cfg) || forall pk | pk in db.rows && pk in db.users && Real(cfg, db.users[pk]) :: db.rows[pk].live
  }

  /**
   The lookup finds the live row that carries the subject if and only if no real user with a lower
   key carries it on a hidden row; the default route never sees one, a stated queryset may.
   */
  lemma FindsLiveRow(cfg: Config, db: Db, pk: Pk, sub: string)
    requires Valid(cfg, db) && sub != ""
    requires pk in db.rows && db.rows[pk] == SubjectRow(Some(sub), true) && Real(cfg, db.users[pk])
    ensures FindBySubject(cfg, db, sub) == Some(pk) <==>
      (AsksManager(cfg)
       || !exists dead | dead in db.rows ::
            dead < pk && Real(cfg, db.users[dead]) && db.rows[dead] == SubjectRow(Some(sub), false))
    ensures HidesWhatManagerHides(cfg, db) ==> FindBySubject(cfg, db, sub) == Some(pk)
  {
  }

  /** A stated queryset that still names a deleted person's user hands their subject to the dead row. */
  lemma StatedQuerysetCanFindDeadRow()
    ensures exists cfg, db, live: Pk, dead: Pk ::
      && Valid(cfg, db) && cfg.statesQueryset
      && live in db.rows && db.rows[live] == SubjectRow(Some("s"), true) && Real(cfg, db.users[live])
      && dead in db.rows && !db.rows[dead].live
      && FindBySubject(cfg, db, "s") == Some(dead)
  {
    var cfg := Config(Related, true, false, false, false, "superadmin", (s: string) => s);
    var user := User("a", "", false, true, false, false, true, true);
    var db := Db(map[1 := user, 2 := user.(username := "b")],
                 map[1 := SubjectRow(Some("s"), false), 2 := SubjectRow(Some("s"), true)]);
    assert 1 in db.rows && Real(cfg, db.users[1]) && db.rows[1] == SubjectRow(Some("s"), false);
    FindsLiveRow(cfg, db, 2, "s");
    var hits := JoinFinds(cfg, db, "s");
    assert 1 in hits && forall pk | pk in hits :: 1 <= pk;
    assert Valid(cfg, db) && FindBySubject(cfg, db, "s") == Some(1) && 2 in db.rows;
  }
}
