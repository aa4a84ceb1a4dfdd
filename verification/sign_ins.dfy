/** What one sign-in, through either door, does to the tables. */
module SignIns {
  import opened Options
  import opened Accounts

  /** No user is lost or renamed to the queries, no row is hidden or shown, no subject is moved. */
  ghost predicate Keeps(cfg: Config, s: Db, t: Db) {
    && s.users.Keys <= t.users.Keys
    && (forall pk | pk in s.users ::
          s.users[pk].listed == t.users[pk].listed && s.users[pk].stated == t.users[pk].stated)
    && s.rows.Keys <= t.rows.Keys
    && (cfg.placement.Related? ==> s.rows.Keys == t.rows.Keys)
    && forall pk | pk in s.rows ::
         s.rows[pk].live == t.rows[pk].live && (!IsBlank(s.rows[pk].sub) ==> t.rows[pk] == s.rows[pk])
  }

  lemma KeepsItself(cfg: Config, db: Db)
    ensures Keeps(cfg, db, db)
  {
  }

  lemma KeepsIsTransitive(cfg: Config, r: Db, s: Db, t: Db)
    requires Keeps(cfg, r, s) && Keeps(cfg, s, t)
    ensures Keeps(cfg, r, t)
  {
  }

  /** The rows that the bootstrap could still write a subject on. */
  function Unlinked(db: Db): set<Pk> {
    set pk | pk in db.rows && IsBlank(db.rows[pk].sub)
  }

  /** Everything the documentation asks of an account that is claimed by email. */
  ghost predicate Claimable(cfg: Config, db: Db, claims: Claims, pk: Pk) {
    && claims.email != "" && claims.emailVerified == True
    && pk in db.users && pk in Unlinked(db) && Real(cfg, db.users[pk])
    && cfg.fold(db.users[pk].email) == cfg.fold(claims.email)
    && (AsksManager(cfg) ==> db.rows[pk].live)
    && FindBySubject(cfg, db, claims.sub) == None
  }

  lemma CandidateIsClaimable(cfg: Config, db: Db, claims: Claims, pk: Pk)
    requires Valid(cfg, db) && !cfg.placement.Nowhere?
    requires MayLink(claims) && FindBySubject(cfg, db, claims.sub) == None
    requires Candidate(cfg, db, claims.email) == Some(pk)
    ensures Claimable(cfg, db, claims, pk)
  {
  }

  lemma WithSubjectKeeps(cfg: Config, db: Db, pk: Pk, sub: string)
    requires Valid(cfg, db) && pk in Unlinked(db)
    requires !Collides(db, pk, db.rows[pk].(sub := Some(sub)))
    ensures Valid(cfg, WithSubject(db, pk, sub)) && Keeps(cfg, db, WithSubject(db, pk, sub))
    ensures sub != "" ==> Unlinked(WithSubject(db, pk, sub)) == Unlinked(db) - {pk}
    ensures sub == "" ==> Unlinked(WithSubject(db, pk, sub)) == Unlinked(db)
  {
  }

  /** A link changes the subject of at most one row, one that could be claimed; a user it returns has the subject. */
  lemma LinkEffect(cfg: Config, db: Db, claims: Claims)
    requires Valid(cfg, db) && !cfg.placement.Nowhere? && FindBySubject(cfg, db, claims.sub) == None
    ensures
      var (after, found) := Link(cfg, db, claims);
      && Valid(cfg, after) && Keeps(cfg, db, after)
      && (found.None? ==> after == db)
      && (found.Some? ==>
            (Claimable(cfg, db, claims, found.value)
             && after == WithSubject(db, found.value, claims.sub)
             && !Collides(db, found.value, db.rows[found.value].(sub := Some(claims.sub)))))
  {
    var candidate := Candidate(cfg, db, claims.email);
    if MayLink(claims) && candidate.Some? {
      CandidateIsClaimable(cfg, db, claims, candidate.value);
      if !Collides(db, candidate.value, db.rows[candidate.value].(sub := Some(claims.sub))) {
        WithSubjectKeeps(cfg, db, candidate.value, claims.sub);
      }
    }
  }

  lemma InsertKeeps(cfg: Config, db: Db, pk: Pk, user: User, row: Option<SubjectRow>)
    requires Valid(cfg, db) && (cfg.placement.OnUser? <==> row.Some?)
    requires Insert(cfg, db, pk, user, row).Some?
    ensures
      var after := Insert(cfg, db, pk, user, row).value;
      Keeps(cfg, db, after)
      && Unlinked(after) == Unlinked(db) + (if row.Some? && IsBlank(row.value.sub) then {pk} else {})
  {
  }

  lemma InsertEffect(cfg: Config, db: Db, pk: Pk, user: User, row: Option<SubjectRow>)
    requires Valid(cfg, db) && (cfg.placement.OnUser? <==> row.Some?) && (row.Some? ==> row.value.live)
    ensures
      var after := Insert(cfg, db, pk, user, row);
      after.Some? ==>
        (Valid(cfg, after.value) && Keeps(cfg, db, after.value)
         && Unlinked(after.value) == Unlinked(db) + (if row.Some? && IsBlank(row.value.sub) then {pk} else {}))
  {
    if Insert(cfg, db, pk, user, row).Some? {
      InsertKeeps(cfg, db, pk, user, row);
    }
  }

  /** The subject effect of a sign-in: none, or one claimable row linked to the token's subject. */
  ghost predicate LinksAtMostOne(cfg: Config, db: Db, after: Db, claims: Claims) {
    Unlinked(after) == Unlinked(db)
    || exists pk :: Claimable(cfg, db, claims, pk) && Unlinked(after) == Unlinked(db) - {pk}
                 && Column(after, pk) == Some(claims.sub)
  }

  lemma AuthenticateEffect(cfg: Config, db: Db, claims: Claims, slot: NewRow)
    requires Valid(cfg, db)
    ensures var after := Authenticate(cfg, db, claims, slot).0;
      Valid(cfg, after) && Keeps(cfg, db, after) && LinksAtMostOne(cfg, db, after, claims)
  {
    if claims.sub != "" && !cfg.placement.Nowhere? && FindBySubject(cfg, db, claims.sub) == None {
      LinkEffect(cfg, db, claims);
      var (linked, found) := Link(cfg, db, claims);
      if found.Some? {
        WithSubjectKeeps(cfg, db, found.value, claims.sub);
      } else if cfg.createsUnknown && cfg.placement.OnUser? {
        var name := OrElse(claims.email, claims.sub);
        InsertEffect(cfg, db, slot.pk,
          User(if cfg.usernameIsEmail then "" else name, if cfg.usernameIsEmail then name else claims.email,
               false, true, false, false, slot.listed, slot.stated),
          Some(SubjectRow(Some(claims.sub), true)));
      }
    }
  }

  lemma AdminFindEffect(cfg: Config, db: Db, claims: Claims)
    requires Valid(cfg, db)
    ensures
      var (after, found) := AdminFind(cfg, db, claims);
      && Valid(cfg, after) && Keeps(cfg, db, after) && after.users == db.users
      && (claims.sub != "" ==> LinksAtMostOne(cfg, db, after, claims))
      && (!HoldsRole(cfg, claims) || found.None? ==> after == db)
      && (found.Some? ==> found.value in db.users)
      && (found.Some? && after != db ==> after == WithSubject(db, found.value, claims.sub))
  {
    if !cfg.placement.Nowhere? && FindBySubject(cfg, db, claims.sub) == None {
      LinkEffect(cfg, db, claims);
      var (linked, found) := Link(cfg, db, claims);
      if found.Some? {
        WithSubjectKeeps(cfg, db, found.value, claims.sub);
      }
    }
  }

  function NewAdminRow(cfg: Config, claims: Claims): Option<SubjectRow> {
    if cfg.placement.OnUser? then Some(SubjectRow(Some(claims.sub), true)) else None
  }

  /** `UserForClaims` after the lookup, in one line for each way it can end. */
  ghost predicate AdminEnds(cfg: Config, claims: Claims, slot: NewRow, linked: Db, found: Option<Pk>, r: AdminResult) {
    || (r.db == linked && r.saved == None && !r.answer.Accepted?)
    || (found.None? && HoldsRole(cfg, claims) && r.saved == Some(slot.pk) && r.answer == Accepted(slot.pk)
        && Insert(cfg, linked, slot.pk, WithFlags(cfg, NewAdmin(cfg, claims, slot), claims), NewAdminRow(cfg, claims))
           == Some(r.db))
    || (found.Some? && found.value in linked.users && !linked.users[found.value].usablePassword && r.saved == found
        && r.db == linked.(users := linked.users[found.value := WithFlags(cfg, linked.users[found.value], claims)])
        && r.answer == (if HoldsRole(cfg, claims) then Accepted(found.value) else Refused))
  }

  lemma AdminEndings(cfg: Config, db: Db, claims: Claims, slot: NewRow)
    requires Valid(cfg, db)
    ensures
      var (linked, found) := AdminFind(cfg, db, claims);
      var r := UserForClaims(cfg, db, claims, slot);
      && AdminEnds(cfg, claims, slot, linked, found, r)
      && (found.Some? && linked.users[found.value].usablePassword ==> r.saved == None)
      && (found.Some? && !linked.users[found.value].usablePassword ==> r.saved == found)
  {
    AdminFindEffect(cfg, db, claims);
  }

  lemma AdminEffect(cfg: Config, db: Db, claims: Claims, slot: NewRow)
    requires Valid(cfg, db)
    ensures var after := UserForClaims(cfg, db, claims, slot).db;
      && Valid(cfg, after) && Keeps(cfg, db, after)
      && (claims.sub != "" ==> LinksAtMostOne(cfg, db, after, claims))
  {
    AdminFindEffect(cfg, db, claims);
    AdminEndings(cfg, db, claims, slot);
    var (linked, found) := AdminFind(cfg, db, claims);
    var r := UserForClaims(cfg, db, claims, slot);
    if found.None? {
      InsertEffect(cfg, linked, slot.pk, WithFlags(cfg, NewAdmin(cfg, claims, slot), claims), NewAdminRow(cfg, claims));
    } else if r.saved.Some? {
      SavedUserKeeps(cfg, linked, found.value, WithFlags(cfg, linked.users[found.value], claims));
      KeepsIsTransitive(cfg, db, linked, r.db);
    }
  }

  lemma SavedUserKeeps(cfg: Config, db: Db, pk: Pk, user: User)
    requires Valid(cfg, db) && pk in db.users
    requires user.listed == db.users[pk].listed && user.stated == db.users[pk].stated
    ensures
      var after := db.(users := db.users[pk := user]);
      Valid(cfg, after) && Keeps(cfg, db, after) && Unlinked(after) == Unlinked(db)
  {
  }

  /**
   The frame of an admin sign-in.  One that reaches its save leaves that row active, with both flags
   equal to the role, even if it then refuses, and every other user untouched.  One that does not
   leaves every user as it was and lets nobody in.
   */
  lemma AdminFrame(cfg: Config, db: Db, claims: Claims, slot: NewRow)
    requires Valid(cfg, db)
    ensures
      var r := UserForClaims(cfg, db, claims, slot);
      var holds := HoldsRole(cfg, claims);
      && (r.saved.Some? ==>
            (r.saved.value in r.db.users && !r.db.users[r.saved.value].usablePassword
             && r.db.users[r.saved.value].active
             && r.db.users[r.saved.value].staff == r.db.users[r.saved.value].superuser == holds
             && r.db.users == db.users[r.saved.value := r.db.users[r.saved.value]]
             && r.answer == (if holds then Accepted(r.saved.value) else Refused)))
      && (r.saved.None? ==> r.db.users == db.users && !r.answer.Accepted?)
  {
    AdminFindEffect(cfg, db, claims);
    AdminEndings(cfg, db, claims, slot);
  }

  /**
   And of the subjects.  Without the role no row is added and no subject is written.  With it, one
   row may be linked; it is the row that is saved, or else the person was turned away because that
   account has a local password, and the link stays.
   */
  lemma AdminSubjectFrame(cfg: Config, db: Db, claims: Claims, slot: NewRow)
    requires Valid(cfg, db)
    ensures
      var r := UserForClaims(cfg, db, claims, slot);
      && (!HoldsRole(cfg, claims) ==> r.db.rows == db.rows && r.db.users.Keys == db.users.Keys)
      && forall pk | pk in db.rows && pk in r.db.rows && r.db.rows[pk] != db.rows[pk] ::
           && HoldsRole(cfg, claims) && Claimable(cfg, db, claims, pk)
           && r.db.rows[pk].sub == Some(claims.sub)
           && (r.saved == Some(pk) || (r.saved.None? && db.users[pk].usablePassword))
  {
    AdminFindEffect(cfg, db, claims);
    AdminEndings(cfg, db, claims, slot);
    if !cfg.placement.Nowhere? && FindBySubject(cfg, db, claims.sub) == None {
      LinkEffect(cfg, db, claims);
    }
  }

  /** Whether the bootstrap would write this token's subject on some row. */
  ghost predicate WouldLink(cfg: Config, db: Db, claims: Claims)
    requires Valid(cfg, db) && !cfg.placement.Nowhere?
  {
    MayLink(claims) && Candidate(cfg, db, claims.email).Some?
    && !Collides(db, Candidate(cfg, db, claims.email).value,
                 db.rows[Candidate(cfg, db, claims.email).value].(sub := Some(claims.sub)))
  }

  /**
   The two doors give the same user and the same tables exactly where the subject finds a row, or no
   row has the subject for its name and either the role is held or there is nobody to link.
   */
  lemma DoorsAgree(cfg: Config, db: Db, claims: Claims)
    requires Valid(cfg, db) && !cfg.placement.Nowhere? && claims.sub != ""
    ensures AdminFind(cfg, db, claims) == FindOrLink(cfg, db, claims) <==>
      (FindBySubject(cfg, db, claims.sub).Some?
       || (ByUsername(cfg, db, claims.sub).None? && (HoldsRole(cfg, claims) || !WouldLink(cfg, db, claims))))
  {
  }

  /** Only an empty subject lets a link leave its row unlinked, to be claimed again. */
  lemma EmptySubjectDoesNotLink(cfg: Config, db: Db, claims: Claims)
    requires Valid(cfg, db) && !cfg.placement.Nowhere? && FindBySubject(cfg, db, claims.sub) == None
    requires Link(cfg, db, claims).1.Some?
    ensures Link(cfg, db, claims).1.value in Unlinked(Link(cfg, db, claims).0) <==> claims.sub == ""
  {
  }

  // ---- where the doors differ, and where a link is not spent ----

  function Plainly(): Config {
    Config(Related, false, false, false, false, "superadmin", (e: string) => e)
  }

  function Somebody(name: string, email: string): User {
    User(name, email, false, true, false, false, true, true)
  }

  /** Two users who have never signed in; the first one's username is the second one's subject. */
  const NAMESAKES := Db(map[1 := Somebody("s1", "bo@example.com"), 2 := Somebody("ana", "ana@example.com")],
                        map[1 := SubjectRow(None, true), 2 := SubjectRow(None, true)])

  /** One role holder, let in by both doors, as two different people. */
  lemma DoorsCanDisagree(slot: NewRow) returns (cfg: Config, claims: Claims)
    ensures Valid(cfg, NAMESAKES) && !cfg.placement.Nowhere? && claims.sub != "" && HoldsRole(cfg, claims)
    ensures Authenticate(cfg, NAMESAKES, claims, slot).1 == Accepted(2)
    ensures UserForClaims(cfg, NAMESAKES, claims, slot).answer == Accepted(1)
  {
    cfg, claims := Plainly(), Claims("s1", "ana@example.com", True, Some(["superadmin"]));
    assert ManagerFinds(cfg, NAMESAKES, "s1") == {};
    assert ManagerUnlinked(cfg, NAMESAKES, "ana@example.com") == {2};
    assert WithUsername(cfg, NAMESAKES, "s1") == {1};
  }

  /** A role holder whose token has an empty subject is let in by a link that leaves the row to be linked again. */
  lemma EmptySubjectIsLetIn(slot: NewRow) returns (cfg: Config, claims: Claims)
    ensures Valid(cfg, NAMESAKES) && !cfg.placement.Nowhere? && claims.sub == ""
    ensures
      var r := UserForClaims(cfg, NAMESAKES, claims, slot);
      r.answer == Accepted(2) && r.db.rows[2].sub == Some("") && 2 in Unlinked(NAMESAKES) && 2 in Unlinked(r.db)
  {
    cfg, claims := Plainly(), Claims("", "ana@example.com", True, Some(["superadmin"]));
    assert ManagerUnlinked(cfg, NAMESAKES, "ana@example.com") == {2};
    assert WithUsername(cfg, NAMESAKES, "") == {};
  }
}
