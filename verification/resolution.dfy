/**
 Who a sign-in resolves to and what it leaves behind, said of the tables' own columns: every way a
 session sign-in, an admin sign-in and the break-glass command can end, each with its own condition.
 */
module Resolution {
  import opened Options
  import opened Accounts
  import opened BreakGlass

  // ---- the questions, in terms of columns ----

  /** The user half: what the configured queryset returns, or else the default manager. */
  ghost predicate IsReal(cfg: Config, db: Db, pk: Pk) {
    pk in db.users && (if cfg.statesQueryset then db.users[pk].stated else db.users[pk].listed)
  }

  /** Across a relation, and only without a configured queryset, the row has to be one its manager returns. */
  ghost predicate IsInReach(cfg: Config, db: Db, pk: Pk) {
    pk in db.rows && (cfg.placement == Related && !cfg.statesQueryset ==> db.rows[pk].live)
  }

  ghost predicate Carries(cfg: Config, db: Db, pk: Pk, sub: string) {
    IsReal(cfg, db, pk) && IsInReach(cfg, db, pk) && db.rows[pk].sub == Some(sub)
  }

  /** Unlinked, in either spelling, with an address that differs at most in case. */
  ghost predicate IsOpenTo(cfg: Config, db: Db, pk: Pk, email: string) {
    && IsReal(cfg, db, pk) && IsInReach(cfg, db, pk)
    && (db.rows[pk].sub == None || db.rows[pk].sub == Some(""))
    && cfg.fold(db.users[pk].email) == cfg.fold(email)
  }

  ghost predicate IsNamed(cfg: Config, db: Db, pk: Pk, name: string) {
    && pk in db.users && db.users[pk].listed
    && (if cfg.usernameIsEmail then db.users[pk].email else db.users[pk].username) == name
  }

  ghost predicate NobodyCarries(cfg: Config, db: Db, sub: string) {
    sub == "" || forall pk | pk in db.users :: !Carries(cfg, db, pk, sub)
  }

  ghost predicate FirstCarrier(cfg: Config, db: Db, pk: Pk, sub: string) {
    sub != "" && Carries(cfg, db, pk, sub) && forall q | q in db.users && Carries(cfg, db, q, sub) :: pk <= q
  }

  ghost predicate FirstOpenTo(cfg: Config, db: Db, pk: Pk, email: string) {
    IsOpenTo(cfg, db, pk, email) && forall q | q in db.users && IsOpenTo(cfg, db, q, email) :: pk <= q
  }

  ghost predicate NobodyNamed(cfg: Config, db: Db, name: string) {
    forall pk | pk in db.users :: !IsNamed(cfg, db, pk, name)
  }

  ghost predicate FirstNamed(cfg: Config, db: Db, pk: Pk, name: string) {
    IsNamed(cfg, db, pk, name) && forall q | q in db.users && IsNamed(cfg, db, q, name) :: pk <= q
  }

  /** Another live row has the subject, so that writing it on `pk` too would break the unique constraint. */
  ghost predicate IsHeldBesides(db: Db, pk: Pk, sub: string) {
    sub != "" && exists other | other in db.rows :: other != pk && db.rows[other].live && db.rows[other].sub == Some(sub)
  }

  lemma FindsFirstCarrier(cfg: Config, db: Db, sub: string, pk: Pk)
    ensures FindBySubject(cfg, db, sub) == Some(pk) <==> FirstCarrier(cfg, db, pk, sub)
    ensures FindBySubject(cfg, db, sub) == None <==> NobodyCarries(cfg, db, sub)
  {
    var found := if AsksManager(cfg) then ManagerFinds(cfg, db, sub) else JoinFinds(cfg, db, sub);
    assert sub != "" ==> forall q: Pk :: q in found <==> q in db.users && Carries(cfg, db, q, sub);
  }

  lemma CandidateIsFirstOpen(cfg: Config, db: Db, email: string, pk: Pk)
    requires Valid(cfg, db) && !cfg.placement.Nowhere?
    ensures Candidate(cfg, db, email) == Some(pk) <==> FirstOpenTo(cfg, db, pk, email)
    ensures Candidate(cfg, db, email) == None <==> forall q | q in db.users :: !IsOpenTo(cfg, db, q, email)
  {
    var open := if AsksManager(cfg) then ManagerUnlinked(cfg, db, email) else JoinUnlinked(cfg, db, email);
    assert forall q: Pk :: q in open <==> q in db.users && IsOpenTo(cfg, db, q, email);
  }

  lemma NameFindsFirst(cfg: Config, db: Db, name: string, pk: Pk)
    ensures ByUsername(cfg, db, name) == Some(pk) <==> FirstNamed(cfg, db, pk, name)
    ensures ByUsername(cfg, db, name) == None <==> NobodyNamed(cfg, db, name)
  {
    assert forall q: Pk :: q in WithUsername(cfg, db, name) <==> q in db.users && IsNamed(cfg, db, q, name);
  }

  // ---- the bootstrap ----

  /** The row the bootstrap writes this token's subject on. */
  ghost predicate LinksTo(cfg: Config, db: Db, claims: Claims, pk: Pk) {
    && claims.email != "" && claims.emailVerified == True
    && FirstOpenTo(cfg, db, pk, claims.email)
    && (db.rows[pk].live ==> !IsHeldBesides(db, pk, claims.sub))
  }

  ghost predicate LinksNobody(cfg: Config, db: Db, claims: Claims) {
    forall pk | pk in db.users :: !LinksTo(cfg, db, claims, pk)
  }

  function Rewritten(db: Db, pk: Pk, sub: string): Db
    requires pk in db.rows
  {
    Db(db.users, db.rows[pk := SubjectRow(Some(sub), db.rows[pk].live)])
  }

  /** Written on that row and no other; where it is nobody's, nothing is written, and only a conflict looks again. */
  lemma LinkEnds(cfg: Config, db: Db, claims: Claims, pk: Pk)
    requires Valid(cfg, db) && !cfg.placement.Nowhere? && NobodyCarries(cfg, db, claims.sub)
    ensures LinksTo(cfg, db, claims, pk) ==> Link(cfg, db, claims) == (Rewritten(db, pk, claims.sub), Some(pk))
    ensures LinksNobody(cfg, db, claims) ==> Link(cfg, db, claims) == (db, None)
  {
    FindsFirstCarrier(cfg, db, claims.sub, pk);
    CandidateIsFirstOpen(cfg, db, claims.email, pk);
    var candidate := Candidate(cfg, db, claims.email);
    if candidate.Some? {
      CandidateIsFirstOpen(cfg, db, claims.email, candidate.value);
    }
  }

  /** A save that the constraint refuses writes nothing, and is answered with whoever carries the subject by then. */
  lemma ConflictLooksAgain(cfg: Config, db: Db, claims: Claims, pk: Pk, holder: Pk)
    requires Valid(cfg, db) && !cfg.placement.Nowhere? && claims.email != "" && claims.emailVerified == True
    requires FirstOpenTo(cfg, db, pk, claims.email) && db.rows[pk].live && IsHeldBesides(db, pk, claims.sub)
    ensures FirstCarrier(cfg, db, holder, claims.sub) ==> Link(cfg, db, claims) == (db, Some(holder))
    ensures NobodyCarries(cfg, db, claims.sub) ==> Link(cfg, db, claims) == (db, None)
  {
    FindsFirstCarrier(cfg, db, claims.sub, holder);
    CandidateIsFirstOpen(cfg, db, claims.email, pk);
  }

  // ---- the session sign-in ----

  lemma SessionNeedsSubject(cfg: Config, db: Db, claims: Claims, slot: NewRow)
    requires Valid(cfg, db)
    ensures claims.sub == "" ==> Authenticate(cfg, db, claims, slot) == (db, Refused)
    ensures claims.sub != "" && cfg.placement == Nowhere ==> Authenticate(cfg, db, claims, slot) == (db, Raised)
  {
  }

  /** Whoever carries the subject is signed in if active, and nothing is written. */
  lemma KnownSignsIn(cfg: Config, db: Db, claims: Claims, slot: NewRow, pk: Pk)
    requires Valid(cfg, db) && cfg.placement != Nowhere && FirstCarrier(cfg, db, pk, claims.sub)
    ensures Authenticate(cfg, db, claims, slot) == (db, if db.users[pk].active then Accepted(pk) else Refused)
  {
    FindsFirstCarrier(cfg, db, claims.sub, pk);
  }

  /** Whoever the bootstrap links is signed in if active, and linked in any case. */
  lemma LinkedSignsIn(cfg: Config, db: Db, claims: Claims, slot: NewRow, pk: Pk)
    requires Valid(cfg, db) && cfg.placement != Nowhere && claims.sub != ""
    requires NobodyCarries(cfg, db, claims.sub) && LinksTo(cfg, db, claims, pk)
    ensures Authenticate(cfg, db, claims, slot) ==
      (Rewritten(db, pk, claims.sub), if db.users[pk].active then Accepted(pk) else Refused)
  {
    FindsFirstCarrier(cfg, db, claims.sub, pk);
    LinkEnds(cfg, db, claims, pk);
  }

  /** A person nothing here knows. */
  ghost predicate IsStranger(cfg: Config, db: Db, claims: Claims) {
    && cfg.placement != Nowhere && claims.sub != ""
    && NobodyCarries(cfg, db, claims.sub) && LinksNobody(cfg, db, claims)
  }

  /** The key, the name, the address where it is unique, and the subject of a new user are nobody's yet. */
  ghost predicate IsFree(cfg: Config, db: Db, pk: Pk, name: string, email: string) {
    && pk !in db.users
    && (forall q | q in db.users :: (if cfg.usernameIsEmail then db.users[q].email else db.users[q].username) != name)
    && (cfg.emailUnique ==> forall q | q in db.users :: db.users[q].email != email)
  }

  /** The account provisioning makes: named by the email, else the subject, and without a way in by password. */
  ghost predicate IsProvisioned(cfg: Config, claims: Claims, user: User) {
    var name := if claims.email != "" then claims.email else claims.sub;
    && (if cfg.usernameIsEmail then user.email == name else user.username == name && user.email == claims.email)
    && !user.usablePassword && user.active && !user.staff && !user.superuser
  }

  function NewEmail(cfg: Config, claims: Claims): string {
    if cfg.usernameIsEmail && claims.email == "" then claims.sub else claims.email
  }

  /** A stranger leaves no trace, unless the project provisions. */
  lemma StrangerIsRefused(cfg: Config, db: Db, claims: Claims, slot: NewRow)
    requires Valid(cfg, db) && IsStranger(cfg, db, claims) && !cfg.createsUnknown
    ensures Authenticate(cfg, db, claims, slot) == (db, Refused)
  {
    FindsFirstCarrier(cfg, db, claims.sub, 0);
    LinkEnds(cfg, db, claims, 0);
  }

  /** One new user and its row, and nothing else; or nothing at all, if any part of it is taken. */
  ghost predicate Provisions(cfg: Config, db: Db, claims: Claims, slot: NewRow, after: Db, answer: SignIn) {
    var name := if claims.email != "" then claims.email else claims.sub;
    if cfg.placement == OnUser && IsFree(cfg, db, slot.pk, name, NewEmail(cfg, claims))
       && !IsHeldBesides(db, slot.pk, claims.sub) then
      && answer == Accepted(slot.pk)
      && slot.pk in after.users && IsProvisioned(cfg, claims, after.users[slot.pk])
      && after.users == db.users[slot.pk := after.users[slot.pk]]
      && after.rows == db.rows[slot.pk := SubjectRow(Some(claims.sub), true)]
    else (after, answer) == (db, Raised)
  }

  lemma InsertEnds(cfg: Config, db: Db, pk: Pk, user: User, row: Option<SubjectRow>)
    requires row.Some? ==> row.value.live
    ensures
      var name := if cfg.usernameIsEmail then user.email else user.username;
      Insert(cfg, db, pk, user, row) ==
        if IsFree(cfg, db, pk, name, user.email)
           && (row.Some? && row.value.sub.Some? ==> !IsHeldBesides(db, pk, row.value.sub.value))
        then Some(Db(db.users[pk := user], if row.Some? then db.rows[pk := row.value] else db.rows)) else None
  {
  }

  lemma CreateEnds(cfg: Config, db: Db, claims: Claims, slot: NewRow)
    ensures
      var (after, answer) := Create(cfg, db, claims, slot);
      Provisions(cfg, db, claims, slot, after, answer)
  {
    var name := if claims.email != "" then claims.email else claims.sub;
    var user := User(if cfg.usernameIsEmail then "" else name, NewEmail(cfg, claims), false, true, false, false,
                     slot.listed, slot.stated);
    InsertEnds(cfg, db, slot.pk, user, Some(SubjectRow(Some(claims.sub), true)));
  }

  /** With the setting a stranger is given an account, where the subject is on the user model. */
  lemma StrangerIsProvisioned(cfg: Config, db: Db, claims: Claims, slot: NewRow)
    requires Valid(cfg, db) && IsStranger(cfg, db, claims) && cfg.createsUnknown
    ensures
      var (after, answer) := Authenticate(cfg, db, claims, slot);
      Provisions(cfg, db, claims, slot, after, answer)
  {
    CreateEnds(cfg, db, claims, slot);
    assert Authenticate(cfg, db, claims, slot) == Create(cfg, db, claims, slot) by {
      FindsFirstCarrier(cfg, db, claims.sub, 0);
      LinkEnds(cfg, db, claims, 0);
    }
  }

  /** Without the setting no session sign-in adds or changes a user, whatever the claims say. */
  lemma NobodyIsAddedUnasked(cfg: Config, db: Db, claims: Claims, slot: NewRow)
    requires Valid(cfg, db) && !cfg.createsUnknown
    ensures Authenticate(cfg, db, claims, slot).0.users == db.users
    ensures Authenticate(cfg, db, claims, slot).0.rows.Keys == db.rows.Keys
  {
  }

  // ---- the admin's lookup ----

  /** There is no column to hold the subject, or nobody's holds it. */
  ghost predicate NoSubjectMatch(cfg: Config, db: Db, sub: string) {
    cfg.placement == Nowhere || NobodyCarries(cfg, db, sub)
  }

  ghost predicate HasRole(cfg: Config, claims: Claims) {
    claims.roles.Some? && cfg.adminRole in claims.roles.value
  }

  /** The subject first. */
  lemma AdminFindsCarrier(cfg: Config, db: Db, claims: Claims, pk: Pk)
    requires Valid(cfg, db) && cfg.placement != Nowhere && FirstCarrier(cfg, db, pk, claims.sub)
    ensures AdminFind(cfg, db, claims) == (db, Some(pk))
  {
    FindsFirstCarrier(cfg, db, claims.sub, pk);
  }

  /** Then the username. */
  lemma AdminFindsNamed(cfg: Config, db: Db, claims: Claims, pk: Pk)
    requires Valid(cfg, db) && NoSubjectMatch(cfg, db, claims.sub) && FirstNamed(cfg, db, pk, claims.sub)
    ensures AdminFind(cfg, db, claims) == (db, Some(pk))
  {
    FindsFirstCarrier(cfg, db, claims.sub, pk);
    NameFindsFirst(cfg, db, claims.sub, pk);
  }

  /** Then the bootstrap, for role holders only. */
  lemma AdminFindsLinked(cfg: Config, db: Db, claims: Claims, pk: Pk)
    requires Valid(cfg, db) && cfg.placement != Nowhere
    requires NobodyCarries(cfg, db, claims.sub) && NobodyNamed(cfg, db, claims.sub)
    requires HasRole(cfg, claims) && LinksTo(cfg, db, claims, pk)
    ensures AdminFind(cfg, db, claims) == (Rewritten(db, pk, claims.sub), Some(pk))
  {
    FindsFirstCarrier(cfg, db, claims.sub, pk);
    NameFindsFirst(cfg, db, claims.sub, pk);
    LinkEnds(cfg, db, claims, pk);
  }

  /** And else nobody, with nothing written. */
  lemma AdminFindsNobody(cfg: Config, db: Db, claims: Claims)
    requires Valid(cfg, db) && NoSubjectMatch(cfg, db, claims.sub) && NobodyNamed(cfg, db, claims.sub)
    requires cfg.placement == Nowhere || !HasRole(cfg, claims) || LinksNobody(cfg, db, claims)
    ensures AdminFind(cfg, db, claims) == (db, None)
  {
    FindsFirstCarrier(cfg, db, claims.sub, 0);
    NameFindsFirst(cfg, db, claims.sub, 0);
    if cfg.placement != Nowhere {
      LinkEnds(cfg, db, claims, 0);
    }
  }

  // ---- the admin sign-in, once somebody or nobody was found ----

  /** A row with a local password is turned away as it is. */
  lemma LocalAccountIsRefused(cfg: Config, db: Db, claims: Claims, slot: NewRow, linked: Db, pk: Pk)
    requires Valid(cfg, db) && AdminFind(cfg, db, claims) == (linked, Some(pk))
    requires pk in linked.users && linked.users[pk].usablePassword
    ensures UserForClaims(cfg, db, claims, slot) == AdminResult(linked, Refused, None)
  {
  }

  /** Any other row has its flags set from the role, and its address too where that says nothing about who it is. */
  lemma AccountIsUpdated(cfg: Config, db: Db, claims: Claims, slot: NewRow, linked: Db, pk: Pk)
    requires Valid(cfg, db) && AdminFind(cfg, db, claims) == (linked, Some(pk))
    requires pk in linked.users && !linked.users[pk].usablePassword
    ensures
      var was, role := linked.users[pk], HasRole(cfg, claims);
      var email := if claims.email == "" || cfg.usernameIsEmail || cfg.emailUnique then was.email else claims.email;
      UserForClaims(cfg, db, claims, slot) == AdminResult(
        Db(linked.users[pk := User(was.username, email, false, true, role, role, was.listed, was.stated)], linked.rows),
        if role then Accepted(pk) else Refused, Some(pk))
  {
  }

  lemma StrangerWithoutRole(cfg: Config, db: Db, claims: Claims, slot: NewRow)
    requires Valid(cfg, db) && AdminFind(cfg, db, claims) == (db, None) && !HasRole(cfg, claims)
    ensures UserForClaims(cfg, db, claims, slot) == AdminResult(db, Refused, None)
  {
  }

  /** What the admin names a new row: the subject behind a relation, as provisioning does on the user model. */
  function AdminName(cfg: Config, claims: Claims): string {
    if cfg.placement == OnUser && claims.email != "" then claims.email else claims.sub
  }

  ghost predicate IsNewAdmin(cfg: Config, claims: Claims, user: User) {
    && (if cfg.usernameIsEmail then user.email == AdminName(cfg, claims)
        else user.username == AdminName(cfg, claims) && user.email == claims.email)
    && !user.usablePassword && user.active && user.staff && user.superuser
  }

  /** A role holder whom nothing knows gets a row with both flags, if its name is free; a name in use is refused. */
  lemma StrangerWithRole(cfg: Config, db: Db, claims: Claims, slot: NewRow)
    requires Valid(cfg, db) && AdminFind(cfg, db, claims) == (db, None) && HasRole(cfg, claims)
    ensures
      var name := AdminName(cfg, claims);
      var email := if cfg.usernameIsEmail then name else claims.email;
      var r := UserForClaims(cfg, db, claims, slot);
      if !NobodyNamed(cfg, db, name) then r == AdminResult(db, Refused, None)
      else if !IsFree(cfg, db, slot.pk, name, email)
              || (cfg.placement == OnUser && IsHeldBesides(db, slot.pk, claims.sub)) then r == AdminResult(db, Raised, None)
      else
        && r.answer == Accepted(slot.pk) && r.saved == Some(slot.pk)
        && slot.pk in r.db.users && IsNewAdmin(cfg, claims, r.db.users[slot.pk])
        && r.db.users == db.users[slot.pk := r.db.users[slot.pk]]
        && r.db.rows == (if cfg.placement == OnUser then db.rows[slot.pk := SubjectRow(Some(claims.sub), true)] else db.rows)
  {
    var name := AdminName(cfg, claims);
    NameFindsFirst(cfg, db, name, 0);
    var user := User(if cfg.usernameIsEmail then "" else name, if cfg.usernameIsEmail then name else claims.email,
                     false, true, true, true, slot.listed, slot.stated);
    InsertEnds(cfg, db, slot.pk, user, if cfg.placement == OnUser then Some(SubjectRow(Some(claims.sub), true)) else None);
    assert WithFlags(cfg, NewAdmin(cfg, claims, slot), claims) == user;
  }

  // ---- the break-glass command ----

  ghost predicate HasAddress(cfg: Config, db: Db, pk: Pk, email: string) {
    pk in db.users && db.users[pk].listed && cfg.fold(db.users[pk].email) == cfg.fold(email)
  }

  /** The account an identifier names: by its username, and only if nobody has it by an address in any case. */
  ghost predicate IsMeant(cfg: Config, db: Db, pk: Pk, identifier: string) {
    if !NobodyNamed(cfg, db, identifier) then FirstNamed(cfg, db, pk, identifier)
    else HasAddress(cfg, db, pk, identifier) && forall q | q in db.users && HasAddress(cfg, db, q, identifier) :: pk <= q
  }

  ghost predicate NobodyIsMeant(cfg: Config, db: Db, identifier: string) {
    NobodyNamed(cfg, db, identifier) && forall q | q in db.users :: !HasAddress(cfg, db, q, identifier)
  }

  lemma IdentifierMeans(cfg: Config, db: Db, identifier: string, pk: Pk)
    ensures Named(cfg, db, identifier) == Some(pk) <==> IsMeant(cfg, db, pk, identifier)
    ensures Named(cfg, db, identifier) == None <==> NobodyIsMeant(cfg, db, identifier)
  {
    NameFindsFirst(cfg, db, identifier, pk);
    assert forall q: Pk :: q in WithEmail(cfg, db, identifier) <==> q in db.users && HasAddress(cfg, db, q, identifier);
  }

  /** Opening changes three columns of the account that is meant; one that is missing is made only if that was asked for. */
  lemma OpenEnds(cfg: Config, db: Db, identifier: string, understood: bool, create: bool, slot: NewRow, pk: Pk)
    ensures understood && IsMeant(cfg, db, pk, identifier) ==>
      Open(cfg, db, identifier, understood, create, slot) ==
        (Db(db.users[pk := db.users[pk].(usablePassword := true, staff := true, active := true)], db.rows), Some(pk))
    ensures !understood || (NobodyIsMeant(cfg, db, identifier) && !create) ==>
      Open(cfg, db, identifier, understood, create, slot) == (db, None)
    ensures !create ==> Open(cfg, db, identifier, understood, create, slot).0.users.Keys == db.users.Keys
  {
    IdentifierMeans(cfg, db, identifier, pk);
    var found := Named(cfg, db, identifier);
    if found.Some? {
      IdentifierMeans(cfg, db, identifier, found.value);
    }
  }

  /** And the one that is made has the identifier for its name, staff rights and a password, and no more. */
  lemma OpenCreates(cfg: Config, db: Db, identifier: string, slot: NewRow)
    requires NobodyIsMeant(cfg, db, identifier) && (slot.blankSub == None || slot.blankSub == Some(""))
    ensures
      var email := if cfg.usernameIsEmail || '@' in identifier then identifier else "";
      var (after, unlocked) := Open(cfg, db, identifier, true, true, slot);
      if IsFree(cfg, db, slot.pk, identifier, email) then
        && unlocked == Some(slot.pk) && slot.pk in after.users
        && after.users == db.users[slot.pk := after.users[slot.pk]]
        && after.rows == (if cfg.placement == OnUser then db.rows[slot.pk := SubjectRow(slot.blankSub, true)] else db.rows)
        && var user := after.users[slot.pk];
           && (cfg.usernameIsEmail || user.username == identifier) && user.email == email
           && user.usablePassword && user.active && user.staff && !user.superuser
      else (after, unlocked) == (db, None)
  {
    IdentifierMeans(cfg, db, identifier, 0);
    InsertEnds(cfg, db, slot.pk, Opened(Built(cfg, identifier, slot)), BlankRow(cfg, slot));
  }

  lemma CloseEnds(cfg: Config, db: Db, identifier: string, pk: Pk)
    ensures IsMeant(cfg, db, pk, identifier) ==>
      Close(cfg, db, identifier) ==
        (Db(db.users[pk := db.users[pk].(usablePassword := false, staff := false)], db.rows), Some(pk))
    ensures NobodyIsMeant(cfg, db, identifier) ==> Close(cfg, db, identifier) == (db, None)
  {
    IdentifierMeans(cfg, db, identifier, pk);
  }
}
