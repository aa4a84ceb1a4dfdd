/**
 Issuer identity to local user: the tables, the queries on them, and the two doors.

 A project's database is two tables: the users, and the rows that carry a subject, one-to-one with a
 user.  Where the subject is a column of the user model itself, every user has such a row.
 */
module Accounts {
  import opened Options

  type Pk = nat

  // ---- SQL's third truth value ----

  datatype Truth = Yes | No | Unknown

  function Of(b: bool): Truth {
    if b then Yes else No
  }

  /** `column = value`: a NULL column is neither equal nor unequal. */
  function Equals(column: Option<string>, value: string): Truth {
    if column.None? then Unknown else Of(column.value == value)
  }

  function IsNull<T>(column: Option<T>): Truth {
    Of(column.None?)
  }

  function Or(a: Truth, b: Truth): Truth {
    if a == Yes || b == Yes then Yes else if a == No && b == No then No else Unknown
  }

  function And(a: Truth, b: Truth): Truth {
    if a == No || b == No then No else if a == Yes && b == Yes then Yes else Unknown
  }

  function Not(a: Truth): Truth {
    match a case Yes => No case No => Yes case Unknown => Unknown
  }

  // ---- the tables ----

  /** `listed`: the user model's default manager returns it.  `stated`: so does `GRANTOR_USER_QUERYSET`. */
  datatype User = User(
    username: string,
    email: string,
    usablePassword: bool,
    active: bool,
    staff: bool,
    superuser: bool,
    listed: bool,
    stated: bool)

  /** `live`: the default manager of the model that carries the subject returns the row. */
  datatype SubjectRow = SubjectRow(sub: Option<string>, live: bool)

  datatype Db = Db(users: map<Pk, User>, rows: map<Pk, SubjectRow>)

  /** Where `GRANTOR_SUBJECT_FIELD` points: at no field there is, at the user model, or across a relation. */
  datatype Placement = Nowhere | OnUser | Related

  datatype Config = Config(
    placement: Placement,
    statesQueryset: bool,
    usernameIsEmail: bool,
    emailUnique: bool,
    createsUnknown: bool,
    adminRole: string,
    fold: string -> string)   // what the database's case-insensitive comparison compares

  /** A claim's JSON value, as far as `is True` can tell values apart. */
  datatype Asserted = Missing | True | False | Other(text: string)

  /** Verified ID-token claims; `roles` is None when the claim is no list. */
  datatype Claims = Claims(sub: string, email: string, emailVerified: Asserted, roles: Option<seq<string>>)

  /** What the database and the project's managers decide about a row that is inserted. */
  datatype NewRow = NewRow(pk: Pk, listed: bool, stated: bool, blankSub: Option<string>)

  function IsBlank(sub: Option<string>): bool {
    sub.None? || sub.value == ""
  }

  function UsernameOf(cfg: Config, u: User): string {
    if cfg.usernameIsEmail then u.email else u.username
  }

  /** The user half of every lookup. */
  function Real(cfg: Config, u: User): bool {
    if cfg.statesQueryset then u.stated else u.listed
  }

  function Column(db: Db, pk: Pk): Option<string> {
    if pk in db.rows then db.rows[pk].sub else None
  }

  // ---- `.first()`: the lowest primary key ----

  lemma {:induction false} LowestExists(s: set<Pk>, below: Pk, y: Pk)
    requires y in s && below <= y && forall x | x in s :: below <= x
    ensures exists m :: m in s && forall x | x in s :: m <= x
    decreases y - below
  {
    if below !in s {
      LowestExists(s, below + 1, y);
    }
  }

  function First(s: set<Pk>): (r: Option<Pk>)
    ensures r.None? <==> s == {}
    ensures r.Some? ==> r.value in s && forall x | x in s :: r.value <= x
  {
    if s == {} then None
    else
      assert exists m :: m in s && forall x | x in s :: m <= x by {
        var y :| y in s;
        LowestExists(s, 0, y);
      }
      var m :| m in s && forall x | x in s :: m <= x;
      Some(m)
  }

  // ---- the two routes to a subject ----

  function IsUnlinked(column: Option<string>): Truth {
    Or(Equals(column, ""), IsNull(column))
  }

  /** Asks the related model's own manager, then the users whose key it returned. */
  function Holders(db: Db, value: string): set<Pk> {
    set pk | pk in db.rows && db.rows[pk].live
          && (if value == "" then IsUnlinked(db.rows[pk].sub) else Equals(db.rows[pk].sub, value)) == Yes
  }

  function ManagerFinds(cfg: Config, db: Db, sub: string): set<Pk> {
    set pk | pk in db.users && Real(cfg, db.users[pk]) && pk in Holders(db, sub)
  }

  function ManagerUnlinked(cfg: Config, db: Db, email: string): set<Pk> {
    set pk | pk in db.users && Real(cfg, db.users[pk])
          && cfg.fold(db.users[pk].email) == cfg.fold(email) && pk in Holders(db, "")
  }

  /** Joins the subject table to the user table; a user with no row gets NULL in every column. */
  function JoinFinds(cfg: Config, db: Db, sub: string): set<Pk> {
    set pk | pk in db.users && Real(cfg, db.users[pk]) && Equals(Column(db, pk), sub) == Yes
  }

  function JoinedUnlinked(cfg: Config, db: Db, pk: Pk): Truth {
    var unlinked := IsUnlinked(Column(db, pk));
    if cfg.placement.Related? then And(unlinked, Not(IsNull(if pk in db.rows then Some(pk) else None))) else unlinked
  }

  function JoinUnlinked(cfg: Config, db: Db, email: string): set<Pk> {
    set pk | pk in db.users && Real(cfg, db.users[pk])
          && cfg.fold(db.users[pk].email) == cfg.fold(email) && JoinedUnlinked(cfg, db, pk) == Yes
  }

  /** Across a relation the related model's manager is asked, unless a queryset is configured. */
  function AsksManager(cfg: Config): bool {
    cfg.placement.Related? && !cfg.statesQueryset
  }

  function FindBySubject(cfg: Config, db: Db, sub: string): Option<Pk> {
    if sub == "" then None
    else First(if AsksManager(cfg) then ManagerFinds(cfg, db, sub) else JoinFinds(cfg, db, sub))
  }

  function Candidate(cfg: Config, db: Db, email: string): Option<Pk> {
    First(if AsksManager(cfg) then ManagerUnlinked(cfg, db, email) else JoinUnlinked(cfg, db, email))
  }

  // ---- the constraints ----

  /** What the unique constraint on live, non-empty subjects would object to. */
  function Collides(db: Db, pk: Pk, row: SubjectRow): bool {
    row.live && !IsBlank(row.sub)
    && exists other | other in db.rows :: other != pk && db.rows[other].live && db.rows[other].sub == row.sub
  }

  function UsernameTaken(cfg: Config, db: Db, name: string): bool {
    exists pk | pk in db.users :: UsernameOf(cfg, db.users[pk]) == name
  }

  function EmailIsIdentity(cfg: Config): bool {
    cfg.usernameIsEmail || cfg.emailUnique
  }

  function EmailTaken(db: Db, email: string): bool {
    exists pk | pk in db.users :: db.users[pk].email == email
  }

  /** The tables as the constraints keep them. */
  ghost predicate Valid(cfg: Config, db: Db) {
    && db.rows.Keys <= db.users.Keys
    && (cfg.placement.OnUser? ==> db.rows.Keys == db.users.Keys && forall pk | pk in db.rows :: db.rows[pk].live)
    && forall a, b | a in db.rows && b in db.rows && db.rows[a].live && db.rows[b].live
         && !IsBlank(db.rows[a].sub) && db.rows[a].sub == db.rows[b].sub :: a == b
  }

  // ---- the session sign-in ----

  datatype SignIn = Accepted(pk: Pk) | Refused | Raised

  function MayLink(claims: Claims): bool {
    claims.email != "" && claims.emailVerified == True
  }

  function WithSubject(db: Db, pk: Pk, sub: string): Db
    requires pk in db.rows
  {
    db.(rows := db.rows[pk := db.rows[pk].(sub := Some(sub))])
  }

  /** The one-shot bootstrap; on a conflict, whoever holds the subject. */
  function Link(cfg: Config, db: Db, claims: Claims): (Db, Option<Pk>)
    requires Valid(cfg, db) && !cfg.placement.Nowhere?
  {
    if !MayLink(claims) then (db, None)
    else
      var candidate := Candidate(cfg, db, claims.email);
      if candidate.None? then (db, None)
      else if Collides(db, candidate.value, db.rows[candidate.value].(sub := Some(claims.sub))) then
        (db, FindBySubject(cfg, db, claims.sub))
      else (WithSubject(db, candidate.value, claims.sub), candidate)
  }

  function Insert(cfg: Config, db: Db, pk: Pk, user: User, row: Option<SubjectRow>): Option<Db> {
    if pk in db.users || UsernameTaken(cfg, db, UsernameOf(cfg, user))
       || (cfg.emailUnique && EmailTaken(db, user.email))
       || (row.Some? && Collides(db, pk, row.value)) then None
    else Some(Db(db.users[pk := user], if row.Some? then db.rows[pk := row.value] else db.rows))
  }

  function OrElse(a: string, b: string): string {
    if a != "" then a else b
  }

  /** Provisioning works only where the subject is on the user model; there is no related row to write. */
  function Create(cfg: Config, db: Db, claims: Claims, slot: NewRow): (Db, SignIn) {
    if !cfg.placement.OnUser? then (db, Raised)
    else
      var name := OrElse(claims.email, claims.sub);
      var user := User(if cfg.usernameIsEmail then "" else name, if cfg.usernameIsEmail then name else claims.email,
                       false, true, false, false, slot.listed, slot.stated);
      match Insert(cfg, db, slot.pk, user, Some(SubjectRow(Some(claims.sub), true)))
      case Some(db') => (db', Accepted(slot.pk))
      case None => (db, Raised)
  }

  function IfActive(db: Db, pk: Pk): SignIn
    requires pk in db.users
  {
    if db.users[pk].active then Accepted(pk) else Refused
  }

  function FindOrLink(cfg: Config, db: Db, claims: Claims): (Db, Option<Pk>)
    requires Valid(cfg, db) && !cfg.placement.Nowhere?
  {
    var found := FindBySubject(cfg, db, claims.sub);
    if found.Some? then (db, found) else Link(cfg, db, claims)
  }

  /** `GrantorBackend.authenticate` on verified claims. */
  function Authenticate(cfg: Config, db: Db, claims: Claims, slot: NewRow): (Db, SignIn)
    requires Valid(cfg, db)
  {
    if claims.sub == "" then (db, Refused)
    else if cfg.placement.Nowhere? then (db, Raised)
    else
      var (db', found) := FindOrLink(cfg, db, claims);
      if found.Some? then (db', IfActive(db', found.value))
      else if cfg.createsUnknown then Create(cfg, db, claims, slot)
      else (db, Refused)
  }

  // ---- the admin's door ----

  /** `saved` is the row whose flags were written, whether or not the person was then let in. */
  datatype AdminResult = AdminResult(db: Db, answer: SignIn, saved: Option<Pk>)

  function HoldsRole(cfg: Config, claims: Claims): bool {
    claims.roles.Some? && cfg.adminRole in claims.roles.value
  }

  function WithUsername(cfg: Config, db: Db, name: string): set<Pk> {
    set pk | pk in db.users && db.users[pk].listed && UsernameOf(cfg, db.users[pk]) == name
  }

  function ByUsername(cfg: Config, db: Db, name: string): Option<Pk> {
    First(WithUsername(cfg, db, name))
  }

  function AdminFind(cfg: Config, db: Db, claims: Claims): (Db, Option<Pk>)
    requires Valid(cfg, db)
  {
    var found := if cfg.placement.Nowhere? then None else FindBySubject(cfg, db, claims.sub);
    if found.Some? then (db, found)
    else
      var named := ByUsername(cfg, db, claims.sub);
      if named.Some? then (db, named)
      else if !cfg.placement.Nowhere? && HoldsRole(cfg, claims) then Link(cfg, db, claims)
      else (db, None)
  }

  /** What every admin sign-in that gets that far writes on the row. */
  function WithFlags(cfg: Config, user: User, claims: Claims): User {
    var holds := HoldsRole(cfg, claims);
    user.(
      email := if claims.email != "" && !EmailIsIdentity(cfg) then claims.email else user.email,
      active := true, staff := holds, superuser := holds)
  }

  function NewAdminName(cfg: Config, claims: Claims): string {
    if cfg.placement.OnUser? then OrElse(claims.email, claims.sub) else claims.sub
  }

  function NewAdmin(cfg: Config, claims: Claims, slot: NewRow): User {
    var name := NewAdminName(cfg, claims);
    User(if cfg.usernameIsEmail then "" else name, if cfg.usernameIsEmail then name else claims.email,
         false, true, false, false, slot.listed, slot.stated)
  }

  function UserForClaims(cfg: Config, db: Db, claims: Claims, slot: NewRow): AdminResult
    requires Valid(cfg, db)
  {
    var (db', found) := AdminFind(cfg, db, claims);
    if found.None? then
      if !HoldsRole(cfg, claims) then AdminResult(db', Refused, None)
      else if ByUsername(cfg, db', NewAdminName(cfg, claims)).Some? then AdminResult(db', Refused, None)
      else
        var row := if cfg.placement.OnUser? then Some(SubjectRow(Some(claims.sub), true)) else None;
        match Insert(cfg, db', slot.pk, WithFlags(cfg, NewAdmin(cfg, claims, slot), claims), row)
        case Some(db'') => AdminResult(db'', Accepted(slot.pk), Some(slot.pk))
        case None => AdminResult(db', Raised, None)
    else
      var pk := found.value;
      if db'.users[pk].usablePassword then AdminResult(db', Refused, None)
      else
        AdminResult(db'.(users := db'.users[pk := WithFlags(cfg, db'.users[pk], claims)]),
                    if HoldsRole(cfg, claims) then Accepted(pk) else Refused, Some(pk))
  }
}
