/**
 The whole site as a state machine: both sign-ins, every other login, logouts, the break-glass
 setting, its form and its command, in any order.
 */
module Site {
  import opened Options
  import opened Accounts
  import opened BreakGlass
  import opened SignIns

  type Browser = nat

  datatype Via = ViaGrantor | ViaBreakGlass

  /** `via` is the session key that says through which door of the admin this session came. */
  datatype Session = Session(user: Option<Pk>, via: Option<Via>)

  datatype FlagEvent = RoleSignIn(holds: bool) | GlassOpened | GlassClosed

  datatype Entry = Entry(pk: Pk, event: FlagEvent)

  /** The application's sign-in, the admin's callback, the break-glass form, any other login. */
  datatype Door = AppDoor | AdminDoor | FormDoor | OtherDoor

  datatype Happening = Entered(pk: Pk, door: Door) | FormPosted | Left

  datatype Visit = Visit(b: Browser, what: Happening)

  datatype State = State(
    db: Db,
    sessions: map<Browser, Session>,
    glass: bool,              // GRANTOR_ADMIN_BREAK_GLASS
    log: seq<Entry>,          // every write of the staff flag, in order
    visits: seq<Visit>)       // every login, posted break-glass form and logout, in order

  datatype Event =
    | SessionSignIn(b: Browser, claims: Claims, slot: NewRow)
    | AdminCallback(b: Browser, claims: Claims, slot: NewRow)
    | OtherLogin(b: Browser, pk: Pk)
    | Logout(b: Browser)
    | SetBreakGlass(on: bool)
    | GlassForm(b: Browser, accepted: Option<Pk>)
    | GlassOpen(identifier: string, understood: bool, create: bool, slot: NewRow)
    | GlassClose(identifier: string)

  const ANONYMOUS := Session(None, None)

  function SessionOf(s: State, b: Browser): Session {
    if b in s.sessions then s.sessions[b] else ANONYMOUS
  }

  /** Django's `login`: another user's session is flushed, the same user's is kept. */
  function LoggedIn(session: Session, pk: Pk): Session {
    if session.user.Some? && session.user.value != pk then Session(Some(pk), None)
    else session.(user := Some(pk))
  }

  function Enter(s: State, b: Browser, pk: Pk, door: Door): State {
    s.(sessions := s.sessions[b := LoggedIn(SessionOf(s, b), pk)], visits := s.visits + [Visit(b, Entered(pk, door))])
  }

  function Tag(s: State, b: Browser, via: Via): State {
    s.(sessions := s.sessions[b := SessionOf(s, b).(via := Some(via))])
  }

  function Logged(s: State, db: Db, written: Option<Pk>, event: FlagEvent): State {
    s.(db := db, log := if written.Some? then s.log + [Entry(written.value, event)] else s.log)
  }

  /** The answer to a posted form, after the form itself has signed somebody in or not. */
  function Post(s: State, b: Browser): State {
    var posted := s.(visits := s.visits + [Visit(b, FormPosted)]);
    if SessionOf(posted, b).user.Some? then Tag(posted, b, ViaBreakGlass) else posted
  }

  ghost predicate Enabled(s: State, e: Event) {
    match e
    case OtherLogin(_, pk) => pk in s.db.users
    case GlassForm(_, accepted) =>
      && s.glass
      && (accepted.Some? ==>
            (accepted.value in s.db.users && s.db.users[accepted.value].usablePassword
             && s.db.users[accepted.value].staff && s.db.users[accepted.value].active))
    case GlassOpen(_, _, _, slot) => IsBlank(slot.blankSub)
    case _ => true
  }

  ghost function Apply(cfg: Config, s: State, e: Event): State
    requires Valid(cfg, s.db) && Enabled(s, e)
  {
    match e
    case SessionSignIn(b, claims, slot) =>
      var (db, answer) := Authenticate(cfg, s.db, claims, slot);
      if answer.Accepted? then Enter(s.(db := db), b, answer.pk, AppDoor) else s.(db := db)
    case AdminCallback(b, claims, slot) =>
      var r := UserForClaims(cfg, s.db, claims, slot);
      var t := Logged(s, r.db, r.saved, RoleSignIn(HoldsRole(cfg, claims)));
      if r.answer.Accepted? then Tag(Enter(t, b, r.answer.pk, AdminDoor), b, ViaGrantor) else t
    case OtherLogin(b, pk) => Enter(s, b, pk, OtherDoor)
    case Logout(b) => s.(sessions := s.sessions[b := ANONYMOUS], visits := s.visits + [Visit(b, Left)])
    case SetBreakGlass(on) => s.(glass := on)
    case GlassForm(b, accepted) =>
      // Any authenticated session is tagged, whether or not this form is what signed it in.
      Post(if accepted.Some? then Enter(s, b, accepted.value, FormDoor) else s, b)
    case GlassOpen(identifier, understood, create, slot) =>
      var (db, unlocked) := Open(cfg, s.db, identifier, understood, create, slot);
      Logged(s, db, unlocked, GlassOpened)
    case GlassClose(identifier) =>
      var (db, closed) := Close(cfg, s.db, identifier);
      Logged(s, db, closed, GlassClosed)
  }

  /** `GrantorAdminSite.has_permission`. */
  ghost predicate HasPermission(s: State, b: Browser) {
    var session := SessionOf(s, b);
    && session.user.Some? && session.user.value in s.db.users
    && s.db.users[session.user.value].active && s.db.users[session.user.value].staff
    && (session.via == Some(ViaGrantor) || (session.via == Some(ViaBreakGlass) && s.glass))
  }

  ghost predicate Next(cfg: Config, s: State, t: State) {
    Valid(cfg, s.db) && exists e :: Enabled(s, e) && t == Apply(cfg, s, e)
  }

  /** A deployment as designed: no staff rows, and nobody signed in. */
  ghost predicate Starts(cfg: Config, s: State) {
    && Valid(cfg, s.db) && s.sessions == map[] && s.log == [] && s.visits == []
    && forall pk | pk in s.db.users :: !s.db.users[pk].staff
  }

  ghost predicate Run(cfg: Config, trace: seq<State>) {
    && trace != [] && Starts(cfg, trace[0])
    && forall i | 0 < i < |trace| :: Next(cfg, trace[i - 1], trace[i])
  }

  // ---- the tables over a run ----

  lemma SignInKeeps(cfg: Config, s: State, b: Browser, claims: Claims, slot: NewRow)
    requires Valid(cfg, s.db)
    ensures var t := Apply(cfg, s, SessionSignIn(b, claims, slot)); Valid(cfg, t.db) && Keeps(cfg, s.db, t.db)
  {
    AuthenticateEffect(cfg, s.db, claims, slot);
  }

  lemma AdminKeeps(cfg: Config, s: State, b: Browser, claims: Claims, slot: NewRow)
    requires Valid(cfg, s.db)
    ensures var t := Apply(cfg, s, AdminCallback(b, claims, slot)); Valid(cfg, t.db) && Keeps(cfg, s.db, t.db)
  {
    AdminEffect(cfg, s.db, claims, slot);
  }

  lemma GlassKeeps(cfg: Config, s: State, e: Event)
    requires Valid(cfg, s.db) && Enabled(s, e) && (e.GlassOpen? || e.GlassClose?)
    ensures var t := Apply(cfg, s, e); Valid(cfg, t.db) && Keeps(cfg, s.db, t.db)
  {
    if e.GlassOpen? {
      OpenEffect(cfg, s.db, e.identifier, e.understood, e.create, e.slot);
    } else {
      CloseEffect(cfg, s.db, e.identifier);
    }
  }

  lemma StepKeeps(cfg: Config, s: State, t: State)
    requires Next(cfg, s, t)
    ensures Valid(cfg, t.db) && Keeps(cfg, s.db, t.db)
  {
    var e :| Enabled(s, e) && t == Apply(cfg, s, e);
    if e.SessionSignIn? {
      SignInKeeps(cfg, s, e.b, e.claims, e.slot);
    } else if e.AdminCallback? {
      AdminKeeps(cfg, s, e.b, e.claims, e.slot);
    } else if e.GlassOpen? || e.GlassClose? {
      GlassKeeps(cfg, s, e);
    }
  }

  lemma RunIsValid(cfg: Config, trace: seq<State>, i: nat)
    requires Run(cfg, trace) && i < |trace|
    ensures Valid(cfg, trace[i].db)
    ensures i > 0 ==> Keeps(cfg, trace[i - 1].db, trace[i].db)
  {
    if i > 0 {
      StepKeeps(cfg, trace[i - 1], trace[i]);
    }
  }

  /** Over any stretch of any run: subjects are never moved, and no two live rows share one. */
  lemma {:induction false} RunKeeps(cfg: Config, trace: seq<State>, i: nat, j: nat)
    requires Run(cfg, trace) && i <= j < |trace|
    ensures Valid(cfg, trace[i].db) && Valid(cfg, trace[j].db) && Keeps(cfg, trace[i].db, trace[j].db)
  {
    RunIsValid(cfg, trace, j);
    if i == j {
      KeepsItself(cfg, trace[i].db);
    } else {
      RunKeeps(cfg, trace, i, j - 1);
      KeepsIsTransitive(cfg, trace[i].db, trace[j - 1].db, trace[j].db);
    }
  }

  // ---- the admin gate ----

  function LastFlag(log: seq<Entry>, pk: Pk): Option<FlagEvent> {
    if log == [] then None
    else if log[|log| - 1].pk == pk then Some(log[|log| - 1].event)
    else LastFlag(log[..|log| - 1], pk)
  }

  /** The last admin sign-in that wrote this row, whatever break-glass did before or after. */
  function LastRole(log: seq<Entry>, pk: Pk): Option<bool> {
    if log == [] then None
    else if log[|log| - 1].pk == pk && log[|log| - 1].event.RoleSignIn? then Some(log[|log| - 1].event.holds)
    else LastRole(log[..|log| - 1], pk)
  }

  ghost predicate Grants(event: Option<FlagEvent>) {
    event == Some(RoleSignIn(true)) || event == Some(GlassOpened)
  }

  /** The flags of every row are what the last write of them in its history says. */
  ghost predicate FlagsFollowHistory(first: Db, s: State) {
    && first.users.Keys <= s.db.users.Keys
    && (forall pk | pk in s.db.users ::
          && (s.db.users[pk].staff <==> Grants(LastFlag(s.log, pk)))
          && (s.db.users[pk].superuser <==> HeldRole(first, s.log, pk)))
    && forall i | 0 <= i < |s.log| :: s.log[i].pk in s.db.users
  }

  /** Whether the last admin sign-in that wrote the row held the role; before any, what the row was at first. */
  ghost predicate HeldRole(first: Db, log: seq<Entry>, pk: Pk) {
    match LastRole(log, pk)
    case Some(held) => held
    case None => pk in first.users && first.users[pk].superuser
  }

  lemma {:induction false} UnwrittenHasNoHistory(log: seq<Entry>, pk: Pk)
    requires forall i | 0 <= i < |log| :: log[i].pk != pk
    ensures LastFlag(log, pk) == None && LastRole(log, pk) == None
  {
    if log != [] {
      UnwrittenHasNoHistory(log[..|log| - 1], pk);
    }
  }

  /** One row written and logged, or one added; the others as they were. */
  lemma WriteFollowsHistory(first: Db, s: State, t: State, pk: Pk, event: FlagEvent)
    requires FlagsFollowHistory(first, s)
    requires t.log == s.log + [Entry(pk, event)]
    requires pk in t.db.users && t.db.users == s.db.users[pk := t.db.users[pk]]
    requires t.db.users[pk].staff <==> Grants(Some(event))
    requires t.db.users[pk].superuser <==>
      (if event.RoleSignIn? then event.holds else pk in s.db.users && s.db.users[pk].superuser)
    ensures FlagsFollowHistory(first, t)
  {
    assert t.log[..|t.log| - 1] == s.log;
    if pk !in s.db.users {
      UnwrittenHasNoHistory(s.log, pk);
    }
  }

  lemma AddFollowsHistory(first: Db, s: State, t: State, pk: Pk)
    requires FlagsFollowHistory(first, s) && pk !in s.db.users && t.log == s.log
    requires pk in t.db.users && t.db.users == s.db.users[pk := t.db.users[pk]]
    requires !t.db.users[pk].staff && !t.db.users[pk].superuser
    ensures FlagsFollowHistory(first, t)
  {
    UnwrittenHasNoHistory(s.log, pk);
  }

  /** The session sign-in writes no flag: it keeps every user, and may add one without flags. */
  lemma SignInAddsNoStaff(cfg: Config, db: Db, claims: Claims, slot: NewRow)
    requires Valid(cfg, db)
    ensures
      var after := Authenticate(cfg, db, claims, slot).0;
      after.users == db.users
      || (slot.pk !in db.users && slot.pk in after.users && after.users == db.users[slot.pk := after.users[slot.pk]]
          && !after.users[slot.pk].staff && !after.users[slot.pk].superuser)
  {
  }

  lemma SignInFlags(cfg: Config, first: Db, s: State, b: Browser, claims: Claims, slot: NewRow)
    requires Valid(cfg, s.db) && FlagsFollowHistory(first, s)
    ensures FlagsFollowHistory(first, Apply(cfg, s, SessionSignIn(b, claims, slot)))
  {
    SignInAddsNoStaff(cfg, s.db, claims, slot);
    var t := Apply(cfg, s, SessionSignIn(b, claims, slot));
    if t.db.users != s.db.users {
      AddFollowsHistory(first, s, t, slot.pk);
    }
  }

  lemma AdminFlags(cfg: Config, first: Db, s: State, b: Browser, claims: Claims, slot: NewRow)
    requires Valid(cfg, s.db) && FlagsFollowHistory(first, s)
    ensures FlagsFollowHistory(first, Apply(cfg, s, AdminCallback(b, claims, slot)))
  {
    AdminFrame(cfg, s.db, claims, slot);
    var r := UserForClaims(cfg, s.db, claims, slot);
    if r.saved.Some? {
      WriteFollowsHistory(first, s, Apply(cfg, s, AdminCallback(b, claims, slot)), r.saved.value,
                          RoleSignIn(HoldsRole(cfg, claims)));
    }
  }

  lemma GlassFlags(cfg: Config, first: Db, s: State, e: Event)
    requires Valid(cfg, s.db) && FlagsFollowHistory(first, s) && Enabled(s, e) && (e.GlassOpen? || e.GlassClose?)
    ensures FlagsFollowHistory(first, Apply(cfg, s, e))
  {
    var t := Apply(cfg, s, e);
    if e.GlassOpen? {
      OpenEffect(cfg, s.db, e.identifier, e.understood, e.create, e.slot);
    } else {
      CloseEffect(cfg, s.db, e.identifier);
    }
    if t.log != s.log {
      var entry := t.log[|s.log|];
      WriteFollowsHistory(first, s, t, entry.pk, entry.event);
    }
  }

  lemma FlagsStep(cfg: Config, first: Db, s: State, t: State)
    requires Next(cfg, s, t) && FlagsFollowHistory(first, s)
    ensures FlagsFollowHistory(first, t)
  {
    var e :| Enabled(s, e) && t == Apply(cfg, s, e);
    if e.SessionSignIn? {
      SignInFlags(cfg, first, s, e.b, e.claims, e.slot);
    } else if e.AdminCallback? {
      AdminFlags(cfg, first, s, e.b, e.claims, e.slot);
    } else if e.GlassOpen? || e.GlassClose? {
      GlassFlags(cfg, first, s, e);
    }
  }

  lemma {:induction false} RunFollowsHistory(cfg: Config, trace: seq<State>, i: nat)
    requires Run(cfg, trace) && i < |trace|
    ensures FlagsFollowHistory(trace[0].db, trace[i])
  {
    if i > 0 {
      RunFollowsHistory(cfg, trace, i - 1);
      FlagsStep(cfg, trace[0].db, trace[i - 1], trace[i]);
    }
  }

  /** Break-glass never makes a superuser, nor unmakes one: only an admin sign-in does, by the role. */
  lemma SuperusersHeldTheRole(cfg: Config, trace: seq<State>, i: nat, pk: Pk)
    requires Run(cfg, trace) && i < |trace| && pk in trace[i].db.users
    ensures trace[i].db.users[pk].superuser <==> HeldRole(trace[0].db, trace[i].log, pk)
  {
    RunFollowsHistory(cfg, trace, i);
  }

  // ---- the history of a session ----

  /** Who is signed in on a browser, by its logins and logouts alone. */
  function Occupant(visits: seq<Visit>, b: Browser): Option<Pk> {
    if visits == [] then None
    else
      var last := visits[|visits| - 1];
      if last.b != b || last.what.FormPosted? then Occupant(visits[..|visits| - 1], b)
      else if last.what.Entered? then Some(last.what.pk)
      else None
  }

  /** `u` was signed in on `b` after visit `k`, and has been ever since. */
  ghost predicate HeldSince(visits: seq<Visit>, b: Browser, u: Pk, k: nat) {
    && k < |visits| && Occupant(visits[..k + 1], b) == Some(u)
    && forall m | k < m < |visits| && visits[m].b == b ::
         visits[m].what.FormPosted? || (visits[m].what.Entered? && visits[m].what.pk == u)
  }

  /** Who may write the tag: the admin's callback when it accepts, and the break-glass form when it is posted. */
  function Writes(visit: Visit): Option<Via> {
    match visit.what
    case Entered(_, AdminDoor) => Some(ViaGrantor)
    case FormPosted => Some(ViaBreakGlass)
    case _ => None
  }

  /** Visit `k` wrote the tag while `u` was signed in on `b`, as still is the case, and nothing wrote it since. */
  ghost predicate WroteAt(visits: seq<Visit>, b: Browser, u: Pk, via: Via, k: nat) {
    && HeldSince(visits, b, u, k) && visits[k].b == b && Writes(visits[k]) == Some(via)
    && forall m | k < m < |visits| && visits[m].b == b :: Writes(visits[m]).None?
  }

  ghost predicate LastWrote(visits: seq<Visit>, b: Browser, u: Pk, via: Via) {
    exists k: nat :: WroteAt(visits, b, u, via, k)
  }

  lemma {:induction false} HeldIsOccupant(visits: seq<Visit>, b: Browser, u: Pk, k: nat)
    requires HeldSince(visits, b, u, k)
    ensures Occupant(visits, b) == Some(u)
  {
    if k + 1 == |visits| {
      assert visits[..k + 1] == visits;
    } else {
      var front := visits[..|visits| - 1];
      assert front[..k + 1] == visits[..k + 1];
      HeldIsOccupant(front, b, u, k);
    }
  }

  lemma WroteBefore(visits: seq<Visit>, visit: Visit, b: Browser, u: Pk, via: Via, k: nat)
    requires k < |visits|
    ensures WroteAt(visits + [visit], b, u, via, k) <==>
      WroteAt(visits, b, u, via, k)
      && (visit.b == b ==> Writes(visit).None? && visit.what.Entered? && visit.what.pk == u)
  {
    var longer := visits + [visit];
    assert longer[..k + 1] == visits[..k + 1];
    assert longer[|visits|] == visit && forall m | 0 <= m < |visits| :: longer[m] == visits[m];
  }

  /** One more visit, and whose write is the last one then. */
  lemma LastWroteAfter(visits: seq<Visit>, visit: Visit, b: Browser, u: Pk, via: Via)
    ensures LastWrote(visits + [visit], b, u, via) <==>
      if visit.b != b then LastWrote(visits, b, u, via)
      else match visit.what
           case Left => false
           case FormPosted => via == ViaBreakGlass && Occupant(visits, b) == Some(u)
           case Entered(pk, door) =>
             pk == u && if door.AdminDoor? then via == ViaGrantor else LastWrote(visits, b, u, via)
  {
    var longer := visits + [visit];
    assert longer[..|visits| + 1] == longer && longer[..|longer| - 1] == visits;
    assert WroteAt(longer, b, u, via, |visits|) <==>
      visit.b == b && Writes(visit) == Some(via) && Occupant(longer, b) == Some(u);
    forall k: nat | k < |visits|
      ensures WroteAt(longer, b, u, via, k) <==>
        WroteAt(visits, b, u, via, k)
        && (visit.b == b ==> Writes(visit).None? && visit.what.Entered? && visit.what.pk == u)
    {
      WroteBefore(visits, visit, b, u, via, k);
    }
  }

  /** What a session holds is what its own logins, logouts and posted forms say. */
  ghost predicate SessionFollows(s: State, b: Browser) {
    var session := SessionOf(s, b);
    && session.user == Occupant(s.visits, b)
    && match session.user
       case None => session.via.None?
       case Some(u) => forall via :: session.via == Some(via) <==> LastWrote(s.visits, b, u, via)
  }

  lemma VisitFollows(s: State, t: State, visit: Visit, b: Browser)
    requires SessionFollows(s, b) && t.visits == s.visits + [visit]
    requires
      var before, after := SessionOf(s, b), SessionOf(t, b);
      if visit.b != b then after == before
      else match visit.what
           case Left => after == ANONYMOUS
           case FormPosted => after == (if before.user.Some? then before.(via := Some(ViaBreakGlass)) else before)
           case Entered(pk, door) =>
             after == (if door.AdminDoor? then Session(Some(pk), Some(ViaGrantor)) else LoggedIn(before, pk))
    ensures SessionFollows(t, b)
  {
    assert t.visits[..|t.visits| - 1] == s.visits;
    var after := SessionOf(t, b);
    if after.user.Some? {
      var u := after.user.value;
      forall via
        ensures after.via == Some(via) <==> LastWrote(t.visits, b, u, via)
      {
        LastWroteAfter(s.visits, visit, b, u, via);
        forall k: nat | WroteAt(s.visits, b, u, via, k)
          ensures Occupant(s.visits, b) == Some(u)
        {
          HeldIsOccupant(s.visits, b, u, k);
        }
      }
    }
  }

  /** A login through any door, on tables that may have changed on the way. */
  lemma EnterFollows(s: State, changed: State, at: Browser, pk: Pk, door: Door, b: Browser)
    requires SessionFollows(s, b) && changed.sessions == s.sessions && changed.visits == s.visits
    ensures
      var entered := Enter(changed, at, pk, door);
      SessionFollows(if door.AdminDoor? then Tag(entered, at, ViaGrantor) else entered, b)
  {
    var entered := Enter(changed, at, pk, door);
    VisitFollows(s, if door.AdminDoor? then Tag(entered, at, ViaGrantor) else entered, Visit(at, Entered(pk, door)), b);
  }

  lemma PostFollows(s: State, at: Browser, accepted: Option<Pk>, b: Browser)
    requires SessionFollows(s, b)
    ensures SessionFollows(Post(if accepted.Some? then Enter(s, at, accepted.value, FormDoor) else s, at), b)
  {
    var u := if accepted.Some? then Enter(s, at, accepted.value, FormDoor) else s;
    if accepted.Some? {
      EnterFollows(s, s, at, accepted.value, FormDoor, b);
    }
    VisitFollows(u, Post(u, at), Visit(at, FormPosted), b);
  }

  lemma AdminFollows(cfg: Config, s: State, at: Browser, claims: Claims, slot: NewRow, b: Browser)
    requires Valid(cfg, s.db) && SessionFollows(s, b)
    ensures SessionFollows(Apply(cfg, s, AdminCallback(at, claims, slot)), b)
  {
    var r := UserForClaims(cfg, s.db, claims, slot);
    var t := Logged(s, r.db, r.saved, RoleSignIn(HoldsRole(cfg, claims)));
    if r.answer.Accepted? {
      EnterFollows(s, t, at, r.answer.pk, AdminDoor, b);
    }
  }

  lemma SignInFollows(cfg: Config, s: State, at: Browser, claims: Claims, slot: NewRow, b: Browser)
    requires Valid(cfg, s.db) && SessionFollows(s, b)
    ensures SessionFollows(Apply(cfg, s, SessionSignIn(at, claims, slot)), b)
  {
    var (db, answer) := Authenticate(cfg, s.db, claims, slot);
    if answer.Accepted? {
      EnterFollows(s, s.(db := db), at, answer.pk, AppDoor, b);
    }
  }

  lemma SessionStep(cfg: Config, s: State, t: State, b: Browser)
    requires Next(cfg, s, t) && SessionFollows(s, b)
    ensures SessionFollows(t, b)
  {
    var e :| Enabled(s, e) && t == Apply(cfg, s, e);
    match e {
      case SessionSignIn(at, claims, slot) => SignInFollows(cfg, s, at, claims, slot, b);
      case AdminCallback(at, claims, slot) => AdminFollows(cfg, s, at, claims, slot, b);
      case OtherLogin(at, pk) => EnterFollows(s, s, at, pk, OtherDoor, b);
      case GlassForm(at, accepted) => PostFollows(s, at, accepted, b);
      case Logout(at) => VisitFollows(s, t, Visit(at, Left), b);
      case SetBreakGlass(_) =>
      case GlassOpen(_, _, _, _) =>
      case GlassClose(_) =>
    }
  }

  lemma {:induction false} SessionHistory(cfg: Config, trace: seq<State>, i: nat, b: Browser)
    requires Run(cfg, trace) && i < |trace|
    ensures SessionFollows(trace[i], b)
  {
    if i > 0 {
      SessionHistory(cfg, trace, i - 1, b);
      SessionStep(cfg, trace[i - 1], trace[i], b);
    }
  }

  // ---- what each event does to sessions and logs ----

  /** Whom an event signs in on its browser, and through which door. */
  ghost predicate SignsIn(cfg: Config, s: State, e: Event, pk: Pk, door: Door)
    requires Valid(cfg, s.db)
  {
    match e
    case SessionSignIn(_, claims, slot) => door == AppDoor && Authenticate(cfg, s.db, claims, slot).1 == Accepted(pk)
    case AdminCallback(_, claims, slot) => door == AdminDoor && UserForClaims(cfg, s.db, claims, slot).answer == Accepted(pk)
    case OtherLogin(_, user) => door == OtherDoor && user == pk
    case GlassForm(_, accepted) => door == FormDoor && accepted == Some(pk)
    case _ => false
  }

  ghost predicate ConcernsBrowser(e: Event, b: Browser) {
    (e.SessionSignIn? || e.AdminCallback? || e.OtherLogin? || e.Logout? || e.GlassForm?) && e.b == b
  }

  /** Whoever an event accepts holds that browser's session from then on; nobody else's session is touched. */
  lemma AcceptedHoldsSession(cfg: Config, s: State, e: Event, b: Browser, pk: Pk, door: Door)
    requires Valid(cfg, s.db) && Enabled(s, e)
    ensures !ConcernsBrowser(e, b) ==> SessionOf(Apply(cfg, s, e), b) == SessionOf(s, b)
    ensures ConcernsBrowser(e, b) && SignsIn(cfg, s, e, pk, door) ==> SessionOf(Apply(cfg, s, e), b).user == Some(pk)
    ensures SignsIn(cfg, s, e, pk, door) && e.GlassForm? ==>
      s.glass && pk in s.db.users && s.db.users[pk].usablePassword && s.db.users[pk].staff && s.db.users[pk].active
    ensures ConcernsBrowser(e, b) && e.SessionSignIn? && !Authenticate(cfg, s.db, e.claims, e.slot).1.Accepted? ==>
      SessionOf(Apply(cfg, s, e), b) == SessionOf(s, b)
    ensures ConcernsBrowser(e, b) && e.AdminCallback? && !UserForClaims(cfg, s.db, e.claims, e.slot).answer.Accepted? ==>
      SessionOf(Apply(cfg, s, e), b) == SessionOf(s, b)
    ensures ConcernsBrowser(e, b) && e.Logout? ==> SessionOf(Apply(cfg, s, e), b) == Session(None, None)
    ensures ConcernsBrowser(e, b) && e.GlassForm? && e.accepted.None? ==>
      SessionOf(Apply(cfg, s, e), b).user == SessionOf(s, b).user
  {
  }

  /** Only sign-ins and the command write the tables, and the log has whose flags they wrote and to what. */
  lemma FlagWritesAreLogged(cfg: Config, s: State, e: Event, pk: Pk)
    requires Valid(cfg, s.db) && Enabled(s, e)
    ensures
      var t := Apply(cfg, s, e);
      match e
      case SessionSignIn(_, claims, slot) => t.db == Authenticate(cfg, s.db, claims, slot).0 && t.log == s.log
      case AdminCallback(_, claims, slot) =>
        var r := UserForClaims(cfg, s.db, claims, slot);
        && t.db == r.db
        && (r.saved == None ==> t.log == s.log)
        && (r.saved == Some(pk) ==> t.log == s.log + [Entry(pk, RoleSignIn(HoldsRole(cfg, claims)))])
      case GlassOpen(identifier, understood, create, slot) =>
        var (db, unlocked) := Open(cfg, s.db, identifier, understood, create, slot);
        && t.db == db
        && (unlocked == None ==> t.log == s.log)
        && (unlocked == Some(pk) ==> t.log == s.log + [Entry(pk, GlassOpened)])
      case GlassClose(identifier) =>
        var (db, closed) := Close(cfg, s.db, identifier);
        && t.db == db
        && (closed == None ==> t.log == s.log)
        && (closed == Some(pk) ==> t.log == s.log + [Entry(pk, GlassClosed)])
      case _ => t.db == s.db && t.log == s.log
  {
  }

  /** The visits say who came in by which door, who left, and where the form was posted. */
  lemma VisitsAreLogged(cfg: Config, s: State, e: Event, pk: Pk, door: Door)
    requires Valid(cfg, s.db) && Enabled(s, e)
    ensures
      var t := Apply(cfg, s, e);
      && (SignsIn(cfg, s, e, pk, door) && !e.GlassForm? ==> t.visits == s.visits + [Visit(e.b, Entered(pk, door))])
      && (SignsIn(cfg, s, e, pk, door) && e.GlassForm? ==>
            t.visits == s.visits + [Visit(e.b, Entered(pk, FormDoor)), Visit(e.b, FormPosted)])
      && (e.GlassForm? && e.accepted.None? ==> t.visits == s.visits + [Visit(e.b, FormPosted)])
      && (e.Logout? ==> t.visits == s.visits + [Visit(e.b, Left)])
      && (e.SetBreakGlass? || e.GlassOpen? || e.GlassClose? ==> t.visits == s.visits)
      && t.glass == (if e.SetBreakGlass? then e.on else s.glass)
      && (e.SessionSignIn? && !Authenticate(cfg, s.db, e.claims, e.slot).1.Accepted? ==> t.visits == s.visits)
      && (e.AdminCallback? && !UserForClaims(cfg, s.db, e.claims, e.slot).answer.Accepted? ==> t.visits == s.visits)
  {
  }

  // ---- the gate ----

  /**
   The gate, over every history from a deployment with no staff rows.  Neither the flags nor the
   session are asked: permission is decided by who signed in on the browser last, by the last admin
   sign-in or break-glass command that wrote that person's flags, and by what was last done, since
   they signed in on that browser, of the two things that open the admin.
   */
  lemma AdminGate(cfg: Config, trace: seq<State>, i: nat, b: Browser)
    requires Run(cfg, trace) && i < |trace|
    ensures
      var s := trace[i];
      HasPermission(s, b) <==>
        match Occupant(s.visits, b)
        case None => false
        case Some(u) =>
          && Grants(LastFlag(s.log, u))
          && u in s.db.users && s.db.users[u].active
          && (LastWrote(s.visits, b, u, ViaGrantor) || (s.glass && LastWrote(s.visits, b, u, ViaBreakGlass)))
  {
    RunFollowsHistory(cfg, trace, i);
    SessionHistory(cfg, trace, i, b);
  }

  /** Since `u` signed in on `b`, the admin's callback or its break-glass form let `u` in there. */
  ghost predicate ThroughOwnDoor(visits: seq<Visit>, b: Browser, u: Pk) {
    exists k: nat :: HeldSince(visits, b, u, k)
      && (visits[k] == Visit(b, Entered(u, AdminDoor)) || visits[k] == Visit(b, Entered(u, FormDoor)))
  }

  ghost predicate FormWasPosted(visits: seq<Visit>, b: Browser, u: Pk) {
    exists k: nat :: HeldSince(visits, b, u, k) && visits[k] == Visit(b, FormPosted)
  }

  lemma SomeWriteIsLast(visits: seq<Visit>, b: Browser, u: Pk, k: nat)
    requires HeldSince(visits, b, u, k) && visits[k].b == b && Writes(visits[k]).Some?
    ensures LastWrote(visits, b, u, ViaGrantor) || LastWrote(visits, b, u, ViaBreakGlass)
    decreases |visits| - k
  {
    if m: nat :| k < m < |visits| && visits[m].b == b && Writes(visits[m]).Some? {
      assert visits[..m + 1][..k + 1] == visits[..k + 1];
      HeldIsOccupant(visits[..m + 1], b, u, k);
      SomeWriteIsLast(visits, b, u, m);
    } else {
      var via := Writes(visits[k]).value;
      assert WroteAt(visits, b, u, via, k);
    }
  }

  /**
   That a tagged session is one its user opened through the admin holds exactly if they did come
   through one of the admin's own doors, or no break-glass form was posted while they were signed in.
   */
  lemma OnlyOwnDoorsTag(cfg: Config, trace: seq<State>, i: nat, b: Browser, u: Pk)
    requires Run(cfg, trace) && i < |trace| && SessionOf(trace[i], b).user == Some(u)
    ensures
      var s := trace[i];
      (SessionOf(s, b).via.Some? ==> ThroughOwnDoor(s.visits, b, u)) <==>
      (ThroughOwnDoor(s.visits, b, u) || !FormWasPosted(s.visits, b, u))
  {
    SessionHistory(cfg, trace, i, b);
    var s := trace[i];
    forall k: nat | HeldSince(s.visits, b, u, k) && s.visits[k] == Visit(b, FormPosted)
      ensures SessionOf(s, b).via.Some?
    {
      SomeWriteIsLast(s.visits, b, u, k);
    }
  }

  lemma Extend(cfg: Config, trace: seq<State>, e: Event) returns (longer: seq<State>)
    requires Run(cfg, trace) && Valid(cfg, trace[|trace| - 1].db) && Enabled(trace[|trace| - 1], e)
    ensures Run(cfg, longer) && longer == trace + [Apply(cfg, trace[|trace| - 1], e)]
  {
    longer := trace + [Apply(cfg, trace[|trace| - 1], e)];
    forall i | 0 < i < |longer|
      ensures Next(cfg, longer[i - 1], longer[i])
    {
      if i < |trace| {
        assert Next(cfg, trace[i - 1], trace[i]);
      }
    }
  }

  /** One user, whose username is their subject, of a project that keeps no subjects. */
  const ONE_USER := Db(map[7 := Somebody("ana", "ana@example.com")], map[])
  const ONE_STAFF := Db(map[7 := Somebody("ana", "ana@example.com").(staff := true, superuser := true)], map[])

  lemma AnaSignsIn(cfg: Config, claims: Claims, slot: NewRow)
    requires cfg == Plainly().(placement := Nowhere)
    requires claims == Claims("ana", "ana@example.com", True, Some(["superadmin"]))
    ensures UserForClaims(cfg, ONE_USER, claims, slot) == AdminResult(ONE_STAFF, Accepted(7), Some(7))
  {
    assert WithUsername(cfg, ONE_USER, "ana") == {7};
  }

  const ANA_TWICE := [Visit(0, Entered(7, AdminDoor)), Visit(1, Entered(7, OtherDoor))]

  lemma AnaSignsInTwice(cfg: Config) returns (trace: seq<State>)
    requires cfg == Plainly().(placement := Nowhere)
    ensures Run(cfg, trace) && |trace| == 4 && Valid(cfg, trace[3].db)
    ensures trace[3].db == ONE_STAFF && trace[3].glass && trace[3].visits == ANA_TWICE
    ensures SessionOf(trace[3], 1) == Session(Some(7), None)
  {
    var claims := Claims("ana", "ana@example.com", True, Some(["superadmin"]));
    var slot := NewRow(8, true, true, None);
    AnaSignsIn(cfg, claims, slot);
    trace := [State(ONE_USER, map[], false, [], [])];
    trace := Extend(cfg, trace, AdminCallback(0, claims, slot));
    assert trace[1].visits == [ANA_TWICE[0]] && trace[1].sessions == map[0 := Session(Some(7), Some(ViaGrantor))];
    trace := Extend(cfg, trace, OtherLogin(1, 7));
    trace := Extend(cfg, trace, SetBreakGlass(true));
  }

  /**
   A run in which it does not hold.  Ana holds the role and signs in to the admin on browser 0, so her
   flags are set.  On browser 1 she signs in elsewhere, which does not open the admin; while
   break-glass is on, a rejected form posted from there does.
   */
  lemma RejectedFormOpensAdmin() returns (cfg: Config, trace: seq<State>)
    ensures Run(cfg, trace) && |trace| == 5
    ensures Occupant(trace[3].visits, 1) == Some(7) && trace[3].glass && !HasPermission(trace[3], 1)
    ensures Valid(cfg, trace[3].db) && Enabled(trace[3], GlassForm(1, None))
    ensures trace[4] == Apply(cfg, trace[3], GlassForm(1, None)) && HasPermission(trace[4], 1)
    ensures !ThroughOwnDoor(trace[4].visits, 1, 7)
  {
    cfg := Plainly().(placement := Nowhere);
    trace := AnaSignsInTwice(cfg);
    assert ANA_TWICE[..1] == [Visit(0, Entered(7, AdminDoor))];
    trace := Extend(cfg, trace, GlassForm(1, None));
    assert trace[4].visits == ANA_TWICE + [Visit(1, FormPosted)];
  }
}
