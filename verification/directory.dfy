/**
 The tables in place: the code of both doors and of the break-glass command, step by step, each
 method proved to turn the tables into what its function says.
 */
module UserDirectory {
  import opened Options
  import opened Accounts
  import opened BreakGlass
  import opened SignIns

  class Directory {
    const cfg: Config
    var users: map<Pk, User>
    var rows: map<Pk, SubjectRow>

    function Tables(): Db
      reads this
    {
      Db(users, rows)
    }

    constructor (cfg: Config, db: Db)
      ensures this.cfg == cfg && Tables() == db
    {
      this.cfg := cfg;
      users, rows := db.users, db.rows;
    }

    /** Saves a subject row; false is the database's integrity error, which leaves it unsaved. */
    method SaveRow(pk: Pk, row: SubjectRow) returns (saved: bool)
      requires pk in rows
      modifies this`rows
      ensures saved <==> !Collides(old(Tables()), pk, row)
      ensures rows == if saved then old(rows)[pk := row] else old(rows)
    {
      saved := !Collides(Tables(), pk, row);
      if saved {
        rows := rows[pk := row];
      }
    }

    method InsertUser(pk: Pk, user: User, row: Option<SubjectRow>) returns (inserted: bool)
      modifies this
      ensures
        match Insert(cfg, old(Tables()), pk, user, row)
        case Some(db) => inserted && Tables() == db
        case None => !inserted && Tables() == old(Tables())
    {
      inserted := Insert(cfg, Tables(), pk, user, row).Some?;
      if inserted {
        users := users[pk := user];
        if row.Some? {
          rows := rows[pk := row.value];
        }
      }
    }

    method LinkByVerifiedEmail(claims: Claims) returns (found: Option<Pk>)
      requires Valid(cfg, Tables()) && !cfg.placement.Nowhere?
      modifies this`rows
      ensures (Tables(), found) == Link(cfg, old(Tables()), claims)
    {
      if claims.email == "" || claims.emailVerified != True {
        return None;
      }
      var candidate := Candidate(cfg, Tables(), claims.email);
      if candidate.None? {
        return None;
      }
      var target := rows[candidate.value].(sub := Some(claims.sub));
      var saved := SaveRow(candidate.value, target);
      if !saved {
        return FindBySubject(cfg, Tables(), claims.sub);
      }
      return candidate;
    }

    method CreateUser(claims: Claims, slot: NewRow) returns (answer: SignIn)
      requires Valid(cfg, Tables())
      modifies this
      ensures (Tables(), answer) == Create(cfg, old(Tables()), claims, slot)
    {
      if !cfg.placement.OnUser? {
        return Raised;
      }
      var user := User("", claims.email, true, true, false, false, slot.listed, slot.stated);
      var name := OrElse(claims.email, claims.sub);
      if cfg.usernameIsEmail {
        user := user.(email := name);
      } else {
        user := user.(username := name);
      }
      user := user.(usablePassword := false);
      var inserted := InsertUser(slot.pk, user, Some(SubjectRow(Some(claims.sub), true)));
      answer := if inserted then Accepted(slot.pk) else Raised;
    }

    method SignInWith(claims: Claims, slot: NewRow) returns (answer: SignIn)
      requires Valid(cfg, Tables())
      modifies this
      ensures (Tables(), answer) == Authenticate(cfg, old(Tables()), claims, slot)
    {
      if claims.sub == "" {
        return Refused;
      }
      if cfg.placement.Nowhere? {
        return Raised;
      }
      var user := FindBySubject(cfg, Tables(), claims.sub);
      if user.None? {
        user := LinkByVerifiedEmail(claims);
      }
      if user.None? && cfg.createsUnknown {
        answer := CreateUser(claims, slot);
        return;
      }
      if user.None? {
        return Refused;
      }
      answer := if users[user.value].active then Accepted(user.value) else Refused;
    }

    method FindAdmin(claims: Claims, link: bool) returns (user: Option<Pk>)
      requires Valid(cfg, Tables()) && link == HoldsRole(cfg, claims)
      modifies this`rows
      ensures (Tables(), user) == AdminFind(cfg, old(Tables()), claims)
    {
      if !cfg.placement.Nowhere? {
        user := FindBySubject(cfg, Tables(), claims.sub);
        if user.Some? {
          return;
        }
      }
      user := ByUsername(cfg, Tables(), claims.sub);
      if user.Some? {
        return;
      }
      if !cfg.placement.Nowhere? && link {
        user := LinkByVerifiedEmail(claims);
      }
    }

    method AdminSignIn(claims: Claims, slot: NewRow) returns (answer: SignIn, saved: Option<Pk>)
      requires Valid(cfg, Tables())
      modifies this
      ensures AdminResult(Tables(), answer, saved) == UserForClaims(cfg, old(Tables()), claims, slot)
    {
      var holds := HoldsRole(cfg, claims);
      var found := FindAdmin(claims, holds);
      AdminFindEffect(cfg, old(Tables()), claims);
      if found.Some? && users[found.value].usablePassword {
        return Refused, None;
      }
      var user: User;
      if found.None? {
        if !holds {
          return Refused, None;
        }
        var name := NewAdminName(cfg, claims);
        if ByUsername(cfg, Tables(), name).Some? {
          return Refused, None;
        }
        user := NewAdmin(cfg, claims, slot);
      } else {
        user := users[found.value];
      }
      if claims.email != "" && !EmailIsIdentity(cfg) {
        user := user.(email := claims.email);
      }
      user := user.(active := true);
      user := user.(staff := holds);
      user := user.(superuser := holds);
      if found.None? {
        var inserted := InsertUser(slot.pk, user, NewAdminRow(cfg, claims));
        if !inserted {
          return Raised, None;
        }
        saved := Some(slot.pk);
      } else {
        users := users[found.value := user];
        saved := found;
      }
      answer := if holds then Accepted(saved.value) else Refused;
    }

    method OpenGlass(identifier: string, understood: bool, create: bool, slot: NewRow) returns (unlocked: Option<Pk>)
      modifies this
      ensures (Tables(), unlocked) == Open(cfg, old(Tables()), identifier, understood, create, slot)
    {
      var found := Named(cfg, Tables(), identifier);
      if !understood {
        return None;
      }
      var user: User;
      if found.None? {
        if !create {
          return None;
        }
        user := Built(cfg, identifier, slot);
      } else {
        user := users[found.value];
      }
      user := user.(usablePassword := true);
      user := user.(staff := true);
      user := user.(active := true);
      if found.Some? {
        users := users[found.value := user];
        return found;
      }
      var inserted := InsertUser(slot.pk, user, BlankRow(cfg, slot));
      unlocked := if inserted then Some(slot.pk) else None;
    }

    method CloseGlass(identifier: string) returns (closed: Option<Pk>)
      modifies this`users
      ensures (Tables(), closed) == Close(cfg, old(Tables()), identifier)
    {
      closed := Named(cfg, Tables(), identifier);
      if closed.Some? {
        var user := users[closed.value];
        user := user.(usablePassword := false);
        user := user.(staff := false);
        users := users[closed.value := user];
      }
    }
  }
}
