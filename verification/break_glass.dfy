/** The management command that gives one account a password and staff rights, and takes them away. */
module BreakGlass {
  import opened Options
  import opened Accounts
  import opened SignIns

  function WithEmail(cfg: Config, db: Db, email: string): set<Pk> {
    set pk | pk in db.users && db.users[pk].listed && cfg.fold(db.users[pk].email) == cfg.fold(email)
  }

  /** The account the command names: by username, else by email. */
  function Named(cfg: Config, db: Db, identifier: string): Option<Pk> {
    var byName := ByUsername(cfg, db, identifier);
    if byName.Some? then byName else First(WithEmail(cfg, db, identifier))
  }

  function Opened(user: User): User {
    user.(usablePassword := true, staff := true, active := true)
  }

  function Closed(user: User): User {
    user.(usablePassword := false, staff := false)
  }

  function Built(cfg: Config, identifier: string, slot: NewRow): User {
    User(if cfg.usernameIsEmail then "" else identifier,
         if cfg.usernameIsEmail || '@' in identifier then identifier else "",
         false, true, false, false, slot.listed, slot.stated)
  }

  function BlankRow(cfg: Config, slot: NewRow): Option<SubjectRow> {
    if cfg.placement.OnUser? then Some(SubjectRow(slot.blankSub, true)) else None
  }

  /** The tables afterwards, and the row that was opened; None is a command error. */
  function Open(cfg: Config, db: Db, identifier: string, understood: bool, create: bool, slot: NewRow): (Db, Option<Pk>) {
    var found := Named(cfg, db, identifier);
    if !understood then (db, None)
    else if found.Some? then
      (db.(users := db.users[found.value := Opened(db.users[found.value])]), found)
    else if !create then (db, None)
    else
      match Insert(cfg, db, slot.pk, Opened(Built(cfg, identifier, slot)), BlankRow(cfg, slot))
      case Some(after) => (after, Some(slot.pk))
      case None => (db, None)
  }

  function Close(cfg: Config, db: Db, identifier: string): (Db, Option<Pk>) {
    var found := Named(cfg, db, identifier);
    if found.None? then (db, None)
    else (db.(users := db.users[found.value := Closed(db.users[found.value])]), found)
  }

  /** Opening grants a password and staff to one row, never superuser, and moves no subject. */
  lemma OpenEffect(cfg: Config, db: Db, identifier: string, understood: bool, create: bool, slot: NewRow)
    requires Valid(cfg, db) && IsBlank(slot.blankSub)
    ensures
      var (after, unlocked) := Open(cfg, db, identifier, understood, create, slot);
      && Valid(cfg, after) && Keeps(cfg, db, after)
      && (unlocked.None? ==> after == db)
      && (unlocked.Some? ==>
            (understood && unlocked.value in after.users
             && after.users == db.users[unlocked.value := after.users[unlocked.value]]
             && after.users[unlocked.value].usablePassword && after.users[unlocked.value].staff
             && (after.users[unlocked.value].superuser <==>
                 unlocked.value in db.users && db.users[unlocked.value].superuser)))
  {
    var found := Named(cfg, db, identifier);
    if found.Some? {
      SavedUserKeeps(cfg, db, found.value, Opened(db.users[found.value]));
    } else {
      InsertEffect(cfg, db, slot.pk, Opened(Built(cfg, identifier, slot)), BlankRow(cfg, slot));
    }
  }

  lemma CloseEffect(cfg: Config, db: Db, identifier: string)
    requires Valid(cfg, db)
    ensures
      var (after, closed) := Close(cfg, db, identifier);
      && Valid(cfg, after) && Keeps(cfg, db, after) && after.rows == db.rows
      && (closed.None? ==> after == db)
      && (closed.Some? ==>
            (closed.value in db.users
             && after.users == db.users[closed.value :=
                  db.users[closed.value].(usablePassword := false, staff := false)]))
  {
    var found := Named(cfg, db, identifier);
    if found.Some? {
      SavedUserKeeps(cfg, db, found.value, Closed(db.users[found.value]));
    }
  }

  lemma NamedAfterOpening(cfg: Config, db: Db, identifier: string, create: bool, slot: NewRow)
    requires Open(cfg, db, identifier, true, create, slot).1.Some?
    ensures
      var found := Named(cfg, db, identifier);
      Named(cfg, Open(cfg, db, identifier, true, create, slot).0, identifier) ==
        if found.Some? then found else if slot.listed then Some(slot.pk) else None
  {
    var found := Named(cfg, db, identifier);
    var after := Open(cfg, db, identifier, true, create, slot).0;
    if found.Some? {
      assert WithUsername(cfg, after, identifier) == WithUsername(cfg, db, identifier);
      assert WithEmail(cfg, after, identifier) == WithEmail(cfg, db, identifier);
    } else if slot.listed {
      assert WithUsername(cfg, after, identifier) == {slot.pk};
    } else {
      assert WithUsername(cfg, after, identifier) == {};
      assert WithEmail(cfg, after, identifier) == {};
    }
  }

  /**
   Closing by the same identifier undoes both grants of an opening exactly if it can find the account
   again: one that was there before is as it was, but active and without either grant; one that the
   opening created has neither grant.  An account that the project's manager does not list stays open.
   */
  lemma CloseUndoesOpen(cfg: Config, db: Db, identifier: string, create: bool, slot: NewRow)
    requires Valid(cfg, db) && Open(cfg, db, identifier, true, create, slot).1.Some?
    ensures
      var found := Named(cfg, db, identifier);
      var (after, unlocked) := Open(cfg, db, identifier, true, create, slot);
      var (end, closed) := Close(cfg, after, identifier);
      && end.rows == after.rows
      && (closed == unlocked <==> found.Some? || slot.listed)
      && (closed != unlocked ==> closed == None && end == after)
      && (found.Some? ==>
            end.rows == db.rows
            && end.users == db.users[found.value :=
              db.users[found.value].(usablePassword := false, staff := false, active := true)])
      && (found.None? && slot.listed ==> end.users == db.users[slot.pk := Built(cfg, identifier, slot)])
  {
    NamedAfterOpening(cfg, db, identifier, create, slot);
  }
}
