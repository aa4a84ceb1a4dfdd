/**
 Callbacks that race: the lookup, the search for a candidate, the save under the unique constraint and
 the second lookup of each are separate steps, interleaved in any order.
 */
module LinkRace {
  import opened Options
  import opened Accounts
  import opened SignIns
  import opened SubjectRoutes

  type CallId = nat

  datatype Pc = Arrived | NotFound | Picked(pk: Pk) | Conflicted | Answered(user: Option<Pk>)

  datatype Call = Call(claims: Claims, pc: Pc)

  datatype State = State(db: Db, calls: map<CallId, Call>)

  /** The row as this call saves it: the candidate with the subject set, whatever is stored by now. */
  function Saved(s: State, pk: Pk, sub: string): SubjectRow
    requires pk in s.db.rows
  {
    s.db.rows[pk].(sub := Some(sub))
  }

  ghost predicate Conflicts(s: State, pk: Pk, sub: string)
    requires pk in s.db.rows
  {
    Collides(s.db, pk, Saved(s, pk, sub))
  }

  function Move(s: State, id: CallId, pc: Pc): State
    requires id in s.calls
  {
    s.(calls := s.calls[id := s.calls[id].(pc := pc)])
  }

  ghost predicate Step(cfg: Config, s: State, t: State, id: CallId) {
    && id in s.calls
    && var call := s.calls[id];
       match call.pc
       case Arrived =>
         var found := FindBySubject(cfg, s.db, call.claims.sub);
         t == Move(s, id, if found.Some? then Answered(found) else NotFound)
       case NotFound =>
         var candidate := if MayLink(call.claims) then Candidate(cfg, s.db, call.claims.email) else None;
         t == Move(s, id, if candidate.Some? then Picked(candidate.value) else Answered(None))
       case Picked(pk) =>
         && pk in s.db.rows
         && (if Conflicts(s, pk, call.claims.sub) then t == Move(s, id, Conflicted)
             else t == Move(s, id, Answered(Some(pk))).(db := WithSubject(s.db, pk, call.claims.sub)))
       case Conflicted =>
         t == Move(s, id, Answered(FindBySubject(cfg, s.db, call.claims.sub)))
       case Answered(_) => false
  }

  ghost predicate Next(cfg: Config, s: State, t: State) {
    exists id :: Step(cfg, s, t, id)
  }

  ghost predicate Starts(cfg: Config, s: State) {
    && Valid(cfg, s.db) && !cfg.placement.Nowhere?
    && forall id | id in s.calls :: s.calls[id].pc == Arrived && s.calls[id].claims.sub != ""
  }

  ghost predicate Run(cfg: Config, trace: seq<State>) {
    && trace != [] && Starts(cfg, trace[0])
    && forall i | 0 < i < |trace| :: Next(cfg, trace[i - 1], trace[i])
  }

  // ---- what every interleaving keeps ----

  /** Two tokens the bootstrap would take for one account. */
  ghost predicate Alike(cfg: Config, a: Claims, b: Claims) {
    MayLink(a) && MayLink(b) && cfg.fold(a.email) == cfg.fold(b.email)
  }

  /** No address is proved by two subjects at once. */
  ghost predicate OneSubjectEach(cfg: Config, s: State) {
    forall a, b | a in s.calls && b in s.calls && Alike(cfg, s.calls[a].claims, s.calls[b].claims) ::
      s.calls[a].claims.sub == s.calls[b].claims.sub
  }

  /** A row that a call has picked is unlinked, or by now linked to the call's own subject. */
  ghost predicate PickIsSafe(cfg: Config, s: State, call: Call) {
    && call.claims.sub != ""
    && (call.pc.Picked? ==>
          var pk := call.pc.pk;
          && pk in s.db.rows && pk in s.db.users && MayLink(call.claims)
          && cfg.fold(s.db.users[pk].email) == cfg.fold(call.claims.email)
          && (IsBlank(s.db.rows[pk].sub) || s.db.rows[pk].sub == Some(call.claims.sub)))
  }

  ghost predicate PicksAreSafe(cfg: Config, s: State) {
    && Valid(cfg, s.db) && !cfg.placement.Nowhere? && OneSubjectEach(cfg, s)
    && forall id {:trigger s.calls[id].pc} | id in s.calls :: PickIsSafe(cfg, s, s.calls[id])
  }

  /** A save on a row that is unlinked, or already the caller's own, moves no link. */
  lemma SafeSaveKeeps(cfg: Config, db: Db, pk: Pk, sub: string)
    requires Valid(cfg, db) && pk in db.rows && (IsBlank(db.rows[pk].sub) || db.rows[pk].sub == Some(sub))
    requires !Collides(db, pk, db.rows[pk].(sub := Some(sub)))
    ensures Valid(cfg, WithSubject(db, pk, sub)) && Keeps(cfg, db, WithSubject(db, pk, sub))
  {
  }

  lemma TablesStand(cfg: Config, s: State, t: State, id: CallId)
    requires PicksAreSafe(cfg, s) && Step(cfg, s, t, id)
    ensures Valid(cfg, t.db) && Keeps(cfg, s.db, t.db) && t.db.users == s.db.users
  {
    var call := s.calls[id];
    assert PickIsSafe(cfg, s, call);
    if call.pc.Picked? && !Conflicts(s, call.pc.pk, call.claims.sub) {
      SafeSaveKeeps(cfg, s.db, call.pc.pk, call.claims.sub);
    } else {
      assert t.db == s.db;
    }
  }

  /** What a call picks is a candidate of its own address, and still unlinked. */
  lemma MoverPicksSafely(cfg: Config, s: State, t: State, id: CallId)
    requires PicksAreSafe(cfg, s) && Step(cfg, s, t, id)
    ensures PickIsSafe(cfg, t, t.calls[id])
  {
    assert PickIsSafe(cfg, s, s.calls[id]);
    assert t.calls[id].pc.Picked? ==> t.db == s.db && s.calls[id].pc.NotFound?;
  }

  /** The row that another call has picked may be linked by this step, but only to that call's own subject. */
  lemma OtherPickStaysSafe(cfg: Config, s: State, t: State, id: CallId, other: CallId)
    requires PicksAreSafe(cfg, s) && Step(cfg, s, t, id) && other in s.calls && other != id
    ensures PickIsSafe(cfg, t, t.calls[other])
  {
    var call := s.calls[id];
    assert PickIsSafe(cfg, s, call) && PickIsSafe(cfg, s, s.calls[other]);
    if call.pc.Picked? && s.calls[other].pc.Picked? && s.calls[other].pc.pk == call.pc.pk {
      assert Alike(cfg, call.claims, s.calls[other].claims);
    } else {
      assert s.calls[other].pc.Picked? ==> t.db.rows[s.calls[other].pc.pk] == s.db.rows[s.calls[other].pc.pk];
    }
  }

  lemma LinksHoldStep(cfg: Config, s: State, t: State)
    requires PicksAreSafe(cfg, s) && Next(cfg, s, t)
    ensures PicksAreSafe(cfg, t) && Keeps(cfg, s.db, t.db) && t.db.users == s.db.users
  {
    var id :| Step(cfg, s, t, id);
    TablesStand(cfg, s, t, id);
    assert t.calls.Keys == s.calls.Keys && forall c | c in s.calls :: t.calls[c].claims == s.calls[c].claims;
    forall other | other in t.calls
      ensures PickIsSafe(cfg, t, t.calls[other])
    {
      if other == id {
        MoverPicksSafely(cfg, s, t, id);
      } else {
        OtherPickStaysSafe(cfg, s, t, id, other);
      }
    }
  }

  lemma {:induction false} RunKeepsPicksSafe(cfg: Config, trace: seq<State>, i: nat)
    requires Run(cfg, trace) && i < |trace| && OneSubjectEach(cfg, trace[0])
    ensures PicksAreSafe(cfg, trace[i])
  {
    if i > 0 {
      RunKeepsPicksSafe(cfg, trace, i - 1);
      LinksHoldStep(cfg, trace[i - 1], trace[i]);
    }
  }

  lemma RunIsValid(cfg: Config, trace: seq<State>, i: nat)
    requires Run(cfg, trace) && i < |trace| && OneSubjectEach(cfg, trace[0])
    ensures Valid(cfg, trace[i].db)
    ensures i > 0 ==> Keeps(cfg, trace[i - 1].db, trace[i].db)
  {
    RunKeepsPicksSafe(cfg, trace, i);
    if i > 0 {
      RunKeepsPicksSafe(cfg, trace, i - 1);
      LinksHoldStep(cfg, trace[i - 1], trace[i]);
    }
  }

  /**
   Link permanence under concurrency.  Any number of callbacks, with any subjects, in any interleaving:
   if no address is proved by two subjects at once, no link is ever moved and the constraints hold.
   */
  lemma {:induction false} LinksHold(cfg: Config, trace: seq<State>, i: nat, j: nat)
    requires Run(cfg, trace) && i <= j < |trace| && OneSubjectEach(cfg, trace[0])
    ensures Valid(cfg, trace[j].db) && Keeps(cfg, trace[i].db, trace[j].db)
  {
    RunIsValid(cfg, trace, j);
    if i == j {
      KeepsItself(cfg, trace[i].db);
    } else {
      LinksHold(cfg, trace, i, j - 1);
      KeepsIsTransitive(cfg, trace[i].db, trace[j - 1].db, trace[j].db);
    }
  }

  /** One save keeps every link exactly if it conflicts, or finds its row unlinked or already its own. */
  lemma SaveKeepsLinks(cfg: Config, s: State, t: State, id: CallId)
    requires Valid(cfg, s.db) && Step(cfg, s, t, id) && s.calls[id].pc.Picked?
    ensures
      var pk, sub := s.calls[id].pc.pk, s.calls[id].claims.sub;
      (forall row | row in s.db.rows && !IsBlank(s.db.rows[row].sub) :: t.db.rows[row] == s.db.rows[row]) <==>
      (Conflicts(s, pk, sub) || IsBlank(s.db.rows[pk].sub) || s.db.rows[pk].sub == Some(sub))
  {
  }

  // ---- who is answered ----

  /** A row that a call has picked is a live one, and a user it is answered with carries its subject. */
  ghost predicate AnswerHolds(cfg: Config, s: State, call: Call) {
    match call.pc
    case Picked(pk) => pk in s.db.rows && s.db.rows[pk].live
    case Conflicted => exists holder :: holder in s.db.rows && s.db.rows[holder] == SubjectRow(Some(call.claims.sub), true)
    case Answered(Some(pk)) => pk in s.db.rows && s.db.rows[pk] == SubjectRow(Some(call.claims.sub), true)
    case _ => true
  }

  ghost predicate Racing(cfg: Config, s: State) {
    && PicksAreSafe(cfg, s) && HidesWhatManagerHides(cfg, s.db)
    && forall id {:trigger s.calls[id].pc} | id in s.calls :: AnswerHolds(cfg, s, s.calls[id])
  }

  lemma MoverIsAnswered(cfg: Config, s: State, t: State, id: CallId)
    requires Racing(cfg, s) && Step(cfg, s, t, id)
    ensures AnswerHolds(cfg, t, t.calls[id])
  {
    assert PickIsSafe(cfg, s, s.calls[id]) && AnswerHolds(cfg, s, s.calls[id]);
  }

  lemma RaceStep(cfg: Config, s: State, t: State)
    requires Racing(cfg, s) && Next(cfg, s, t)
    ensures Racing(cfg, t)
  {
    LinksHoldStep(cfg, s, t);
    var id :| Step(cfg, s, t, id);
    forall other | other in t.calls
      ensures AnswerHolds(cfg, t, t.calls[other])
    {
      if other == id {
        MoverIsAnswered(cfg, s, t, id);
      } else {
        assert t.calls[other] == s.calls[other] && AnswerHolds(cfg, s, s.calls[other]) && PickIsSafe(cfg, s, s.calls[other]);
      }
    }
  }

  lemma {:induction false} RunKeepsRacing(cfg: Config, trace: seq<State>, i: nat)
    requires Run(cfg, trace) && i < |trace|
    requires OneSubjectEach(cfg, trace[0]) && HidesWhatManagerHides(cfg, trace[0].db)
    ensures Racing(cfg, trace[i])
  {
    if i > 0 {
      RunKeepsRacing(cfg, trace, i - 1);
      RaceStep(cfg, trace[i - 1], trace[i]);
    }
  }

  /**
   Under the same condition every callback that is answered with a user is answered with the one live
   row that carries its subject, so all callbacks of one subject are answered alike, whoever else races.
   */
  lemma SameSubjectRace(cfg: Config, trace: seq<State>, i: nat, a: CallId, b: CallId)
    requires Run(cfg, trace) && i < |trace|
    requires OneSubjectEach(cfg, trace[0]) && HidesWhatManagerHides(cfg, trace[0].db)
    requires a in trace[i].calls && trace[i].calls[a].pc.Answered? && trace[i].calls[a].pc.user.Some?
    requires b in trace[i].calls && trace[i].calls[b].pc.Answered? && trace[i].calls[b].pc.user.Some?
    ensures
      var s := trace[i];
      var sub := s.calls[a].claims.sub;
      && (forall pk | pk in s.db.rows :: s.db.rows[pk] == SubjectRow(Some(sub), true) <==> s.calls[a].pc.user == Some(pk))
      && (s.calls[a].pc.user == s.calls[b].pc.user <==> s.calls[b].claims.sub == sub)
  {
    RunKeepsRacing(cfg, trace, i);
    var s := trace[i];
    assert AnswerHolds(cfg, s, s.calls[a]) && AnswerHolds(cfg, s, s.calls[b]);
    assert PickIsSafe(cfg, s, s.calls[a]);
  }

  /** A save that would give a second live row the subject is refused and sends its call to look again; any other is made. */
  lemma SaveOrLookAgain(cfg: Config, s: State, t: State, id: CallId)
    requires Step(cfg, s, t, id) && s.calls[id].pc.Picked?
    ensures
      var pk, sub := s.calls[id].pc.pk, s.calls[id].claims.sub;
      var taken := s.db.rows[pk].live && sub != ""
        && exists other | other in s.db.rows :: other != pk && s.db.rows[other].live && s.db.rows[other].sub == Some(sub);
      && id in t.calls
      && t.calls[id].pc == (if taken then Conflicted else Answered(Some(pk)))
      && t.db == (if taken then s.db else Db(s.db.users, s.db.rows[pk := SubjectRow(Some(sub), s.db.rows[pk].live)]))
  {
  }

  /**
   And whoever loses to the constraint is answered with the winner: the one live row that carries the
   subject by then, provided the project considers its user real.
   */
  lemma LoserGetsWinner(cfg: Config, trace: seq<State>, i: nat, id: CallId) returns (winner: Pk)
    requires Run(cfg, trace) && i + 1 < |trace|
    requires OneSubjectEach(cfg, trace[0]) && HidesWhatManagerHides(cfg, trace[0].db)
    requires id in trace[i].calls && trace[i].calls[id].pc.Conflicted? && Step(cfg, trace[i], trace[i + 1], id)
    ensures winner in trace[i].db.rows && winner in trace[i].db.users
    ensures trace[i].db.rows[winner] == SubjectRow(Some(trace[i].calls[id].claims.sub), true)
    ensures id in trace[i + 1].calls && trace[i + 1].calls[id].pc ==
      Answered(if Real(cfg, trace[i].db.users[winner]) then Some(winner) else None)
  {
    RunKeepsRacing(cfg, trace, i);
    var s := trace[i];
    var sub := s.calls[id].claims.sub;
    assert AnswerHolds(cfg, s, s.calls[id]) && PickIsSafe(cfg, s, s.calls[id]);
    winner :| winner in s.db.rows && s.db.rows[winner] == SubjectRow(Some(sub), true);
    if Real(cfg, s.db.users[winner]) {
      FindsLiveRow(cfg, s.db, winner, sub);
    } else {
      NobodyElseCarries(cfg, s.db, winner, sub);
    }
  }

  lemma NobodyElseCarries(cfg: Config, db: Db, winner: Pk, sub: string)
    requires Valid(cfg, db) && sub != "" && HidesWhatManagerHides(cfg, db)
    requires winner in db.rows && db.rows[winner] == SubjectRow(Some(sub), true) && !Real(cfg, db.users[winner])
    ensures FindBySubject(cfg, db, sub) == None
  {
  }

  // ---- a callback on its own ----

  /** What a call knows that nobody has raced so far. */
  ghost predicate AloneSoFar(cfg: Config, first: Db, s: State, call: Call)
    requires Valid(cfg, first) && !cfg.placement.Nowhere?
  {
    var claims := call.claims;
    var candidate := Candidate(cfg, first, claims.email);
    if call.pc.Answered? then (s.db, call.pc.user) == FindOrLink(cfg, first, claims)
    else
      && s.db == first
      && (call.pc != Arrived ==> FindBySubject(cfg, first, claims.sub) == None)
      && (call.pc.Picked? ==> MayLink(claims) && candidate == Some(call.pc.pk))
      && (call.pc.Conflicted? ==>
            MayLink(claims) && candidate.Some?
            && Collides(first, candidate.value, first.rows[candidate.value].(sub := Some(claims.sub))))
  }

  /**
   Undisturbed, the steps of one callback come to what the bootstrap is as a whole: the same user and
   the same tables.
   */
  lemma {:induction false} AloneIsFindOrLink(cfg: Config, alone: seq<State>, id: CallId)
    requires alone != [] && Valid(cfg, alone[0].db) && !cfg.placement.Nowhere?
    requires id in alone[0].calls && alone[0].calls[id].pc == Arrived
    requires forall i | 0 < i < |alone| :: Step(cfg, alone[i - 1], alone[i], id)
    ensures
      var s := alone[|alone| - 1];
      && id in s.calls && s.calls[id].claims == alone[0].calls[id].claims
      && AloneSoFar(cfg, alone[0].db, s, s.calls[id])
    decreases |alone|
  {
    if |alone| > 1 {
      AloneIsFindOrLink(cfg, alone[..|alone| - 1], id);
      AloneStep(cfg, alone[0].db, alone[|alone| - 2], alone[|alone| - 1], id);
    }
  }

  lemma AloneStep(cfg: Config, first: Db, s: State, t: State, id: CallId)
    requires Valid(cfg, first) && !cfg.placement.Nowhere?
    requires Step(cfg, s, t, id) && AloneSoFar(cfg, first, s, s.calls[id])
    ensures id in t.calls && t.calls[id].claims == s.calls[id].claims && AloneSoFar(cfg, first, t, t.calls[id])
  {
  }

  // ---- two subjects for one account ----

  lemma Extend(cfg: Config, trace: seq<State>, t: State, id: CallId) returns (longer: seq<State>)
    requires Run(cfg, trace) && Step(cfg, trace[|trace| - 1], t, id)
    ensures Run(cfg, longer) && longer == trace + [t]
  {
    longer := trace + [t];
    forall i | 0 < i < |longer|
      ensures Next(cfg, longer[i - 1], longer[i])
    {
      if i < |trace| {
        assert Next(cfg, trace[i - 1], trace[i]);
      }
    }
  }

  /** A token nobody is found by, which the bootstrap would write on row `pk`. */
  ghost predicate WouldClaim(cfg: Config, db: Db, claims: Claims, pk: Pk) {
    && Valid(cfg, db) && !cfg.placement.Nowhere? && claims.sub != ""
    && FindBySubject(cfg, db, claims.sub).None?
    && WouldLink(cfg, db, claims) && Candidate(cfg, db, claims.email) == Some(pk)
  }

  /** From arrival to having picked the candidate, while nothing is saved. */
  lemma Pick(cfg: Config, trace: seq<State>, id: CallId, pk: Pk) returns (picked: seq<State>)
    requires Run(cfg, trace)
    requires
      var s := trace[|trace| - 1];
      id in s.calls && s.calls[id].pc == Arrived && WouldClaim(cfg, s.db, s.calls[id].claims, pk)
    ensures Run(cfg, picked) && |picked| == |trace| + 2 && picked[0] == trace[0]
    ensures picked[|picked| - 1] == Move(trace[|trace| - 1], id, Picked(pk))
  {
    var s := trace[|trace| - 1];
    picked := Extend(cfg, trace, Move(s, id, NotFound), id);
    var t := picked[|picked| - 1];
    picked := Extend(cfg, picked, Move(t, id, Picked(pk)), id);
    assert Move(t, id, Picked(pk)).calls == Move(s, id, Picked(pk)).calls;
  }

  lemma Save(cfg: Config, trace: seq<State>, id: CallId, pk: Pk) returns (saved: seq<State>)
    requires Run(cfg, trace)
    requires
      var s := trace[|trace| - 1];
      id in s.calls && s.calls[id].pc == Picked(pk) && pk in s.db.rows && !Conflicts(s, pk, s.calls[id].claims.sub)
    ensures
      var s := trace[|trace| - 1];
      saved == trace + [Move(s, id, Answered(Some(pk))).(db := WithSubject(s.db, pk, s.calls[id].claims.sub))]
    ensures Run(cfg, saved)
  {
    var s := trace[|trace| - 1];
    saved := Extend(cfg, trace,
      Move(s, id, Answered(Some(pk))).(db := WithSubject(s.db, pk, s.calls[id].claims.sub)), id);
  }

  function Meet(db: Db, first: Claims, second: Claims): State {
    State(db, map[0 := Call(first, Arrived), 1 := Call(second, Arrived)])
  }

  lemma PickBoth(cfg: Config, db: Db, first: Claims, second: Claims, pk: Pk) returns (trace: seq<State>)
    requires WouldClaim(cfg, db, first, pk) && WouldClaim(cfg, db, second, pk)
    ensures Run(cfg, trace) && |trace| == 5 && trace[0] == Meet(db, first, second)
    ensures trace[4] == State(db, map[0 := Call(first, Picked(pk)), 1 := Call(second, Picked(pk))])
  {
    trace := [Meet(db, first, second)];
    trace := Pick(cfg, trace, 0, pk);
    trace := Pick(cfg, trace, 1, pk);
  }

  lemma FirstSaveDoesNotHinder(db: Db, after: Db, pk: Pk, first: string, second: string)
    requires pk in db.rows && after == WithSubject(db, pk, first)
    requires !Collides(db, pk, db.rows[pk].(sub := Some(second)))
    ensures !Collides(after, pk, after.rows[pk].(sub := Some(second)))
  {
  }

  lemma SaveBoth(cfg: Config, trace: seq<State>, db: Db, first: Claims, second: Claims, pk: Pk) returns (saved: seq<State>)
    requires Run(cfg, trace)
    requires trace[|trace| - 1] == State(db, map[0 := Call(first, Picked(pk)), 1 := Call(second, Picked(pk))])
    requires pk in db.rows
    requires !Collides(db, pk, db.rows[pk].(sub := Some(first.sub)))
    requires !Collides(db, pk, db.rows[pk].(sub := Some(second.sub)))
    ensures Run(cfg, saved) && |saved| == |trace| + 2 && trace == saved[..|trace|]
    ensures saved[|trace|].db == WithSubject(db, pk, first.sub)
    ensures saved[|trace| + 1] ==
      State(WithSubject(saved[|trace|].db, pk, second.sub),
            map[0 := Call(first, Answered(Some(pk))), 1 := Call(second, Answered(Some(pk)))])
  {
    saved := Save(cfg, trace, 0, pk);
    FirstSaveDoesNotHinder(db, saved[|trace|].db, pk, first.sub, second.sub);
    saved := Save(cfg, saved, 1, pk);
  }

  /** On any tables: both callbacks are answered with the row, and the second subject is written over the first. */
  lemma Overwrite(cfg: Config, db: Db, first: Claims, second: Claims, pk: Pk) returns (trace: seq<State>)
    requires WouldClaim(cfg, db, first, pk) && WouldClaim(cfg, db, second, pk)
    ensures Run(cfg, trace) && |trace| == 7 && trace[0] == Meet(db, first, second)
    ensures pk in trace[5].db.rows && trace[5].db.rows[pk].sub == Some(first.sub)
    ensures pk in trace[6].db.rows && trace[6].db.rows[pk].sub == Some(second.sub)
    ensures trace[6].calls == map[0 := Call(first, Answered(Some(pk))), 1 := Call(second, Answered(Some(pk)))]
  {
    trace := PickBoth(cfg, db, first, second, pk);
    trace := SaveBoth(cfg, trace, db, first, second, pk);
  }

  /**
   And so the condition is exact.  For two callbacks of which each alone would link a row, all their
   interleavings keep every link if and only if they are not two subjects with one address.
   */
  lemma TwoCallbacksKeepLinks(cfg: Config, db: Db, first: Claims, second: Claims, pk: Pk, qk: Pk)
    requires WouldClaim(cfg, db, first, pk) && WouldClaim(cfg, db, second, qk)
    ensures
      (forall trace: seq<State>, i: nat, j: nat
         | Run(cfg, trace) && trace[0] == Meet(db, first, second) && i <= j < |trace| ::
         Keeps(cfg, trace[i].db, trace[j].db)) <==>
      (cfg.fold(first.email) != cfg.fold(second.email) || first.sub == second.sub)
  {
    if cfg.fold(first.email) != cfg.fold(second.email) || first.sub == second.sub {
      forall trace: seq<State>, i: nat, j: nat | Run(cfg, trace) && trace[0] == Meet(db, first, second) && i <= j < |trace|
        ensures Keeps(cfg, trace[i].db, trace[j].db)
      {
        LinksHold(cfg, trace, i, j);
      }
    } else {
      var trace := Overwrite(cfg, db, first, second, pk);
      assert !Keeps(cfg, trace[5].db, trace[6].db);
    }
  }

  /** One user, never signed in, whose address two subjects can prove. */
  const ONE_ACCOUNT := Db(map[7 := Somebody("ana", "ana@example.com")], map[7 := SubjectRow(None, true)])

  /** Such an account: both callbacks return it, and the second subject stays. */
  lemma DifferentSubjectsCanOverwrite() returns (cfg: Config, trace: seq<State>)
    ensures Run(cfg, trace) && HidesWhatManagerHides(cfg, trace[0].db)
    ensures
      var s := trace[|trace| - 1];
      && s.calls.Keys == {0, 1}
      && s.calls[0].claims.sub == "a" && s.calls[0].pc == Answered(Some(7))
      && s.calls[1].claims.sub == "b" && s.calls[1].pc == Answered(Some(7))
      && 7 in s.db.rows && s.db.rows[7].sub == Some("b")
  {
    cfg := Plainly();
    var db, first := ONE_ACCOUNT, Claims("a", "ana@example.com", True, None);
    assert Holders(db, "a") == Holders(db, "b") == {} && Holders(db, "") == {7};
    assert ManagerFinds(cfg, db, "a") == ManagerFinds(cfg, db, "b") == {};
    assert ManagerUnlinked(cfg, db, "ana@example.com") == {7};
    trace := Overwrite(cfg, db, first, first.(sub := "b"), 7);
  }
}
