# Grantor relying party: a verified model

This project models the parts of the Grantor Python packages that decide something: which signing key
is accepted and how often the issuer is asked for keys, which local account an identity belongs to, who
may use the admin, and whether the session at the end of a sign-in belongs to the sign-in that was
started. `dafny verify dfyconfig.toml` checks all of it.

## What is modelled

**The key cache** (`jwks_*.dfy`). `Jwks` has the cache as one thread sees it: a class with the source's
fields, each method proved against a function on their values. `JwksProtocol` interleaves any number of
synchronous and asynchronous calls over those same functions. One step is one block under the cache's
lock, one reading of the clock outside it, or one end of a fetch; the TTL may change at any moment. The
issuer is a history of published key sets, and a fetch shows the set of some instant between its start
and its answer. `JwksAlone` proves that a call of the protocol which nobody disturbs keeps the class's
contract. `JwksBounds` proves what the class promises: bounded withdrawal, bounded traffic, prompt
rotation; `JwksMixed` is rotation where both kinds of call mix, and `JwksLimits` shows where the
promises end.

**Identity** (`accounts.dfy`, `resolution.dfy`, `subject_routes.dfy`, `sign_ins.dfy`, `directory.dfy`,
`permanence.dfy`, `link_race.dfy`). The database is a table of users and a table of subject rows,
one-to-one, with SQL's three-valued comparison, lowest-key `.first()`, and a unique constraint on live, non-empty subjects.
The subject may live on the user model, across a relation, or nowhere. `fold`, the database's
case-insensitive comparison, is any function. Both doors and the break-glass command are functions on
the tables; `UserDirectory.Directory` has their step-by-step code, proved equal to them, and `Resolution`
says of every way they can end, in terms of the tables' columns alone, when it is the one.

**The admin** (`break_glass.dfy`, `site.dfy`). A state machine of session sign-ins, admin callbacks, any
other login, logouts, the break-glass setting, its form and its command, with a log of every write of
the staff flag and one of every login, posted form and logout. The gate is stated on those logs alone.

**The sign-in round trip** (`sign_in_flow.dfy`, `views.dfy`, `redirects.dfy`). `start` and `callback` of
the application and of the admin, with cookies that only the server can sign but anybody may show, an
issuer that binds a code to its client and challenge (section 4.6 of RFC 7636), accepts it once
(section 4.1.2 of RFC 6749) and echoes the nonce (section 3.1.2.1 of OpenID Connect Core 1.0). Requests
may be altered on their way to the issuer. The digest is any function.

**Supporting cores**: the discovery cache (`discovery.dfy`), query strings with the decoder that must
invert them (`query_string.dfy`), and unpadded base64url (`pkce.dfy`).

## What came out of it

- The withdrawal bound, a fetch's duration plus the TTL, is exact: `JwksLimits.WithdrawalIsTight` gives,
  for every shorter wait, a run in which the withdrawn key is still returned.
- The wait of at most one window that is promised to a new `kid`
  (`packages/grantor/src/grantor/_tokens.py:92-96`) is kept for synchronous callers whose fetches succeed.
  `JwksLimits.AsyncRotationCanBeLate` and `JwksLimits.FailedFetchShutsTheWindow` give runs in which a key
  published for up to 3000 seconds is refused, the first without a failure, the second without an
  asynchronous call. What is left of the promise then: a synchronous call is refused only in a window
  whose own fetch failed (`JwksBounds.RotationIn`), and where both kinds mix and fetches take at most
  `lag`, only if it began at most `lag` after the window it is refused in opened (`JwksMixed.MixedRotationBound`).
- A configured queryset that still names the user of a hidden subject row finds that row first if its key is
  lower; `SubjectRoutes.FindsLiveRow` says exactly when.
- The two doors can let one person in as two different users (`SignIns.DoorsCanDisagree`); they agree
  exactly under the condition of `SignIns.DoorsAgree`.
- An admin token with an empty `sub` is let in by a link that is not used up
  (`SignIns.EmptySubjectIsLetIn`, and exactly then: `SignIns.EmptySubjectDoesNotLink`); the session sign-in
  refuses such a token first. The laws of the bootstrap are stated for non-empty subjects.
- A tag is documented to be written by the admin's sign-in and nothing else
  (`packages/grantor-django/src/grantor_django/admin.py:54-57`). The break-glass form tags whatever user
  the session already has, also when the form was rejected: `Site.RejectedFormOpensAdmin` is a run in which
  that opens the admin. `Site.OnlyOwnDoorsTag` gives the sessions of which the documentation is right.
- Two callbacks with different subjects for one candidate row overwrite each other on any tables
  (`LinkRace.Overwrite`); that no address is proved by two subjects at once is what keeps every link over
  every interleaving (`LinkRace.LinksHold`), and for two callbacks it is exact (`LinkRace.TwoCallbacksKeepLinks`).
- An account that `--create` makes can be closed again by its identifier exactly if the user model's
  manager lists it (`BreakGlass.CloseUndoesOpen`).

## Model

| member | source | states |
|---|---|---|
| Jwks.FirstNamed | packages/grantor/src/grantor/_tokens.py:143-146 | the scan returns a key of the set with the wanted id, any if the token has no `kid`, and nothing exactly if there is none |
| Jwks.FirstNamedIsAt | packages/grantor/src/grantor/_tokens.py:143-146 | it is the first such key |
| Jwks.NoKidTakesFirst | packages/grantor/src/grantor/_tokens.py:143-146 | a token without a `kid` is served by the first key of a set that has any |
| Jwks.JwksCache.constructor | packages/grantor/src/grantor/_tokens.py:109-126 | an empty cache, with no expiry to trust and no window open |
| Jwks.JwksCache.Holding | packages/grantor/src/grantor/_tokens.py:109-126 | a cache built with a key set holds it, with the expiry of one that was fetched at that moment |
| Jwks.JwksCache.LookupKey | packages/grantor/src/grantor/_tokens.py:128-146 | the first key for the `kid` in a set that is fresh at one reading of the clock, or in any set when freshness is not asked for |
| Jwks.JwksCache.ClaimRefetch | packages/grantor/src/grantor/_tokens.py:148-159 | granted for an empty or stale set without a record, once per window on a fresh one, with the stamp recorded |
| Jwks.JwksCache.StoreKeys | packages/grantor/src/grantor/_tokens.py:161-165 | an unusable document changes nothing; a key set replaces the old one and expires one TTL after it is stored |
| Jwks.JwksCache.SigningKey | packages/grantor/src/grantor/_tokens.py:167-189 | undisturbed: a hit is free, any other call asks at most once and only on a claim, which on a fresh set opens a window no earlier one covers; every rejection has one of the two documented reasons, a failure keeps the old set |
| Jwks.JwksCache.AsyncSigningKey | packages/grantor/src/grantor/_tokens.py:191-211 | the same contract for the path without the fetch lock |
| Jwks.Registry.CacheFor | packages/grantor/src/grantor/_tokens.py:225-235 | one cache per address; a changed TTL is adopted, moves no expiry already set, and touches no other cache |
| Jwks.Registry.Clear | packages/grantor/src/grantor/_tokens.py:238-241 | every cached set is dropped |
| JwksProtocol.RunIsSound | packages/grantor/src/grantor/_tokens.py:128-211 | in every interleaving the cache is what was stored last, stores show sets the issuer published, and a returned key came from a set that was fresh or newer than the call |
| JwksProtocol.ClaimIsJudgedByReading | packages/grantor/src/grantor/_tokens.py:148-159 | a claim is granted, denied and stamped by the clock as it was read before the lock, on the cache as it is under the lock |
| JwksAlone.AloneKeepsContract | packages/grantor/src/grantor/_tokens.py:167-211 | a call of the protocol that is not disturbed ends as the contract of the class's methods says, whichever way it goes |
| JwksProtocol.SingleFlight | packages/grantor/src/grantor/_tokens.py:98-99 | the synchronous calls under the fetch lock are exactly its one holder, so at most one is between claim and store |
| JwksBounds.BoundedStaleness | packages/grantor/src/grantor/_tokens.py:128-211 | whatever a call of either kind returns was the issuer's first answer for that `kid` at an instant at most one fetch and one TTL before the call |
| JwksBounds.WithdrawalBound | packages/grantor/src/grantor/_tokens.py:101-110 | a key gone from `w` on is returned to no call that starts at `w + L + T` or later, late lookups and overtaking stores included |
| JwksBounds.MissCeiling | packages/grantor/src/grantor/_tokens.py:91-97 | over every mixed run, successive claims granted on a fresh set are at least one interval apart and the window starts at the last of them |
| JwksBounds.AnyTwoMisses | packages/grantor/src/grantor/_tokens.py:148-159 | any two claims granted on a fresh set are an interval apart |
| JwksBounds.MissTraffic | packages/grantor/src/grantor/_tokens.py:91-97 | in a period of length D they number at most 1 + floor(D / interval), whatever the number of unknown `kid`s |
| JwksBounds.StaleClaimsAreSpaced | packages/grantor/src/grantor/_tokens.py:153-154 | for synchronous calls whose fetches succeed, claims on an empty or stale set are a TTL apart |
| JwksBounds.TrafficBound | packages/grantor/src/grantor/_tokens.py:148-189 | all claims of a period of length D number at most (1 + floor(D / interval)) + (1 + floor(D / ttl)) |
| JwksBounds.RotationIn | packages/grantor/src/grantor/_tokens.py:148-189 | a synchronous call that names a `kid` published from `w` on ends with a key of it, unless its own fetch fails or it is turned away in a window that another miss opened before `w` or whose own fetch failed |
| JwksBounds.RotationInBound | packages/grantor/src/grantor/_tokens.py:94-97 | so where no fetch fails every such call that starts one interval after `w` or later returns a key of that `kid` |
| JwksMixed.MixedRotation | packages/grantor/src/grantor/_tokens.py:148-211 | both kinds of call, fetches that take at most `lag`: a call that starts `lag` after publication ends with a key of the `kid`, or was turned away in a window opened before then, or at most `lag` before it started, or in which a set expired |
| JwksMixed.MixedRotationBound | packages/grantor/src/grantor/_tokens.py:202-207 | so with a TTL of an interval or more, a call that starts `lag` and an interval after publication is refused only if it started at most `lag` after the stamp of its window |
| JwksLimits.WithdrawalIsTight | packages/grantor/src/grantor/_tokens.py:161-165 | no shorter bound holds, for any duration of a fetch and any TTL, zero included: any earlier, and some run returns the withdrawn key |
| JwksLimits.AsyncRotationCanBeLate | packages/grantor/src/grantor/_tokens.py:202-207 | with asynchronous calls the rotation bound fails although every fetch succeeds |
| JwksLimits.FailedFetchShutsTheWindow | packages/grantor/src/grantor/_tokens.py:156-159 | with a failed fetch it fails although every call is synchronous |
| Accounts.First | packages/grantor-django/src/grantor_django/backends.py:146-152 | `.first()`: the lowest key, and nothing exactly for an empty result |
| Resolution.FindsFirstCarrier | packages/grantor-django/src/grantor_django/backends.py:146-152 | the lookup finds the real user of lowest key whose row, if in reach, has the subject, and nobody exactly if there is none |
| Resolution.CandidateIsFirstOpen | packages/grantor-django/src/grantor_django/backends.py:167-184 | the bootstrap considers the real user of lowest key with that address in any case and a row that is NULL or empty |
| Resolution.LinkEnds | packages/grantor-django/src/grantor_django/backends.py:155-203 | it writes the subject on that row and no other, and nothing where the email is unproved, no row is open or the subject is held |
| Resolution.ConflictLooksAgain | packages/grantor-django/src/grantor_django/backends.py:196-199 | a save that the constraint refuses writes nothing and answers with whoever carries the subject |
| Resolution.SessionNeedsSubject | packages/grantor-django/src/grantor_django/backends.py:223-228 | no subject is refused, and no column to look it up in is an error |
| Resolution.KnownSignsIn | packages/grantor-django/src/grantor_django/backends.py:228-235 | whoever carries the subject is signed in if active, with nothing written |
| Resolution.LinkedSignsIn | packages/grantor-django/src/grantor_django/backends.py:228-235 | whoever the bootstrap links is signed in if active, and linked in any case |
| Resolution.StrangerIsRefused | packages/grantor-django/src/grantor_django/backends.py:231-235 | where provisioning is off a stranger is refused and leaves no trace |
| Resolution.StrangerIsProvisioned | packages/grantor-django/src/grantor_django/backends.py:231-262 | where it is on a stranger gets an account named by email, else subject, without password or flags, or an error if a part of it is taken |
| Resolution.NobodyIsAddedUnasked | packages/grantor-django/src/grantor_django/backends.py:231-232 | where it is off no session sign-in adds or changes a user or adds a row |
| Resolution.AdminFindsCarrier | packages/grantor-django/src/grantor_django/admin.py:181-185 | the admin finds whoever carries the subject |
| Resolution.AdminFindsNamed | packages/grantor-django/src/grantor_django/admin.py:186-189 | else the listed user of lowest key whose username, the email where that is it, is the subject |
| Resolution.AdminFindsLinked | packages/grantor-django/src/grantor_django/admin.py:190-191 | else whom the bootstrap links, for a role holder |
| Resolution.AdminFindsNobody | packages/grantor-django/src/grantor_django/admin.py:190-192 | else nobody, with nothing written |
| Resolution.LocalAccountIsRefused | packages/grantor-django/src/grantor_django/admin.py:112-122 | an account with a local password is turned away as it is |
| Resolution.AccountIsUpdated | packages/grantor-django/src/grantor_django/admin.py:133-145 | any other gets its flags from the role, and its address unless that identifies it; only a role holder is let in |
| Resolution.StrangerWithoutRole | packages/grantor-django/src/grantor_django/admin.py:124-130 | nobody found and no role: refused, and nothing written |
| Resolution.StrangerWithRole | packages/grantor-django/src/grantor_django/admin.py:210-243 | nobody found and the role: a row with its username, subject, flags and no password; a listed name is refused, another clash is an error |
| SubjectRoutes.ManagerRouteIsJoinOnLiveRows | packages/grantor-django/src/grantor_django/backends.py:88-138 | the related-manager route answers both questions as the LEFT JOIN route does on the database without the rows the manager hides |
| SubjectRoutes.RoutesAgree | packages/grantor-django/src/grantor_django/backends.py:146-184 | where the manager hides nothing the two routes return the same user, for "holds this sub" and for "unlinked with this email" |
| SubjectRoutes.DefaultSignInRefinesStated | packages/grantor-django/src/grantor_django/backends.py:214-235 | a whole default sign-in is a stated-queryset sign-in on the visible rows: same answer, same tables |
| SubjectRoutes.HiddenRowsAreOutOfReach | packages/grantor-django/src/grantor_django/backends.py:92-99 | by default a hidden row is neither signed in nor written, whatever the claims say |
| SubjectRoutes.AcceptedCarriesSubject | packages/grantor-django/src/grantor_django/backends.py:214-235 | whoever is let in is active and carries the token's own, non-empty subject |
| SubjectRoutes.FindsLiveRow | packages/grantor-django/src/grantor_django/backends.py:146-152 | the lookup finds the live row with the subject if and only if no real user with a lower key carries it on a hidden row |
| SubjectRoutes.StatedQuerysetCanFindDeadRow | packages/grantor-django/src/grantor_django/backends.py:43-51 | a stated queryset that names a deleted person's user resolves their subject to the dead row |
| SignIns.LinkEffect | packages/grantor-django/src/grantor_django/backends.py:155-203 | a link writes the subject of one row only, one that met every condition of the bootstrap, and keeps the constraints |
| SignIns.AuthenticateEffect | packages/grantor-django/src/grantor_django/backends.py:214-262 | a session sign-in keeps the constraints, moves no subject and links at most one claimable row |
| SignIns.AdminEffect | packages/grantor-django/src/grantor_django/admin.py:94-145 | so does an admin sign-in |
| SignIns.AdminFrame | packages/grantor-django/src/grantor_django/admin.py:94-145 | one that reaches its save leaves that row's flags equal to the role even when it refuses, every other user untouched; only a role holder is let in |
| SignIns.AdminSubjectFrame | packages/grantor-django/src/grantor_django/admin.py:110-131 | without the role no row is added and no subject written; with it a subject changes only on a claimable row, the saved one or one with a local password |
| SignIns.DoorsAgree | packages/grantor-django/src/grantor_django/admin.py:168-192 | the exact condition under which both doors return the same user and the same tables |
| SignIns.DoorsCanDisagree | packages/grantor-django/src/grantor_django/admin.py:171-181 | a database and a role holder whom the two doors let in as two different users |
| SignIns.EmptySubjectDoesNotLink | packages/grantor-django/src/grantor_django/admin.py:168-192 | a link leaves its row unlinked if and only if the subject is empty |
| SignIns.EmptySubjectIsLetIn | packages/grantor-django/src/grantor_django/admin.py:168-192 | a database and a role holder without a subject who is let in, by a link that leaves the row unlinked |
| UserDirectory.Directory.SaveRow | packages/grantor-django/src/grantor_django/backends.py:187-199 | a save that the unique constraint objects to is reported and leaves the row as it was |
| UserDirectory.Directory.LinkByVerifiedEmail | packages/grantor-django/src/grantor_django/backends.py:155-203 | the step-by-step bootstrap turns the tables into what `Accounts.Link` says |
| UserDirectory.Directory.CreateUser | packages/grantor-django/src/grantor_django/backends.py:237-262 | provisioning in place, with the integrity errors that end it |
| UserDirectory.Directory.SignInWith | packages/grantor-django/src/grantor_django/backends.py:214-235 | the ladder find, link, create, then the active check, on the tables in place |
| UserDirectory.Directory.FindAdmin | packages/grantor-django/src/grantor_django/admin.py:168-192 | the admin's ladder in place |
| UserDirectory.Directory.AdminSignIn | packages/grantor-django/src/grantor_django/admin.py:94-145 | the admin sign-in in place, flag by flag |
| UserDirectory.Directory.OpenGlass | packages/grantor-django/src/grantor_django/management/commands/grantor_break_glass.py:76-125 | the command that opens, in place |
| UserDirectory.Directory.CloseGlass | packages/grantor-django/src/grantor_django/management/commands/grantor_break_glass.py:174-180 | the command that closes, in place |
| BreakGlass.OpenEffect | packages/grantor-django/src/grantor_django/management/commands/grantor_break_glass.py:76-125 | only with the acknowledgement, one row gets a password and staff, never superuser, and no subject moves |
| Resolution.IdentifierMeans | packages/grantor-django/src/grantor_django/management/commands/grantor_break_glass.py:81-84 | an identifier means the listed account of that username, else of that address in any case, lowest key first |
| Resolution.OpenEnds | packages/grantor-django/src/grantor_django/management/commands/grantor_break_glass.py:92-125 | opening changes three columns of the account that is meant; without `--create` no account is added |
| Resolution.OpenCreates | packages/grantor-django/src/grantor_django/management/commands/grantor_break_glass.py:100-125 | with it one account is made, named by the identifier, with staff rights and a password and no more |
| Resolution.CloseEnds | packages/grantor-django/src/grantor_django/management/commands/grantor_break_glass.py:86-90 | closing takes both grants from the account that is meant |
| BreakGlass.CloseEffect | packages/grantor-django/src/grantor_django/management/commands/grantor_break_glass.py:174-180 | the named row loses both grants, and nothing else of it or of the tables changes |
| BreakGlass.CloseUndoesOpen | packages/grantor-django/src/grantor_django/management/commands/grantor_break_glass.py:27-37 | closing by the same identifier reaches the opened row, one just created included, and undoes both grants, exactly if the row was there before or the manager lists it |
| Site.RunKeeps | packages/grantor-django/src/grantor_django/backends.py:155-203 | over any stretch of any run the constraints hold and no subject is moved |
| Site.AdminGate | packages/grantor-django/src/grantor_django/admin.py:287-304 | over every history from no staff rows: permission is exactly an active occupant of the browser whose last flag write granted staff, and for whom, since they signed in there, the last of the two ways into the admin was its callback, or its form while break-glass is on |
| Site.SessionHistory | packages/grantor-django/src/grantor_django/admin.py:287-304 | over every history a session holds whom its logins and logouts say, and the tag that was last written since that user signed in |
| Site.AcceptedHoldsSession | packages/grantor-django/src/grantor_django/admin.py:488-489 | whoever an event accepts holds that browser's session; a refusal, and any other browser, leaves sessions as they were |
| Site.VisitsAreLogged | packages/grantor-django/src/grantor_django/admin.py:488-490 | each login, logout and posted form is logged as what it was |
| Site.FlagWritesAreLogged | packages/grantor-django/src/grantor_django/admin.py:135-138 | only sign-ins and the command write the tables, and every write of flags is logged as what it was |
| Site.OnlyOwnDoorsTag | packages/grantor-django/src/grantor_django/admin.py:54-57 | a tagged session was opened through the admin exactly if its user came through the callback or the accepted form, or no form was posted in their time |
| Site.RejectedFormOpensAdmin | packages/grantor-django/src/grantor_django/admin.py:403-406 | a run in which a rejected form gives a session from elsewhere the permission it did not have |
| Site.SuperusersHeldTheRole | packages/grantor-django/src/grantor_django/admin.py:94-102 | a row is superuser exactly if the last admin sign-in that wrote it held the role, or there was none and it was one at first; break-glass changes neither |
| Permanence.LinkIsPermanent | packages/grantor-django/src/grantor_django/backends.py:155-165 | a row keeps its subject for ever and no other live row gets it |
| Permanence.ResolvesForEver | packages/grantor-django/src/grantor_django/admin.py:168-181 | every later sign-in with that subject, through either door, resolves to that row and writes no subject |
| Permanence.LinksAreConserved | packages/grantor-django/src/grantor_django/backends.py:3-6 | over every run of sign-ins, links plus rows still unlinked are the rows that were unlinked at the start |
| Permanence.LinkedOnce | packages/grantor-django/src/grantor_django/backends.py:3-6 | a row that was linked is never unlinked again, so no row is linked twice |
| LinkRace.SameSubjectRace | packages/grantor-django/src/grantor_django/backends.py:155-203 | whatever else races: each callback answered with a user is answered with the one live row of its subject, so two of them get the same row exactly if they carry the same subject |
| LinkRace.SaveOrLookAgain | packages/grantor-django/src/grantor_django/backends.py:187-199 | a save is refused exactly if another live row has the subject, writes nothing then, and sends its callback to look again |
| LinkRace.LoserGetsWinner | packages/grantor-django/src/grantor_django/backends.py:196-199 | who loses to the constraint is answered with the live row that carries the subject, if its user is real |
| LinkRace.AloneIsFindOrLink | packages/grantor-django/src/grantor_django/backends.py:146-203 | the steps of one callback, undisturbed, come to the same user and tables as the bootstrap as a whole |
| LinkRace.SaveKeepsLinks | packages/grantor-django/src/grantor_django/backends.py:187-199 | a save keeps every link exactly if it conflicts or finds its row unlinked or already its own |
| LinkRace.LinksHold | packages/grantor-django/src/grantor_django/backends.py:155-203 | any number of callbacks with any subjects: if no address is proved by two subjects at once, no interleaving moves a link or breaks a constraint |
| LinkRace.TwoCallbacksKeepLinks | packages/grantor-django/src/grantor_django/backends.py:155-203 | for two callbacks that would each link a row, every interleaving keeps every link if and only if they differ in address or agree in subject |
| LinkRace.Overwrite | packages/grantor-django/src/grantor_django/backends.py:187-199 | on any tables two subjects with one candidate have a run that writes the second over the first |
| LinkRace.DifferentSubjectsCanOverwrite | packages/grantor-django/src/grantor_django/backends.py:187-199 | two subjects, one candidate: both callbacks return the row and the second subject stays |
| SignInFlow.RoundTripAgreement | packages/grantor-django/src/grantor_django/views.py:131-234 | in every interleaving each session is for the person its code was given for, on a request with its own flow's challenge and nonce, leads to that flow's destination in time, and no code buys two sessions |
| SignInFlow.HonestAgreement | packages/grantor/src/grantor/client.py:179-207 | if only minted requests reach the issuer, and no two of them collide in digest and nonce at once, that request is the very one of the flow whose cookie was shown, door included |
| SignInFlow.HonestTripCompletes | packages/grantor-django/src/grantor_django/views.py:161-234 | an undisturbed trip ends in a session for that person at that destination exactly if it is within the cookie's age, and is answered as expired if not |
| SignInFlow.SignsInExactly | packages/grantor-django/src/grantor_django/views.py:161-234 | a callback signs in if and only if no error came, the cookie is the server's and young, the state is its flow's, code and token are good and there is an account |
| SignInFlow.RefusesExactly | packages/grantor-django/src/grantor_django/views.py:161-216 | each refusal word, by its own condition |
| SignInFlow.CallbackLeaves | packages/grantor-django/src/grantor_django/views.py:161-234 | a good code that reached the issuer is spent; only a sign-in adds a session, to its own flow's destination |
| SignInFlow.TokenWins | packages/grantor-django/src/grantor_django/views.py:202-209 | userinfo is used only where the token has no email, and overrides no claim of the token |
| SignInFlow.EveryAnswerClears | packages/grantor-django/src/grantor_django/views.py:102-111 | every answer of the application's callback deletes the transaction cookie; the admin's only on success |
| SignInFlow.AnsweredOnce | packages/grantor-django/src/grantor_django/views.py:7-10 | a browser that obeys cannot be signed in by going back to an answered callback, except to the admin's after a refusal |
| Views.SignInViews.Begin | packages/grantor-django/src/grantor_django/views.py:131-157 | the cookie handed out reads back as the transaction with the door's own choice of destination, and the request carries its state, nonce and challenge; an unreachable issuer leaves nothing behind |
| Views.SignInViews.Finish | packages/grantor-django/src/grantor_django/views.py:161-234 | the callback, branch by branch, does what `SignInFlow.Callback` says |
| Redirects.NextStaysOnBase | packages/grantor-django/src/grantor_django/views.py:55-99 | under a front-end base no value of `next` changes scheme or host; without one only an allowed destination is followed |
| Redirects.NextIsFollowed | packages/grantor-django/src/grantor_django/views.py:55-99 | what was asked for is followed exactly if it is a plain path, or allowed where there is no base |
| Redirects.PathNamesNoHost | packages/grantor-django/src/grantor_django/views.py:55-65 | the path alone, which is where the admin redirects to, never names a host, backslashes read as slashes; a path without host and backslash is kept |
| Discovery.ParsedSpeaks | packages/grantor/src/grantor/_discovery.py:146-168 | an accepted document names the normalized issuer and has the three endpoints; a trailing slash makes no difference |
| Discovery.ParseAccepts | packages/grantor/src/grantor/_discovery.py:146-168 | a payload is accepted exactly if it names the issuer and has text for the three endpoints, and its claims are kept as they are |
| Discovery.CacheIsLastPut | packages/grantor/src/grantor/_discovery.py:171-198 | on every key the cache is what the history says: the last accepted answer, unless cleared since |
| Discovery.HitIsSound | packages/grantor/src/grantor/_discovery.py:219-276 | every hit names the issuer asked for and is younger than the TTL of its own put |
| Discovery.LookupIsLastPut | packages/grantor/src/grantor/_discovery.py:184-190 | a lookup answers with the last accepted document while that is young enough, and else with nothing |
| Discovery.OnlyAcceptedAnswersWrite | packages/grantor/src/grantor/_discovery.py:209-246 | a failed or refused answer changes no entry, an accepted one is the next lookup's answer |
| Discovery.IssuersDoNotInterfere | packages/grantor/src/grantor/_discovery.py:171-178 | striking out every call for other issuers leaves this issuer's answers as they were |
| Discovery.DocumentCache.Discover | packages/grantor/src/grantor/_discovery.py:219-246 | a fresh entry is used without asking and changes nothing, `force` always asks, an accepted document is cached and returned |
| QueryString.QueryRoundTrip | packages/grantor/src/grantor/_requests.py:38-50 | decoding gives the endpoint's own pairs and then exactly the parameters that are not None, if and only if no fragment swallows them |
| QueryString.EncodeRoundTrip | packages/grantor/src/grantor/_requests.py:50 | decoding an encoded list of pairs gives it back, over all byte strings |
| QueryString.DecodeSplits | packages/grantor/src/grantor/_requests.py:41-44 | what is appended after `&` is decoded on its own, whatever precedes it |
| QueryString.AuthorizationUrlCarries | packages/grantor/src/grantor/_requests.py:127-171 | each of the library's own parameters that `extra` does not name reaches the issuer as given |
| QueryString.AuthorizationUrlSays | packages/grantor/src/grantor/_requests.py:127-171 | without `extra` the issuer reads the endpoint's own pairs and then each value under its own name, and nothing that is None |
| QueryString.ExtraReplaces | packages/grantor/src/grantor/_requests.py:169-170 | a parameter of `extra` is sent with its own value and no other, or not at all if that is None |
| QueryString.NonNoneSplits | packages/grantor/src/grantor/_requests.py:46-48 | leaving out what is None goes parameter by parameter, in order |
| QueryString.QuotedAs | packages/grantor/src/grantor/_requests.py:50 | which bytes stand for themselves, and how the others are written |
| Pkce.UnpaddedRoundTrip | packages/grantor/src/grantor/_pkce.py:54-62 | stripping leaves exactly ceil(4n/3) unreserved characters, and re-padding and decoding gives the bytes back |
| Pkce.DigitsAreTable2 | packages/grantor/src/grantor/_pkce.py:54-62 | the alphabet is that of Table 2 of RFC 4648 |
| Pkce.AppendixA | packages/grantor/src/grantor/_pkce.py:54-62 | the example of Appendix A of RFC 7636 |
| Pkce.ChallengesTellDigestsApart | packages/grantor/src/grantor/_pkce.py:54-62 | two digests have one challenge exactly if they are equal |
| Pkce.VerifierWindow | packages/grantor/src/grantor/_pkce.py:45-51 | a verifier is in the 43 to 128 window of section 4.1 of RFC 7636 exactly for 32 to 96 bytes of entropy; a challenge has 43 characters |

## Left out

- RotationInBound: synchronous callers with successful fetches only; `JwksLimits` shows that it is false without either condition, `RotationIn` and `MixedRotationBound` what holds then.
- MixedRotation: fetches that succeed within `lag`, counted from the clock reading of their claim; without that `AsyncRotationCanBeLate` applies.
- TrafficBound: synchronous callers with successful fetches and a TTL that does not change; `MissTraffic` is the part that holds for every run.
- ResolvesForEver: a stated queryset has to hide what the subject model's manager hides; `FindsLiveRow` is the exact condition.
- SameSubjectRace: the same condition and that of `LinksHold`, and only the steps of lookup, link and re-lookup; provisioning and other writers are not in that race.
- LinksAreConserved: sign-ins with a non-empty subject; with an empty one the admin's link is no link, see `EmptySubjectDoesNotLink`.
- NextStaysOnBase: a base with a scheme and a fallback that is a path; without a base, Django's own host check decides and is any predicate.
- The two locks are not objects: in the class a call runs undisturbed, and the interleavings are those of `JwksProtocol`, where the last step inside the fetch lock also releases it.
- A cache built with keys given in advance, which only tests do, in the protocol: every run of it starts with an empty cache.
- HTTP, JSON and timeouts: a fetch is an answer of any kind. An issuer that cannot be reached during the code exchange is one outcome, whichever of the two error words the browser is then shown.
- Signature, audience and expiry checks of tokens, SHA-256, cookie signing and the generation of secrets: verified claims, any digest function, values nobody else can sign, fresh verifiers.
- Django's ORM, session store and password hashing: a changed password does not end a session here, so the gate is proved of more sessions than Django keeps alive.
- A save writes the subject row only; that a save of a user model also writes back its other, possibly stale, columns is not modelled in the race.
- Deleting or hiding rows, and other writers of the two tables, during a run.
- The subject column being the username or the email column.
- A project's own `GRANTOR_ESTABLISH_SESSION`, its own `create_user`, and related rows it creates.
- Resource-server verification, permission classes, refresh, revocation, userinfo and end-session requests, settings checks, logging and command output: one-branch code.
