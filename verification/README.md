# The session and membership model of the identity service

This project models the two state machines of the service and the codecs that feed them, and
proves what they keep.

1. **The refresh-session protocol.** Sessions belong to families. Login opens a family, a refresh
   rotates its live session in a transaction of three statements, presenting a revoked token
   revokes the whole family, and logout, revoke-all, expiry and deactivation write the same rows.
   Proved over every run of any number of interleaved requests: each family is one path whose
   length is one plus its successful refreshes; a token is redeemed at most once; a replay ends
   its family for good; a dead family stays dead; revocation is write-once; the live-session gate
   never changes its mind from no to yes.
2. **The organization membership machine.** A handler is a sequence of database calls with local
   variables between them, and the owner count and the write it guards are different calls.
   Proved under every interleaving: each organization has exactly one owner row, its creator's;
   every membership write was authorized earlier in the same request and touches only its row;
   callers without a managing role cannot change an organization together.
3. **The codecs.** Base64url refresh tokens, the `salt$hash` password string, and the phone number
   on its way between column, integer and text: round trips and exact acceptance conditions.

## How the model is built

- `Schema` holds the tables and the constraints of the migrations. `SessionSql` and
  `MembershipSql` give the effect of each Database method as a function of tables, and `Database`
  the class `PsqlDB`, whose methods change the tables in place, statement by statement and with
  rollback, and are proved to have exactly that effect while every constraint holds after every
  statement.
- `Requests` gives each handler as a program: a program counter, the values read so far, the next
  database call, and what follows from its reply. `Machine` interleaves any number of them, one
  database call at a time, with one monotone clock; a run starts from empty tables.
- `SessionHistory`, `Integrity` and `Invariants` hold the induction over runs; `SessionRuns`,
  `Origins`, `Deactivation`, `Gate`, `Logout`, `Owners`, `Membership` and `Profile` the theorems.
- `Effects` says on the columns of the tables, without the functions that define them, when each
  database call succeeds and which rows it writes, and `Alone` the same of every request run without
  interference.
- `FirstLogin` is a concrete run, which `StaleLogin`, `LateLogout`, `LostPhone` and `LongAgent`
  continue to states where a property fails under interleaving or for an unusual client.
- `Handlers`, `Auth` and `Profile` also give the handlers as sequential code over `PsqlDB`, and
  prove that the interleaved program of each, run without interference, does the same.
- `Text`, `Decimal`, `Base64` and `Credentials` are the codecs; `Rbac` is the permission table.

`dafny verify dfyconfig.toml` checks the whole project.

What a handler draws from its environment (UUIDs, random bytes, the clock reading for the new
expiry, the verdict of the password check) is the parameter `Draw`; the sequential login computes the
verdict itself. The client's address and user
agent are part of a login or refresh request. UUIDs are never drawn twice.
SHA-256 is an injective function and Argon2 an arbitrary function that returns the requested
number of bytes. An access token is a record of subject, session, kind and expiry, and only signed
tokens are presented.

## Where the code and its documentation differ

The model follows the code.

- `docs/definitions/RBAC.md:88-92` lets an owner hand out the owner role and speaks of several
  owners. The code refuses the owner role in both handlers
  (`internal/transport/organizations/handlers.go:347`, `:449`), so there is exactly one owner
  (`Owners.ExactlyOneOwner`) and the last-owner guard refuses every time it is asked
  (`Owners.CountIsAtMostOne`). The refusal is a 422 in the code and a 409 in the text.
- `docs/definitions/RBAC.md:98` concludes that after a deactivation every later request is turned
  away at once. That holds of every access token signed until then
  (`Deactivation.DeactivationShutsOut`). A login that has read the active user before the
  deactivation can still insert a live session after it (`StaleLogin.InactiveUserCanHaveSession`);
  `Deactivation.InactiveUserRegainsSessionExactly` says that this is the only way, and with one
  request at a time it cannot happen (`Deactivation.SerialRunsLeaveNoSession`).
- `docs/definitions/AUTH.md:583` asks for an idempotent logout. The revocation is
  (`Auth.LogoutIsIdempotent`), but a second logout with the same token does not get to it: from the
  first revocation on the gate turns every request with that token away (`Logout.LogoutShutsOut`),
  and a logout alone succeeds exactly while the session is live (`Logout.LogoutAlone`).

## Limits the proofs turned up

- A login or refresh stores the User-Agent header in a column of 1024 characters and the remote
  address in an `inet` column, unchecked. With a longer header, one that is not UTF-8, or an
  address PostgreSQL does not read, the insert fails and the refresh rolls back
  (`SessionRuns.UnstorableClientBlocksRefresh`, `LongAgent.LongAgentBlocksRefresh`);
  `SessionRuns.StorableExactly` gives the exact condition and `SessionRuns.RefreshSucceedsExactly`
  has it as a conjunct.
- A logout leaves the family of its session live exactly when that session is redeemed between the
  gate and the revocation of the logout and the family has not died since
  (`Logout.LogoutEndsFamilyExactly`); it does happen (`LateLogout.LogoutCanLeaveFamilyLive`).
- A patch without a phone writes back the phone it read. If the last update in between stored
  another one, that one is lost: `Profile.OmittedPhoneKeptExactly` gives the condition and
  `LostPhone.PatchCanLosePhone` a run.
- A phone that passes validation may have fifteen digits, while the column is a 32-bit integer:
  registration then fails. `Profile.AcceptedPhoneIsStoredExactly` gives the exact condition and
  `Profile.WidePhonesAreValid` the numbers that meet the one and not the other.

## Model

| member | source | states |
|---|---|---|
| SessionRuns.FamilyIsOnePath | pkg/db/psql/psql.go:429-473 | In every state of every run a family is one path of all its rows: ordered by creation, each row replaced by the next, all but the last revoked as rotated, one subject, length one plus the successful refreshes of the family. |
| SessionRuns.ChainLength | pkg/db/psql/psql.go:341-474 | The path of a family grows by one exactly at each successful refresh of that family. |
| SessionRuns.RunKeepsChains | pkg/db/psql/psql.go:156-183 | In every run the whole session table splits into such paths, one for each family; a login starts one under a family never used before. |
| SessionRuns.RedeemedAtMostOnce | pkg/db/psql/psql.go:370-383 | In any run a refresh token is redeemed for a new session at most once. |
| SessionRuns.ReplayEndsTheFamily | pkg/db/psql/psql.go:370-383 | Once a redeemed token is presented again the reply is reuse-detected, and no token of that family, replayed or newer, is ever redeemed afterwards. |
| SessionRuns.ReuseKillsFamily | pkg/db/psql/psql.go:370-383 | Presenting the token of any revoked session, whatever revoked it, leaves its family without a live session. |
| SessionRuns.DeadFamilyStaysDead | pkg/db/psql/psql.go:341-474 | A family without a live session never gains one in any continuation of a run. |
| SessionRuns.DeadFamilyRedeemsNothing | internal/transport/auth/handlers.go:163-213 | No token of a family that was once without a live session is ever redeemed again. |
| SessionRuns.RevocationIsWriteOnce | pkg/db/psql/psql.go:511-539 | In every run revocation time and reason are set together, once, and never change; replaced_by is set exactly for rotated rows, once; identity columns never change. |
| SessionRuns.RefreshIsAllOrNothing | pkg/db/psql/psql.go:341-474 | A token of no row is not found, one of revoked rows answered with reuse, one of unrevoked rows past their time with expiry. Reuse commits exactly the revocation of the family's live rows, expiry exactly that of the one row, success exactly the linked pair of rows; every other outcome leaves all tables as they were. |
| SessionRuns.RefreshAnswersExactly | pkg/db/psql/psql.go:341-422 | From any reachable state the answer is reuse if and only if the row of the token is revoked, expired if and only if it is unrevoked and past its time, no user if and only if it is neither and its user inactive, not found if and only if no row has the hash. |
| SessionRuns.ExpiryKillsFamily | pkg/db/psql/psql.go:387-400 | In any run, presenting the unrevoked token of a session past its time marks that one row revoked as expired, changes no other row, and leaves the family without a live session. |
| Effects.ReuseRevokesFamily | pkg/db/psql/psql.go:370-383 | Reuse marks the unrevoked rows of the family, row by row, and changes nothing else. |
| Effects.ExpiryRevokesRow | pkg/db/psql/psql.go:387-400 | Expiry marks the presented row and changes nothing else; no row of its family is left unrevoked. |
| Effects.RotationIssues | pkg/db/psql/psql.go:442-457 | The row a rotation inserts has the subject and family of the rotated one, the issued hash and expiry, empty revocation columns and the client, its agent cut to the column. |
| SessionRuns.RefreshSucceedsExactly | pkg/db/psql/psql.go:341-474 | From any reachable state a refresh of a session commits if and only if the session is live and unexpired, its user active, the new id and hash unused, the new expiry ahead, and the client's address and user agent fit their columns. |
| SessionRuns.UnstorableClientBlocksRefresh | pkg/db/psql/psql.go:442-456 | A refresh that fails on its client columns alone leaves all tables, and so the presented token, as they were. |
| SessionRuns.StorableExactly | db/migrations/010-initial_auth_schema.sql:66-67 | The client columns take exactly an inet address, with no user agent or one that is UTF-8 text without NUL and of at most 1024 characters, spaces at its end not counted. |
| LongAgent.LongAgentBlocksRefresh | internal/transport/auth/handlers.go:180-200 | There is a reachable state in which a refresh commits with one client and fails, leaving the tables unchanged, with a user agent of 1025 characters and all else equal. |
| SessionRuns.RedeemedInBetween | pkg/db/psql/psql.go:341-539 | A session that is live at one state of a run and not at a later one was redeemed in between, unless its family is dead. |
| SessionRuns.RefreshesAreReplacements | pkg/db/psql/psql.go:341-474 | An event redeems a token of a family if and only if it replaces a session of that family. |
| SessionHistory.CallMakesItsChange | pkg/db/interface.go:45-60 | Every database call makes one of four changes to the session table: none, a revocation of live rows, a new session, or a replacement of a live session. |
| SessionHistory.ChangeKeepsChains | pkg/db/psql/psql.go:429-467 | Each of the four changes takes a table of paths to a table of paths. |
| SessionHistory.ReplacedExtendsChain | pkg/db/psql/psql.go:429-467 | A rotation appends its new row to the end of the path: only the last row can be live. |
| SessionHistory.LogoutIsRevocation | pkg/db/psql/psql.go:511-529 | On rows the service writes, the COALESCE update of a logout is the revocation of that row if it is live, and no change otherwise. |
| SessionHistory.DeadStaysDead | pkg/db/psql/psql.go:341-474 | No change but opening a session in a family brings a live session to a dead one. |
| SchemaLemmas.RotationStatementsAreLegal | db/migrations/010-initial_auth_schema.sql:77-99 | After each of the three statements of a rotation the family-active and hash indexes, the replaced_by foreign key and all checks hold. |
| SchemaLemmas.RotationIsItsStatements | pkg/db/psql/psql.go:429-467 | The three statements one after the other are the rotation taken at once. |
| SchemaLemmas.RotationOrderIsForced | pkg/db/psql/psql.go:424-427 | Inserting before revoking breaks the family-active index; filling replaced_by before inserting breaks its foreign key. |
| SchemaLemmas.InsertableAfterRevoke | pkg/db/psql/psql.go:445-457 | After the first statement the insert goes through exactly for a fresh id, a fresh hash, an expiry ahead and client columns that fit. |
| SchemaLemmas.InsertKeepsSchema | db/migrations/010-initial_auth_schema.sql:60-99 | A live row can be inserted if and only if the resulting table satisfies the session constraints, column types included. |
| SchemaLemmas.BackfillKeepsSchema | db/migrations/010-initial_auth_schema.sql:78-80 | replaced_by can be set if and only if it names an existing row other than its own. |
| SchemaLemmas.RevokeLiveKeepsSchema | db/migrations/010-initial_auth_schema.sql:77-99 | Revoking any set of rows violates no constraint. |
| SchemaLemmas.DeleteSubjectKeepsSchema | db/migrations/012-organizations.sql:13-45 | Deleting a subject with its cascades and SET NULLs leaves every constraint of every table satisfied. |
| Integrity.CallKeepsSound | db/migrations/010-initial_auth_schema.sql:35-99 | Every database call keeps all constraints and, beyond them: subject kinds agree with the profile tables, sessions belong to users, no phone is 0, revocation columns agree. |
| Invariants.RunKeepsInvariant | internal/transport/auth/handlers.go:28-231 | In every state of every run the tables are sound, signed tokens name existing sessions of their own subject, pending logins name users, and requests carry signed tokens. |
| Invariants.RunEvolves | pkg/db/psql/psql.go:341-539 | Along any run session rows stay and only evolve forwards. |
| Invariants.RunEvolvesUsers | pkg/db/psql/psql.go:246-276 | Along any run users stay and are never reactivated. |
| Invariants.RunGrows | internal/service/service.go:292-316 | Along any run the clock, the identifiers drawn and the tokens signed only grow. |
| Database.PsqlDB.RefreshAuthSession | pkg/db/psql/psql.go:341-474 | The transaction, statement by statement with rollback, has the effect that RefreshIsAllOrNothing characterizes, answers reuse exactly for a revoked row and expiry exactly for an unrevoked one past its time, and the constraints hold throughout. |
| Database.PsqlDB.ExecRotation | pkg/db/psql/psql.go:424-473 | The writing half: its rows-affected check always sees one row, its back-fill never fails, and an insert refused for its id, hash, expiry or client columns restores the tables. |
| Database.PsqlDB.SelectByHash | pkg/db/psql/psql.go:348-368 | The lookup joined with subjects finds the row with the hash whenever there is one, and it is the only one. |
| Database.PsqlDB.CreateAuthSession | pkg/db/psql/psql.go:156-183 | Inserts one live row with the stored form of its client, or reports the violated constraint, ill-typed client column or missing subject and changes nothing. |
| Database.PsqlDB.GetAuthSession | pkg/db/psql/psql.go:297-317 | The join with subjects loses no session: a session is found if and only if its row exists. |
| Database.PsqlDB.RevokeAuthSession | pkg/db/psql/psql.go:511-529 | Fills the empty ones of the three revocation columns of the caller's row; not found for any other subject. |
| Database.PsqlDB.RevokeAllAuthSessions | pkg/db/psql/psql.go:531-539 | Always succeeds; row by row, the unrevoked rows of the subject become revoked at this time as logged out, and every other row stays. |
| Database.PsqlDB.ListAuthSessions | pkg/db/psql/psql.go:476-509 | Lists exactly the subject's live, unexpired sessions, each once, newest first. |
| Database.PsqlDB.CreateUser | pkg/db/psql/psql.go:52-104 | Inserts subject and user together or neither: width and uniqueness violations roll the subject back. |
| Database.PsqlDB.GetUser | pkg/db/psql/psql.go:106-153 | The row selected by the conditions built from the given filters is of an active user, meets every filter, and is the only one that does; not found exactly if there is none; an error without a filter or with a NUL character. |
| Database.PsqlDB.UpdateUser | pkg/db/psql/psql.go:185-228 | Sets the three profile columns of an active user, or nothing: unparsable phone, width, uniqueness and inactive user each leave the tables as they were. |
| Database.PsqlDB.DeactivateUser | pkg/db/psql/psql.go:246-276 | Succeeds exactly for an active user; clears that user's active flag alone, revokes the user's unrevoked rows as deactivated, row by row, and no other; otherwise changes nothing. |
| Database.PsqlDB.CreateOrganization | pkg/db/psql/psql.go:560-605 | Adds subject, organization and the owner row of an active user together, or nothing: a taken id or a NUL in the profile rolls the subject back. |
| Database.PsqlDB.DeleteOrganization | pkg/db/psql/psql.go:697-717 | Deletes an organization subject with its cascades if the caller is an active member, otherwise nothing. |
| Database.PsqlDB.ListOrganizationMembers | pkg/db/psql/psql.go:719-743 | The self-join returns every membership row of the organization exactly once, oldest first, if the caller is an active member, and nothing otherwise. |
| Database.PsqlDB.JoinedCallers | db/migrations/012-organizations.sql:41 | The primary key lets the join with the caller match at most once, and exactly once for an active member. |
| Database.PsqlDB.AddOrganizationMember | pkg/db/psql/psql.go:745-776 | Adds one row, for an active target, an active member as caller and a free key; otherwise the table is unchanged. |
| Database.PsqlDB.GetOrganizationMember | pkg/db/psql/psql.go:778-798 | The join of the target's row with the caller's yields that one row if both are active members, whose role is returned, and none otherwise. |
| Database.PsqlDB.UpdateOrganizationMemberRole | pkg/db/psql/psql.go:800-823 | Changes the role of one row if the caller is an active member; otherwise the table is unchanged. |
| Database.PsqlDB.RemoveOrganizationMember | pkg/db/psql/psql.go:825-843 | Succeeds exactly if the target has a row and the caller is an active member; then that row is gone and every other stays, otherwise the table is unchanged. |
| Effects.RevokeAllTouchesOneSubject | pkg/db/psql/psql.go:531-539 | Revoke-all touches the rows of one subject only. |
| Effects.DeactivationTouchesOneUser | pkg/db/psql/psql.go:246-276 | A deactivation touches the row and the sessions of one user only, and succeeds exactly for an active one. |
| Effects.RevokeOneFillsOneRow | pkg/db/psql/psql.go:511-529 | Revoking one session succeeds exactly for a row of the subject and fills each of its three columns only where it was empty. |
| Effects.CreateSessionExactly | pkg/db/psql/psql.go:156-183 | A session can be inserted exactly for an unused id and hash, an expiry ahead, storable client columns, a family without unrevoked rows and an existing subject. |
| Effects.CreateUserExactly | pkg/db/psql/psql.go:52-104 | A user is created exactly for an unused id, a row that fits, a 32-bit phone and no clash, and the two errors are told apart. |
| Effects.CreateOrganizationExactly | pkg/db/psql/psql.go:560-605 | An organization is created exactly for an active owner, an unused id and a profile that fits, with subject and owner row. |
| Effects.DeleteOrganizationExactly | pkg/db/psql/psql.go:697-717 | A deletion succeeds exactly for an active member; subject, organization and all its membership rows go and no session or user is reached. |
| Effects.AddMemberExactly | pkg/db/psql/psql.go:745-776 | An addition succeeds exactly for an active caller with a row, an active target without one and a known role, and adds that row. |
| Effects.UpdateMemberExactly | pkg/db/psql/psql.go:800-823 | A role change succeeds exactly for an active caller with a row, a target with a row and a known role, and changes that role. |
| Effects.RemoveMemberExactly | pkg/db/psql/psql.go:825-843 | A removal succeeds exactly for an active caller with a row and a target with a row, and that row goes. |
| Effects.TwoOwnersCounted | internal/transport/organizations/handlers.go:121-136 | The owner count is at least two if and only if two different users have owner rows. |
| Origins.NewSessionsHaveAnOrigin | internal/transport/auth/handlers.go:87-213 | Every session that comes to be in a run was opened by a login whose password check passed at an earlier event of the same request, for an active user with the name and address asked for, or by redeeming a token of its family; its columns are those issued at that event. |
| Origins.VerifiedEarlier | internal/transport/auth/handlers.go:87-104 | A login about to open a session passed its password check at an earlier event of the same request, at which its user was active and had the username and email asked for, and has waited since. |
| Origins.SessionsChangeByTheirOwner | pkg/db/psql/psql.go:246-539 | In every run a stored session changes only by a refresh with a token of its family, or by a logout, revocation or account deletion with an access token of its own subject. |
| Origins.TokensAreSignedForNewSessions | internal/service/service.go:292-316 | In every run an access token comes to be signed only for the session a login or refresh has stored at that event, for its subject, with the configured time to live. |
| Origins.TokensAreUsedInTime | internal/service/service.go:166-252 | A request begins with an access token only within its time to live after the event that signed it. |
| Owners.ExactlyOneOwner | internal/transport/organizations/handlers.go:325-581 | Under every interleaving each existing organization has exactly one owner row, that of its recorded creator. |
| Owners.CreatorIsWhoCreated | pkg/db/psql/psql.go:560-605 | The recorded creator is exactly the user for whom an earlier event of the run created the organization. |
| Owners.OwnerKeepsRow | internal/transport/organizations/handlers.go:423-581 | No event of a run demotes or removes the owner while the organization exists. |
| Owners.CountIsAtMostOne | internal/transport/organizations/handlers.go:121-136 | In every such state the owner count is at most one, so the last-owner guard refuses whoever asks. |
| Owners.CallKeepsOwners | pkg/db/psql/psql.go:745-843 | Any database call a guarded request can make leaves one owner to each organization. |
| Owners.RequestsStayGuarded | internal/transport/organizations/handlers.go:440-498 | Under interleaving, a request past its guard has a target that is not the creator, however stale its reads are. |
| Membership.MembershipWriteIsAuthorized | internal/transport/organizations/handlers.go:269-581 | Under every interleaving a membership write takes effect only for a caller who is an active member at that moment and who passed the live-session gate and then authorization earlier in the same request, and changes only the row of its target; the only other event that changes memberships creates an organization. |
| Membership.WriteSucceedsExactly | pkg/db/psql/psql.go:697-843 | Each of the four membership writes succeeds if and only if the caller is an active member and the target's row, activity and role are as the operation needs; then the row is added, re-roled or gone, or the organization and its rows are gone, and otherwise nothing changes. |
| Membership.AcceptedWriteTakesEffect | internal/transport/organizations/handlers.go:269-581 | In every run a request about to write is answered with success exactly if its write fits the tables of that moment, and the next state has the target row added, re-roled or gone, or the organization gone. |
| Membership.CreationTakesEffect | pkg/db/psql/psql.go:560-605 | In every run a creation answered with success leaves organization, subject, profile and owner row in the next state. |
| Membership.OrganizationsEndByTheirCreator | internal/transport/organizations/handlers.go:269-293 | In every run an organization ends only by a deletion that its creator asked for, past the gate and authorized earlier in the same request. |
| Membership.GatedEarlier | internal/transport/middlewares.go:120-170 | Every request ready for its authorization came past the gate at an earlier event, with the same token and operation, while the token's session was live. |
| Membership.AuthorizedEarlier | internal/transport/organizations/handlers.go:32-55 | Every request past authorization went through it at an earlier event, for the same token and operation, and has been in flight since. |
| Membership.CoalitionCannotTouch | internal/authz/rbac.go:12-103 | From a state with no request in flight, callers none of whom is owner or admin of an organization can interleave any requests without changing its membership rows or deleting it. |
| Membership.OnlyManagersPassAuthorization | internal/authz/rbac.go:12-48 | The permission table lets only owner and admin change memberships or delete. |
| Rbac.PermissionsExactly | internal/authz/rbac.go:12-48 | The whole table, role by role: owners everything, admins everything but deletion, editors reading and the profile, viewers reading, unknown roles nothing. |
| Gate.GateIsLiveSession | internal/transport/middlewares.go:120-170 | The gate accepts if and only if the schema's is_live_session holds of the token's session and subject. |
| Gate.SignedTokenMatches | internal/transport/middlewares.go:120-170 | For tokens signed by login or refresh the not-found and subject-mismatch branches are unreachable. |
| Gate.RejectionIsPermanent | db/migrations/010-initial_auth_schema.sql:103-119 | Once the gate rejects a signed token it rejects it in every later state of the run. |
| Gate.PassedGateWasLive | internal/transport/middlewares.go:120-170 | A request past the gate held a live session when it passed. |
| Gate.ListedOncePerFamily | db/migrations/010-initial_auth_schema.sql:95 | The family-active index lets a session list hold at most one row of a family. |
| Deactivation.DeactivationIsFinal | pkg/db/psql/psql.go:246-276 | No run reactivates a user, and no session of an inactive user is ever rotated. |
| Deactivation.DeactivationRevokesAll | pkg/db/psql/psql.go:246-276 | A deactivation that takes effect leaves the user inactive and without live sessions. |
| Deactivation.DeactivationShutsOut | internal/transport/users/handlers.go:310-335 | From a deactivation on, the gate rejects every access token of the user signed until then, for good. |
| Deactivation.SerialRunsLeaveNoSession | internal/transport/auth/handlers.go:87-132 | With one request at a time no inactive user ever has a live session. |
| Deactivation.InactiveUserRegainsSessionExactly | internal/transport/auth/handlers.go:87-132 | With interleaving, an inactive user without live sessions can come to have one if and only if a login of that user is between its user read and its session insert. |
| StaleLogin.InactiveUserCanHaveSession | internal/transport/auth/handlers.go:87-132 | There is a reachable state with an inactive user and a live session of that user. |
| Handlers.RequireLiveSession | internal/transport/middlewares.go:120-170 | The gate's early returns accept exactly what is_live_session accepts. |
| Handlers.AuthSessionsList | internal/transport/auth/handlers.go:273-309 | The list holds exactly the subject's live sessions, newest first, at most one of a family, and exactly one is marked current if the gate holds at that instant, none otherwise. |
| Handlers.ToAuthSessionsResponse | internal/transport/auth/handlers.go:507-513 | The appending loop keeps rows, order and times, and marks the row whose id is the current session's. |
| Handlers.Authorize | internal/authz/rbac.go:56-103 | Allows exactly an active member whose role has the permission: for a deletion the owner, for the three member operations owner and admin. |
| Handlers.CountOwners | internal/transport/organizations/handlers.go:126-131 | Over distinct rows of one organization the counting loop yields the number of distinct owners. |
| Handlers.AssertNotLastOwner | internal/transport/organizations/handlers.go:121-136 | Passes if and only if the caller is an active member and the organization has at least two owners. |
| Handlers.Handle | internal/transport/organizations/handlers.go:269-581 | Add, role change, removal and deletion write exactly when gate, authorization, body and escalation rules allow it; accepted, the target's row is added, re-roled or gone, or the organization and its rows are gone, and nothing else changes for a row operation; not accepted, nothing changes. |
| Handlers.CheckAdd | internal/transport/organizations/handlers.go:357-373 | Adding is allowed exactly for a role ranked no higher than the caller's. |
| Handlers.CheckUpdate | internal/transport/organizations/handlers.go:453-498 | A role change is allowed exactly when neither the target's role nor the requested one outranks the caller, and an owner target is not the only owner. |
| Handlers.CheckRemove | internal/transport/organizations/handlers.go:535-567 | Removing an owner is allowed exactly for an owner while another remains; removing anyone else always. |
| Handlers.ProgramIsHandler | internal/transport/organizations/handlers.go:269-581 | The interleaved program of a membership request, run without interference, does what the sequential handler does. |
| Alone.AddAlone | internal/transport/organizations/handlers.go:325-389 | In a reachable state an addition is accepted if and only if a live session of an owner or admin asks for the admin, editor or viewer role for an active user without a row; it adds that row. |
| Alone.UpdateAlone | internal/transport/organizations/handlers.go:423-516 | In a reachable state a role change is accepted if and only if a live session of an owner or admin asks for the admin, editor or viewer role for an active member other than the owner; it changes that role. |
| Alone.RemoveAlone | internal/transport/organizations/handlers.go:518-581 | In a reachable state a removal is accepted if and only if a live session of an owner or admin asks for it and the target is an active member other than the owner; that row goes. |
| Alone.DeleteAlone | internal/transport/organizations/handlers.go:269-293 | In a reachable state a deletion is accepted if and only if the organization's creator, active and with a live session, asks for it; organization, subject and membership rows go. |
| Alone.CreateOrgAlone | internal/transport/organizations/handlers.go:163-192 | A creation is accepted if and only if an active user with a live session gives a name and a profile that fits, and makes the caller owner. |
| Alone.GateAlone | internal/transport/middlewares.go:120-170 | A request goes on exactly with a live session of its token's subject and if it is well put, and is turned away without a change otherwise. |
| Auth.AuthLogin | internal/transport/auth/handlers.go:87-160 | A grant is for an active user with the username and email given and a password that fits the stored hash; it names a live session of that user, stored under the hash of the cookie handed out. Without a grant nothing changes. |
| Auth.LoginSucceedsExactly | internal/transport/auth/handlers.go:87-132 | A login is decided by the user it identifies by name, address and password: the insert of that user's session, or rejection without a change if there is no such user. |
| Alone.RegisteredUserLogsIn | internal/transport/users/handlers.go:26-114 | Who has registered logs in, by username or address or both, with exactly the passwords that derive the registered key. |
| Alone.RegisterAlone | internal/transport/users/handlers.go:26-114 | A registration with a valid phone is accepted if and only if the id is unused, the texts and the phone fit and nothing clashes; it adds the active user with the given columns. |
| Auth.AuthRefresh | internal/transport/auth/handlers.go:163-231 | A cookie that fails the format check changes nothing; otherwise the refresh transaction decides, and a grant is backed by the new session. |
| Auth.GrantRefreshesItsSession | internal/transport/auth/handlers.go:107-179 | The cookie of a grant, presented as it is, passes the format check and finds the grant's session and no other. |
| Auth.AuthLogout | internal/transport/auth/handlers.go:233-271 | Behind the gate a logout always succeeds and revokes at most the row of its session. |
| Auth.AuthSessionsRevokeAll | internal/transport/auth/handlers.go:311-333 | Row by row, the unrevoked sessions of the caller become revoked at this time as logged out, and every other row stays. |
| Alone.RevokeAllAlone | internal/transport/auth/handlers.go:311-333 | With a live session a revoke-all is accepted and touches no session of another subject; without one nothing changes. |
| Alone.RevokeOneAlone | internal/transport/auth/handlers.go:335-371 | Revoking one session is accepted if and only if it is the caller's own, and revokes it if it is unrevoked. |
| Alone.LogoutRevokesOwnSession | internal/transport/auth/handlers.go:233-271 | Alone a logout revokes the session of its token and changes nothing else. |
| Alone.DeleteUserAlone | internal/transport/users/handlers.go:310-335 | An account deletion is accepted if and only if a live session of an active user asks for it; it clears that user's flag, revokes that user's unrevoked sessions and touches nobody else. |
| Auth.AuthSessionRevokeOne | internal/transport/auth/handlers.go:335-371 | Revokes the named session exactly if it is the caller's, and is rejected otherwise. |
| Auth.LogoutIsIdempotent | docs/definitions/AUTH.md:581-584 | Logging a session out again, at any later time, changes nothing. |
| Logout.LogoutEndsFamilyExactly | internal/transport/auth/handlers.go:233-271 | In any run a logout past its gate leaves the family of its session dead, unless the session is redeemed strictly between gate and revocation and the family is not dead when the revocation comes; exactly then the family stays live. |
| LateLogout.LogoutCanLeaveFamilyLive | internal/transport/auth/handlers.go:233-271 | There is a reachable state with a logout past its gate that will be accepted and leaves its family live. |
| Logout.LogoutShutsOut | internal/transport/auth/handlers.go:254-262 | After the revocation of a logout every request with its token, a second logout among them, is rejected at the gate, in every later state of the run. |
| Logout.LogoutAlone | internal/transport/auth/handlers.go:233-271 | Without interference a logout is accepted if and only if the token's session is live, and then the family is dead; otherwise nothing changes. |
| Auth.LoginProgramIsHandler | internal/transport/auth/handlers.go:87-132 | The interleaved program of a login, run without interference and with the verdict of the password check on the row it reads, does what the sequential handler does. |
| Auth.RefreshProgramIsHandler | internal/transport/auth/handlers.go:163-213 | Likewise for a refresh. |
| Auth.RevokingProgramsAreHandlers | internal/transport/auth/handlers.go:233-371 | Likewise for logout and the two revocations. |
| Profile.UserPatch | internal/transport/users/handlers.go:160-226 | Each given column of the caller's row is then as given, each omitted one as it was, with active flag, password hash and every other row unchanged; or nothing changes. |
| Alone.PatchAlone | internal/transport/users/handlers.go:143-226 | In a reachable state a patch is accepted if and only if an active user with a live session gives some field, a valid phone if any, and the new row fits and clashes with none; exactly the given columns change. |
| Profile.PatchKeepsOmittedPhone | internal/transport/users/handlers.go:175-209 | In every reachable state a patch without a phone leaves every stored phone as it is. |
| Profile.OmittedPhoneWritesWhatItRead | internal/transport/users/handlers.go:160-209 | Among other requests a patch without a phone stores the phone it read, whatever was stored since. |
| Profile.OmittedPhoneKeptExactly | internal/transport/users/handlers.go:160-209 | Such a patch leaves the column alone if and only if the last successful update of the user strictly between its read and its write, if there is one, left the phone that was read; so whenever there is none. |
| LostPhone.PatchCanLosePhone | internal/transport/users/handlers.go:160-209 | There is a run in which a patch without a phone replaces a phone stored after its read by the one it read. |
| Profile.PatchProgramIsHandler | internal/transport/users/handlers.go:160-226 | The interleaved program of a patch, run without interference, does what the sequential handler does. |
| Profile.UpdateStoresNumber | pkg/db/psql/psql.go:185-200 | An update through the decimal text of any 64-bit number stores that number, and zero as NULL. |
| Profile.AcceptedPhoneIsStoredExactly | pkg/db/psql/psql.go:67-71 | A registration with a valid phone, texts that fit their columns and no clash with another user succeeds if and only if the number fits the 32-bit column, and then stores it, zero as NULL. |
| Profile.WidePhonesAreValid | internal/service/service.go:53-75 | Every number of ten to fifteen digits is a valid phone; those above 2147483647 do not fit the column. |
| Credentials.RefreshTokenAcceptedExactly | internal/service/service.go:263-283 | For every token length a cookie is accepted if and only if the length is at least 1 and the trimmed text is the right number of base64url symbols, although the decoder skips CR and LF; the result is the trimmed text. |
| Credentials.AcceptedCookieIsPaddedToken | internal/service/service.go:263-283 | An accepted cookie is the token it gives with spaces around it, and the token has none at its ends. |
| Credentials.GeneratedTokenIsAccepted | internal/service/service.go:286-328 | Every generated token is accepted unchanged and hashes to what was stored. |
| Credentials.HashDeterminesBytes | internal/service/service.go:286-328 | Two tokens are stored under the same hash exactly if their random bytes are the same. |
| Credentials.VerifyAgainstHash | internal/service/service.go:78-128 | For every salt and key length verification against a stored hash never errs and accepts exactly the passwords with the same derived key, so it accepts the one that was hashed. |
| Credentials.StoredHashSplits | internal/service/service.go:91-113 | The stored string splits into exactly two parts that decode to salt and key. |
| Credentials.StoredHashIsSaltThenKey | internal/service/service.go:78-96 | The stored text of a password is the encoded salt, the separator and the encoded key, in that order. |
| Credentials.StoredFormatExactly | internal/service/service.go:98-102 | A stored text is refused for its format exactly if it does not hold the separator once; otherwise its two sides are what is decoded. |
| Credentials.PhoneMagnitude | internal/service/service.go:53-75 | Every value that phone validation returns has magnitude below 10^15. |
| Credentials.PhoneAcceptedExactly | internal/service/service.go:53-75 | A phone is accepted for a number if and only if it is empty, not required and the number zero, or trimmed it is ten to fifteen bytes that read as that number after one optional plus. |
| Credentials.PhoneTextRoundTrip | internal/transport/users/handlers.go:203-206 | Every 64-bit integer comes back from the text of a patch, zero by way of the empty text. |
| Credentials.OmittedPhoneIsKept | pkg/db/psql/psql.go:185-200 | Column to integer to text to integer to column is the identity if and only if the column is not the number zero. |
| Base64.DecodeOfEncode | internal/service/service.go:91-113 | Decoding inverts encoding in both alphabets, for every byte string (section 4 and section 5 of RFC 4648, without padding). |
| Base64.DecodeExact | internal/service/service.go:270-282 | Among texts of the encoded length, exactly those of symbols only decode to that many bytes. |
| Base64.EncodeIsRfc | internal/service/service.go:78-96 | An encoded text spells its sextets in tables 1 and 2 of RFC 4648. |
| Base64.SextetsKeepNumbers | internal/service/service.go:319-328 | Three bytes become four sextets that make the same number, most significant first, and one or two bytes at the end two or three, padded with zero bits. |
| Decimal.AtoiOfItoa | pkg/db/psql/psql.go:187-193 | Parsing inverts printing for every 64-bit integer. |
| Decimal.PrintingIsDecimal | internal/transport/users/handlers.go:203-206 | A number below ten prints as its digit, any other as its tenth followed by its last digit, and a negative one with a minus sign. |
| Decimal.ParsingIsDecimal | pkg/db/psql/psql.go:187-193 | A further digit multiplies the parsed value by ten and adds the digit. |
| Text.SplitOnce | internal/service/service.go:99-102 | Splitting two texts without the separator, joined by it, gives the two back. |

## Left out

- PostgreSQL isolation below whole Database methods (snapshots, row-lock waits, NOW() against the application clock): a method is one atomic step, under one clock.
- Failures of the connection and of the random source end a request without a write, which the event `Abandon` covers; a reply that is lost or a signature that fails after a commit only takes a token or cookie from its client.
- JWT encoding and signature checks, Argon2, SHA-256 and random generation: ideal functions and records.
- The password verdict and the clock reading of a login or refresh are free parameters of a run, so the run theorems hold for every verdict and every reading that is not in the future; `Auth.AuthLogin` computes the verdict from the stored hash, `Credentials.VerifyAgainstHash` says that it is right, and `Auth.LoginProgramIsHandler` ties the two forms.
- HTTP and JSON handling, cookie attributes, CORS, logging, panic recovery, CLI, configuration and the driver registry: plumbing. Status codes appear only as accepted, rejected or errored.
- `pkg/db/sqlite/sqlite.go`: its data methods are stubs.
- The invite flow: three separate calls, of which the claim is unconditional.
- Validation of usernames, email addresses, passwords and bearer headers: one-branch checks; requests start from validated values.
- UserPasswordUpdate, AuthGetSubject and the reading and updating of organization profiles: they touch no column that a theorem speaks of.
- The updated_at columns, and created_at of users and organizations.
- Which texts PostgreSQL reads as inet addresses: a host is one or is not.
- The order of rows with equal creation times, which SQL leaves open.
- Text is modelled as Unicode characters with their UTF-8 length; texts that are not valid UTF-8 are not part of this model, apart from user agents.
- Auth.AuthLogout: requires revocation columns that agree, which every reachable table has (`Invariants.RunKeepsInvariant`); on other rows the COALESCE update would fill the empty column only, as `Database.PsqlDB.RevokeAuthSession` states.
- Auth.AuthSessionRevokeOne: requires the same agreement of the revocation columns, for the same reason.
- Database.PsqlDB.CreateUser: refuses a text that is wider than its column, where PostgreSQL would cut spaces at its end; validated names and addresses end in no space.
- Database.PsqlDB.UpdateUser: the same, for the same reason.
