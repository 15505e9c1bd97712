# Membership, invite and task-sharing rules of the task-management backend

This project models the bookkeeping core of a multi-tenant task-management
backend written in Python with FastAPI and SQLModel. Users register and log in.
They create organisations, invite people to them, add members directly and
change members' roles. Tasks are either personal or shared into one or more
organisations. The model covers the route handlers in `app/api/orgs.py`,
`app/api/tasks.py` and `app/api/users.py`. They work over six tables:

- users: the email is unique, and the active organisation may be empty;
- organisations: each one records its creator;
- memberships: keyed by (user, organisation), with a role string that defaults to `"member"`;
- invites: each has an `accepted` flag that starts false;
- tasks;
- task-organisation links: keyed by (task, organisation).

## How the model is laid out

- `models.dfy`, module `Models`: the rows and the tables as values (`Tables`).
  - Rows with an autoincrement id live in a sequence. The row at index i has id i + 1.
  - Memberships are a map keyed by (user, organisation). Links are a set of pairs.
  - Also here: the errors the handlers raise and their HTTP codes, and the two `.first()` lookups (by email, and first pending invite).
  - `Consistent` is the invariant of the tables. `Grows` says how the tables may change from one state to the next.
- `users.dfy`, `orgs.dfy`, `tasks.dfy`, modules `Users`, `Orgs`/`OrgProps`, `Tasks`/`TaskProps`:
  - each state-changing handler is a pure step function `Tables -> Step` (the new tables and the answer);
  - each listing is a function of the tables;
  - lemmas state what the handlers promise, alone and in sequence.
- `service.dfy`, module `Service`: the state-changing requests as one datatype, and `Run` over any sequence of them.
  - `RunKeepsConsistent` proves that every reachable state is consistent.
  - The same lemma proves that the tables only grow: memberships are never removed, and an invite never goes back to pending.
- `database.dfy`, module `Database`: class `Store`. Its fields are the six tables, and the handlers update them in place.
  - The two lookups are loops over the rows, proved equal to the lookup functions.
  - `CreateTask` queues one link row per listed organisation in a loop, then stores them together.
  - Each handler method's contract ties the new fields to that handler's step function.

Hashing and password checking are function parameters (`hash`, `verify`). The
caller is an existing user id, which is what the bearer-token dependency
supplies. A login token is the pair (subject id, lifetime in minutes).

### Behaviour as the code has it

In these places the model follows the code as written:

- `switch_active_organisation` answers 404 for a non-member (app/api/orgs.py:73-74), not a forbidden-style error.
- `assign_task_to_org` answers 400 for a link that already exists (app/api/tasks.py:59-60), not a conflict.
- A second `accept_invite` answers 404, not 409.
  - The first acceptance flipped the only pending invite for that email and organisation.
  - The lookup at app/api/orgs.py:163-171 therefore finds nothing (`OrgProps.AcceptTwiceFails`, `Service.InviteScenario`).
- "The creator is an owner" holds when an organisation is created. It is not kept afterwards.
  - `promote_user` overwrites any membership's role, the creator's included (`OrgProps.PromoteCanDemoteCreator`).
  - What is kept is that every creator still has a membership (`Models.CreatorsAreMembers`).
- `promote_user` reads `current_link.role` without checking that the actor has a membership (app/api/orgs.py:205-206).
  - A caller outside the organisation makes the handler raise. The model keeps this as its own outcome, `InternalError` (500), not 403.
- `create_task` commits the task (app/api/tasks.py:29) before it adds the links (app/api/tasks.py:37).
  - If the list repeats an organisation id, the two link rows collide on the composite key and the second commit fails.
  - The task stays, with no links, and the caller gets a server error.
- `get_personal_tasks` ignores its caller. It lists every task that has no link.
- `get_all_user_tasks` fails with a server error for any caller who has a membership (app/api/tasks.py:109); see "## Findings".
  - `Tasks.AllUserTasksAsWritten` models that outcome.
  - `Tasks.AllUserTasks` is the evidently intended listing, and the all-tasks lemmas are about it.
- `get_users` returns whole user rows, stored password hashes included.
- With consistent tables, every organisation's creator is a registered user. So the `"Unknown"` fallback of `get_belong_to_organisations` never shows (`OrgProps.BelongToNamesCreators`).

## Model

| member | source | states |
|---|---|---|
| `Models.Status` | app/api/orgs.py:89-102 | each failure maps to the HTTP code the handlers raise; only an uncaught exception gives 500 (the handlers answer with failures; `Service.InviteScenario` reads a code through it) |
| `Models.UserByEmail` | app/api/users.py:15 | the lookup by email returns the id of the first row with that email, and returns nothing exactly when no row has it |
| `Models.PendingInvite` | app/api/orgs.py:163-168 | the lookup returns the first invite for (email, organisation) that is not accepted, and returns nothing exactly when there is none |
| `Models.UserByEmailUnique` | app/models/user.py:10 | with unique emails, the lookup finds exactly the row that carries the email |
| `Models.PendingInviteUnique` | app/api/orgs.py:136-142 | with at most one pending invite per pair, the lookup finds exactly that invite |
| `Users.RegisterUser` | app/api/users.py:14-29 | fails 400, changing nothing, exactly when the email is already registered; otherwise appends one row holding hash(password) with no active organisation, and returns its id |
| `Users.GetUsers` | app/api/users.py:31-34 | lists every user row in full, password hash included |
| `Users.LoginUser` | app/api/users.py:36-48 | succeeds exactly when the first row with the email exists and the password verifies against its stored hash; the token's subject is that row's id and its lifetime is 30 minutes; every failure is the same 400 |
| `Users.RegisterKeepsConsistent` | app/api/users.py:15-17 | registration keeps emails unique and all other invariants, and only appends |
| `Users.LoginFailuresIndistinguishable` | app/api/users.py:39-41 | an unknown email and a wrong password give the identical answer |
| `Users.RegisterThenLogin` | app/api/users.py:19-48 | right after registering, logging in with the same password yields a token for the new id exactly when verify(password, hash(password)) holds |
| `Users.GetMe` | app/api/users.py:50-56 | answers with the caller's own id, name and email, and no password field |
| `Users.GetMeHidesPassword` | app/api/users.py:50-56 | get_me's answer does not change when only the caller's stored password does |
| `Orgs.CreateOrganisation` | app/api/orgs.py:11-31 | returns the next organisation id; adds that organisation with the actor as creator, an "owner" membership for the actor, and makes it the actor's active organisation; nothing else changes |
| `Orgs.OwnedOrganisations` | app/api/orgs.py:33-43 | lists an organisation (with its name) exactly when the actor's membership in it has role "owner" |
| `Orgs.CreatorName` | app/api/orgs.py:59 | the creator's name when the creator is a registered user, otherwise "Unknown" |
| `Orgs.BelongToOrganisations` | app/api/orgs.py:45-63 | lists exactly the organisations where the actor's role is "member" or "admin", each with its creator's name or "Unknown" |
| `Orgs.SwitchActiveOrganisation` | app/api/orgs.py:66-82 | fails 404, changing nothing, exactly when the actor has no membership in the organisation; otherwise only the actor's active organisation changes, to that one |
| `Orgs.AddUser` | app/api/orgs.py:84-109 | (intended guard) 403 if the actor is not a member, 404 if no user has the email, 409 if the target is already a member; succeeds exactly when all three guards pass, and then exactly one membership (target, organisation) with the default role "member" is added |
| `Orgs.AddUserAsWritten` | app/api/orgs.py:87-90 | as written, every call ends in a server error and changes nothing |
| `Orgs.CreateInvite` | app/api/orgs.py:112-153 | 403 for a non-member, 403 for a role other than admin/owner, 409 while an invite for (email, organisation) is pending; succeeds exactly when all three guards pass, and then appends exactly one pending invite with the actor as inviter |
| `Orgs.AcceptInvite` | app/api/orgs.py:156-190 | 404 when no invite for the actor's email and the organisation is pending; 409 when the actor is already a member, leaving the invite pending; succeeds exactly when an invite is pending and the actor is not a member, and then adds the membership with role "member" and marks that invite accepted in the same step |
| `Orgs.PromoteUser` | app/api/orgs.py:193-228 | a non-member actor gets a server error; 403 when the actor's role is not admin/owner, whatever role is requested; 404 for an unknown email or a target without a membership; succeeds exactly when all guards pass, and then the only change is that the target's role becomes the requested string verbatim |
| `OrgProps.CreateOrganisationKeepsConsistent` | app/api/orgs.py:18-30 | creating an organisation keeps every invariant and only lets the tables grow |
| `OrgProps.SwitchKeepsConsistent` | app/api/orgs.py:69-80 | switching keeps every invariant (the active organisation is a membership) and only lets the tables grow |
| `OrgProps.AddUserKeepsConsistent` | app/api/orgs.py:99-107 | adding a member keeps every invariant and only lets the tables grow |
| `OrgProps.CreateInviteKeepsConsistent` | app/api/orgs.py:135-151 | inviting keeps at most one pending invite per (email, organisation) and every other invariant |
| `OrgProps.AcceptInviteKeepsConsistent` | app/api/orgs.py:173-189 | accepting keeps every invariant; no membership is removed and the invite goes from pending to accepted, never back |
| `OrgProps.PromoteKeepsConsistent` | app/api/orgs.py:219-226 | changing a role keeps every invariant and removes no membership |
| `OrgProps.CreateOrganisationMakesOwner` | app/api/orgs.py:18-30 | afterwards the actor created the new organisation, owns exactly the organisations owned before plus the new one, and has it as a set, non-zero active organisation |
| `OrgProps.CreateOrganisationKeepsBelongTo` | app/api/orgs.py:50-53 | creating an organisation leaves the actor's belonged-to listing unchanged |
| `OrgProps.OwnedAndBelongToDisjoint` | app/api/orgs.py:38-53 | no organisation appears in both the owned and the belonged-to listing |
| `OrgProps.BelongToNamesCreators` | app/api/orgs.py:59 | on consistent tables the listing always shows the creator's real name, never the fallback |
| `OrgProps.SwitchSetsActive` | app/api/orgs.py:77 | after a successful switch the actor has an active organisation that the task handlers accept as set |
| `OrgProps.InviteTwiceConflicts` | app/api/orgs.py:135-142 | after an invite is created, a second one for the same email and organisation, by any admin or owner, fails 409 and changes nothing |
| `OrgProps.AcceptTwiceFails` | app/api/orgs.py:162-171 | after a successful acceptance, accepting again fails 404 and changes nothing, so no second membership can appear |
| `OrgProps.MemberMayAddButNotInvite` | app/api/orgs.py:84-133 | (intended guard) a plain member passes add_user's membership guard, so is not refused 403, but is refused 403 by create_invite |
| `OrgProps.PromoteCanDemoteCreator` | app/api/orgs.py:223-226 | there are consistent tables where an admin turns the owning creator into a plain member |
| `OrgProps.AddUserAsWrittenRefusesMembers` | app/api/orgs.py:87-90 | there is a request the intended guard accepts and the code as written answers with a server error |
| `Tasks.CreateTask` | app/api/tasks.py:15-38 | always appends the task (not completed); without repeated ids it returns the new id and adds exactly one link per listed organisation (none for a missing or empty list); with a repeated id it fails with a server error and adds no link |
| `Tasks.AssignTaskToOrg` | app/api/tasks.py:40-67 | 404 for an unknown task, then 403 without an active organisation, then 400 if already linked (nothing changes); succeeds exactly when all three guards pass, and then adds exactly the link (task, active organisation) |
| `Tasks.OrgTasks` | app/api/tasks.py:69-84 | fails 400 exactly when the actor has no active organisation; otherwise lists exactly the tasks linked to it |
| `Tasks.PersonalTasks` | app/api/tasks.py:86-98 | lists only existing tasks (see PersonalTasksExact) |
| `Tasks.MemberOrgs` | app/api/tasks.py:106-108 | holds exactly the organisations the actor has a membership row in, which is what the query selects |
| `Tasks.AllUserTasks` | app/api/tasks.py:100-124 | (intended listing) lists only existing tasks (see AllUserTasksExact) |
| `Tasks.AllUserTasksAsWritten` | app/api/tasks.py:105-124 | as written: a server error exactly when the caller has a membership; otherwise the personal tasks |
| `TaskProps.CreateTaskKeepsConsistent` | app/api/tasks.py:22-37 | creating a task keeps every invariant and only lets the tables grow |
| `TaskProps.AssignKeepsConsistent` | app/api/tasks.py:59-65 | sharing a task keeps every invariant and only lets the tables grow |
| `TaskProps.LinkedTasksExact` | app/api/tasks.py:93 | the task-id subquery holds exactly the tasks that have some link |
| `TaskProps.PersonalTasksExact` | app/api/tasks.py:86-98 | a task is listed as personal exactly when it exists and has no link, whoever the caller is |
| `TaskProps.AllUserTasksExact` | app/api/tasks.py:100-124 | (intended listing) a task is listed exactly when it exists and is linked to an organisation the actor belongs to or has no link; a task linked only to other organisations is excluded |
| `TaskProps.PersonalWithinAll` | app/api/tasks.py:117-121 | (intended listing) every personal task appears in every user's all-tasks listing |
| `TaskProps.OrgTasksWithinAll` | app/api/tasks.py:74-84 | (intended listing) on consistent tables the active organisation's listing is part of the all-tasks listing and never shows a personal task |
| `TaskProps.AllUserTasksAsWrittenFailsMembers` | app/api/tasks.py:109 | as written, every caller with an active organisation on consistent tables gets a server error from the all-tasks listing, while the organisation listing answers normally |
| `TaskProps.AllUserTasksAsWrittenAgreesWithoutMembership` | app/api/tasks.py:106-124 | a caller with no membership gets the same answer from the code as written and from the intended listing |
| `TaskProps.CreateTaskPersonal` | app/api/tasks.py:22-37 | the new task is personal exactly when the list is missing or empty, or repeats an id (the task is committed and the failed link commit leaves it unlinked); a task created with distinct organisations is not personal |
| `TaskProps.AssignTwiceRefused` | app/api/tasks.py:54-60 | after a successful share, sharing the same task again fails 400 and the link table is unchanged |
| `Service.ApplyKeepsConsistent` | main.py:33-35 | every state-changing request, authenticated or not, keeps the invariants and only lets the tables grow |
| `Service.RunKeepsConsistent` | main.py:33-35 | over any sequence of requests emails stay unique, at most one invite per pair is pending, creators keep a membership, active organisations are memberships, no membership or link is removed and no accepted invite becomes pending |
| `Service.ReachableIsConsistent` | main.py:42-44 | every state reachable from the freshly created empty tables is consistent |
| `Service.InviteScenario` | app/api/orgs.py:112-190 | A creates O and owns it with O active; A invites B before B registers; B registers and accepts, becoming a member; B's second acceptance fails 404 |
| `Database.Store.constructor` | main.py:42-44 | a new store holds empty, consistent tables |
| `Database.Store.FindUserByEmail` | app/api/users.py:15 | the scan over the user rows returns what the email lookup specifies |
| `Database.Store.FindPendingInvite` | app/api/orgs.py:163-168 | the scan over the invite rows returns what the pending-invite lookup specifies |
| `Database.Store.RegisterUser` | app/api/users.py:14-29 | updates the tables in place as register_user specifies, keeping them consistent |
| `Database.Store.CreateOrganisation` | app/api/orgs.py:11-31 | updates the tables in place as create_organisation specifies, keeping them consistent |
| `Database.Store.SwitchActiveOrganisation` | app/api/orgs.py:66-82 | overwrites the actor's active organisation as switch_active_organisation specifies |
| `Database.Store.AddUser` | app/api/orgs.py:84-109 | inserts the membership as add_user (intended guard) specifies |
| `Database.Store.CreateInvite` | app/api/orgs.py:112-153 | inserts the invite as create_invite specifies |
| `Database.Store.AcceptInvite` | app/api/orgs.py:156-190 | inserts the membership and flips the invite's flag as accept_invite specifies |
| `Database.Store.PromoteUser` | app/api/orgs.py:193-228 | overwrites the target's role as promote_user specifies, crash outcome included |
| `Database.Store.CreateTask` | app/api/tasks.py:15-38 | inserts the task, queues one link per listed id in a loop and stores them unless two collide, as create_task specifies |
| `Database.Store.AssignTaskToOrg` | app/api/tasks.py:40-67 | inserts the link as assign_task_to_org specifies |

## Left out

- Token encoding (app/utils/token.py) and the clock are not modelled. The token is the pair (subject, lifetime of 30 minutes); signing, expiry checks and `datetime.utcnow` are out.
- Users.LoginUser: the token's subject is the integer id; the source puts `str(id)` in it.
- `hash_password` and `verify_password` (app/utils/security) are not part of this model. They are function parameters with no assumed properties.
- `get_current_user` and `get_session` (app/auth, app/db) are not part of this model. The caller is a registered user id; `Service.Authenticated` lets a request from anyone else change nothing.
- Transactions, isolation and concurrent races on the unique keys are not modelled. Each handler is one atomic step, except for create_task's two commits.
- create_organisation also commits twice, but on consistent tables its second commit cannot collide, so it is one step.
- Timestamps (`created_at`), the unused `organization_id` column of tasks, ORM relationship names and response message strings are not modelled.
- Listings are sets of ids or records: their order is not modelled. `Users.GetUsers` returns a sequence, but `select(User)` has no ORDER BY, so its order is not a promise of the source.
- The model assumes the store does not enforce foreign keys (SQLite's default), so `Tasks.CreateTask` stores a link for any listed organisation id, including one that names no organisation (app/models/tasks_orgs.py:6). If the store enforced them, that second commit (app/api/tasks.py:37) would fail as well.
- Email validation by the request schemas is not modelled; emails are compared as exact strings.
- Orgs.AddUser: the intended guard checks only the caller's membership. The trailing condition on the caller's active organisation in app/api/orgs.py:87 is dropped: the guard checks membership only, like create_invite's first guard (app/api/orgs.py:118-124), and the handler's own comment asks only whether the caller is in the organisation.
- main.py's OpenAPI customisation and its root endpoint are not modelled.
- AllUserTasksExact: states the intended all-tasks listing. As written, a caller with any membership gets a server error instead (`TaskProps.AllUserTasksAsWrittenFailsMembers`).
- PersonalWithinAll: holds for the intended listing. As written, a caller with any membership gets a server error and no listing at all.
- OrgTasksWithinAll: relates the organisation listing to the intended all-tasks listing. As written, every caller it applies to has a membership and gets a server error from the all-tasks listing.

## Findings

| source | as written | input that shows it | evidently intended | confidence | as-written member | corrected member |
|---|---|---|---|---|---|---|
| app/api/orgs.py:87 | `&` is applied to the whole `select(...).where(...)` statement with `User.active_org_id == org_id`, instead of a condition inside `.where`. Combining a select statement with a condition this way is not a defined operation, so the handler raises before any query. | An owner of organisation 1 adds a registered user who is not yet a member: the handler answers 500. | Refuse (403) only callers who have no membership in the organisation, then look up the target and add it with role "member". | medium, not executed | `OrgProps.AddUserAsWrittenRefusesMembers` | `Orgs.AddUser` |
| app/api/tasks.py:109 | Selecting the single column `UserOrganisation.organisation_id` makes `session.exec(...).all()` return bare integers. The comprehension `[org_id for org_id, in ...]` unpacks each one as a one-element row and raises. | A registers and creates an organisation, so A has a membership. A then asks for all tasks: the handler answers 500. | Collect the organisation ids, then list the tasks linked to them together with every task that has no link. | medium, not executed | `TaskProps.AllUserTasksAsWrittenFailsMembers` | `Tasks.AllUserTasks` |
