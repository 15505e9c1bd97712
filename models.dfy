/** The six tables of the task-management backend (app/models), as values.

    Rows of the tables whose primary key is an autoincrement integer (users,
    organisations, invites, tasks) are kept in a sequence: the row at index i
    has id i + 1, as the store hands out ids 1, 2, 3, ... and nothing is ever
    deleted. Memberships and task-organisation links have composite keys, so
    they are a map and a set keyed by the pair. */
module Models {

  type UserId = int
  type OrgId = int
  type TaskId = int

  /** The role strings the handlers compare against. A role is an open
      string: promote_user stores whatever it is given. */
  const Owner: string := "owner"
  const Admin: string := "admin"
  /** Default role of a membership row (app/models/organisations.py). */
  const Member: string := "member"

  datatype Option<T> = None | Some(value: T)

  /** `password` holds what register_user stored: the hash, never the raw text. */
  datatype User = User(name: string, password: string, email: string, activeOrg: Option<OrgId>)

  datatype Org = Org(name: string, creator: UserId)

  datatype Invite = Invite(email: string, org: OrgId, inviter: UserId, accepted: bool)

  datatype Task = Task(title: string, description: Option<string>, completed: bool)

  datatype Tables = Tables(
    users: seq<User>,
    orgs: seq<Org>,
    members: map<(UserId, OrgId), string>,
    invites: seq<Invite>,
    tasks: seq<Task>,
    links: set<(TaskId, OrgId)>)

  const Empty: Tables := Tables([], [], map[], [], [], {})

  /** The HTTP errors the handlers raise; InternalError is an exception the
      handler does not catch (the framework answers 500). */
  datatype Failure = BadRequest | Forbidden | NotFound | Conflict | InternalError

  function Status(f: Failure): (code: int)
    ensures 400 <= code < 600
    ensures code == 500 <==> f == InternalError
  {
    match f
    case BadRequest => 400
    case Forbidden => 403
    case NotFound => 404
    case Conflict => 409
    case InternalError => 500
  }

  datatype Result<T> = Ok(value: T) | Err(failure: Failure)

  /** What one handler call leaves behind: the tables after it and its answer. */
  datatype Step<T> = Step(after: Tables, result: Result<T>)

  predicate IsUser(t: Tables, u: UserId) { 1 <= u <= |t.users| }
  predicate IsOrg(t: Tables, o: OrgId) { 1 <= o <= |t.orgs| }
  predicate IsTask(t: Tables, k: TaskId) { 1 <= k <= |t.tasks| }

  function UserRow(t: Tables, u: UserId): User
    requires IsUser(t, u)
  {
    t.users[u - 1]
  }

  /** `not current_user.active_org_id` in Python is true for None and for 0. */
  predicate HasActiveOrg(u: User) { u.activeOrg.Some? && u.activeOrg.value != 0 }

  /** The role check `link.role in ["admin", "owner"]`. */
  predicate Manages(role: string) { role == Admin || role == Owner }

  predicate PendingFor(inv: Invite, email: string, org: OrgId)
  {
    !inv.accepted && inv.email == email && inv.org == org
  }

  /** `select(User).where(User.email == email).first()`: the id of the first
      row with that email, if any. */
  function UserByEmail(users: seq<User>, email: string): (r: Option<UserId>)
    ensures r.Some? ==> 1 <= r.value <= |users| && users[r.value - 1].email == email
    ensures r.Some? ==> forall j :: 0 <= j < r.value - 1 ==> users[j].email != email
    ensures r.None? <==> forall j :: 0 <= j < |users| ==> users[j].email != email
  {
    if |users| == 0 then None
    else if users[0].email == email then Some(1)
    else match UserByEmail(users[1..], email)
      case None => None
      case Some(k) => Some(k + 1)
  }

  /** The first invite for (email, org) that is not yet accepted, as an index
      into the invite table. */
  function PendingInvite(invites: seq<Invite>, email: string, org: OrgId): (r: Option<nat>)
    ensures r.Some? ==> r.value < |invites| && PendingFor(invites[r.value], email, org)
    ensures r.Some? ==> forall j :: 0 <= j < r.value ==> !PendingFor(invites[j], email, org)
    ensures r.None? <==> forall j :: 0 <= j < |invites| ==> !PendingFor(invites[j], email, org)
  {
    if |invites| == 0 then None
    else if PendingFor(invites[0], email, org) then Some(0)
    else match PendingInvite(invites[1..], email, org)
      case None => None
      case Some(k) => Some(k + 1)
  }

  // ---------------------------------------------------------------------
  // Invariants of the store
  // ---------------------------------------------------------------------

  /** app/models/user.py declares the email column unique. */
  ghost predicate EmailsUnique(users: seq<User>)
  {
    forall i, j :: 0 <= i < j < |users| ==> users[i].email != users[j].email
  }

  /** At most one unaccepted invite per (email, organisation). */
  ghost predicate OnePendingPerPair(invites: seq<Invite>)
  {
    forall i, j :: 0 <= i < j < |invites| && !invites[i].accepted && !invites[j].accepted ==>
      invites[i].email != invites[j].email || invites[i].org != invites[j].org
  }

  ghost predicate MembersReferToRows(t: Tables)
  {
    forall k :: k in t.members ==> IsUser(t, k.0) && IsOrg(t, k.1)
  }

  /** Every organisation's creator is a registered user holding a membership in it. */
  ghost predicate CreatorsAreMembers(t: Tables)
  {
    forall i :: 0 <= i < |t.orgs| ==>
      1 <= t.orgs[i].creator <= |t.users| && (t.orgs[i].creator, i + 1) in t.members
  }

  ghost predicate InvitesReferToOrgs(t: Tables)
  {
    forall i :: 0 <= i < |t.invites| ==> 1 <= t.invites[i].org <= |t.orgs|
  }

  /** A user's active organisation is always one the user belongs to. */
  ghost predicate ActiveOrgsAreMemberships(t: Tables)
  {
    forall i :: 0 <= i < |t.users| && t.users[i].activeOrg.Some? ==>
      (i + 1, t.users[i].activeOrg.value) in t.members
  }

  ghost predicate LinksReferToTasks(t: Tables)
  {
    forall p :: p in t.links ==> 1 <= p.0 <= |t.tasks|
  }

  ghost predicate Consistent(t: Tables)
  {
    && EmailsUnique(t.users)
    && OnePendingPerPair(t.invites)
    && MembersReferToRows(t)
    && CreatorsAreMembers(t)
    && InvitesReferToOrgs(t)
    && ActiveOrgsAreMemberships(t)
    && LinksReferToTasks(t)
  }

  /** How the tables may evolve: rows are only appended, a user's name, email
      and password never change, organisations and tasks never change, no
      membership is removed, an invite changes at most its accepted flag and
      never from true back to false, and no link is removed. */
  ghost predicate Grows(t: Tables, t': Tables)
  {
    && |t.users| <= |t'.users|
    && (forall i :: 0 <= i < |t.users| ==>
          t'.users[i] == t.users[i].(activeOrg := t'.users[i].activeOrg))
    && t.orgs <= t'.orgs
    && t.members.Keys <= t'.members.Keys
    && |t.invites| <= |t'.invites|
    && (forall i :: 0 <= i < |t.invites| ==>
          t'.invites[i] == t.invites[i].(accepted := t'.invites[i].accepted)
          && (t.invites[i].accepted ==> t'.invites[i].accepted))
    && t.tasks <= t'.tasks
    && t.links <= t'.links
  }

  lemma EmptyIsConsistent()
    ensures Consistent(Empty)
  {
  }

  lemma GrowsReflexive(t: Tables)
    ensures Grows(t, t)
  {
  }

  lemma GrowsTransitive(t0: Tables, t1: Tables, t2: Tables)
    requires Grows(t0, t1) && Grows(t1, t2)
    ensures Grows(t0, t2)
  {
  }

  /** With unique emails, the lookup by email finds exactly the row that has it. */
  lemma UserByEmailUnique(users: seq<User>, email: string, u: UserId)
    requires EmailsUnique(users)
    requires 1 <= u <= |users| && users[u - 1].email == email
    ensures UserByEmail(users, email) == Some(u)
  {
  }

  /** With one pending invite per pair, the lookup finds exactly that invite. */
  lemma PendingInviteUnique(invites: seq<Invite>, email: string, org: OrgId, i: nat)
    requires OnePendingPerPair(invites)
    requires i < |invites| && PendingFor(invites[i], email, org)
    ensures PendingInvite(invites, email, org) == Some(i)
  {
  }
}
