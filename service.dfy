/** The application as a whole (the three routers main.py mounts): the
    requests that change the tables, applied one after another. Read-only
    endpoints (the listings, login, get_me) are functions of the tables and
    are not requests here. */
module Service {
  import opened Models
  import Users
  import Orgs
  import OrgProps
  import Tasks
  import TaskProps

  datatype Request =
    | RegisterUser(name: string, email: string, password: string)
    | CreateOrganisation(actor: UserId, orgName: string)
    | SwitchActiveOrganisation(actor: UserId, org: OrgId)
    | AddUser(actor: UserId, org: OrgId, email: string)
    | CreateInvite(actor: UserId, org: OrgId, email: string)
    | AcceptInvite(actor: UserId, org: OrgId)
    | PromoteUser(actor: UserId, org: OrgId, email: string, role: string)
    | CreateTask(actor: UserId, title: string, description: Option<string>, orgIds: Option<seq<OrgId>>)
    | AssignTaskToOrg(actor: UserId, task: TaskId)

  /** Every request but registration names its caller. A caller that is not
      a registered user never reaches the handler (the bearer-token
      dependency refuses it), so such a request changes nothing. */
  predicate Authenticated(t: Tables, req: Request)
  {
    req.RegisterUser? || IsUser(t, req.actor)
  }

  /** The tables after one request. */
  function Apply(t: Tables, req: Request, hash: string -> string): Tables
  {
    if !Authenticated(t, req) then t
    else match req
      case RegisterUser(name, email, password) => Users.RegisterUser(t, name, email, password, hash).after
      case CreateOrganisation(actor, name) => Orgs.CreateOrganisation(t, actor, name).after
      case SwitchActiveOrganisation(actor, org) => Orgs.SwitchActiveOrganisation(t, actor, org).after
      case AddUser(actor, org, email) => Orgs.AddUser(t, actor, org, email).after
      case CreateInvite(actor, org, email) => Orgs.CreateInvite(t, actor, org, email).after
      case AcceptInvite(actor, org) => Orgs.AcceptInvite(t, actor, org).after
      case PromoteUser(actor, org, email, role) => Orgs.PromoteUser(t, actor, org, email, role).after
      case CreateTask(_, title, description, orgIds) => Tasks.CreateTask(t, title, description, orgIds).after
      case AssignTaskToOrg(actor, task) => Tasks.AssignTaskToOrg(t, actor, task).after
  }

  /** The tables after a sequence of requests, in order. */
  function Run(t: Tables, reqs: seq<Request>, hash: string -> string): Tables
    decreases |reqs|
  {
    if reqs == [] then t else Run(Apply(t, reqs[0], hash), reqs[1..], hash)
  }

  lemma ApplyKeepsConsistent(t: Tables, req: Request, hash: string -> string)
    requires Consistent(t)
    ensures Consistent(Apply(t, req, hash)) && Grows(t, Apply(t, req, hash))
  {
    if !Authenticated(t, req) {
      GrowsReflexive(t);
    } else {
      match req
      case RegisterUser(name, email, password) => Users.RegisterKeepsConsistent(t, name, email, password, hash);
      case CreateOrganisation(actor, name) => OrgProps.CreateOrganisationKeepsConsistent(t, actor, name);
      case SwitchActiveOrganisation(actor, org) => OrgProps.SwitchKeepsConsistent(t, actor, org);
      case AddUser(actor, org, email) => OrgProps.AddUserKeepsConsistent(t, actor, org, email);
      case CreateInvite(actor, org, email) => OrgProps.CreateInviteKeepsConsistent(t, actor, org, email);
      case AcceptInvite(actor, org) => OrgProps.AcceptInviteKeepsConsistent(t, actor, org);
      case PromoteUser(actor, org, email, role) => OrgProps.PromoteKeepsConsistent(t, actor, org, email, role);
      case CreateTask(_, title, description, orgIds) => TaskProps.CreateTaskKeepsConsistent(t, title, description, orgIds);
      case AssignTaskToOrg(actor, task) => TaskProps.AssignKeepsConsistent(t, actor, task);
    }
  }

  /** Over any sequence of requests: emails stay unique, at most one invite
      per (email, organisation) is pending, every creator keeps a membership,
      active organisations are memberships, and nothing grows back: no
      membership is removed and no accepted invite becomes pending again. */
  lemma {:induction false} RunKeepsConsistent(t: Tables, reqs: seq<Request>, hash: string -> string)
    requires Consistent(t)
    ensures Consistent(Run(t, reqs, hash)) && Grows(t, Run(t, reqs, hash))
    decreases |reqs|
  {
    if reqs == [] {
      GrowsReflexive(t);
    } else {
      var t1 := Apply(t, reqs[0], hash);
      ApplyKeepsConsistent(t, reqs[0], hash);
      RunKeepsConsistent(t1, reqs[1..], hash);
      GrowsTransitive(t, t1, Run(t1, reqs[1..], hash));
    }
  }

  /** Every state the application can reach from empty tables is consistent. */
  lemma ReachableIsConsistent(reqs: seq<Request>, hash: string -> string)
    ensures Consistent(Run(Empty, reqs, hash))
  {
    EmptyIsConsistent();
    RunKeepsConsistent(Empty, reqs, hash);
  }

  /** A registers and creates O (owner, O active); A invites B before B has
      an account; B registers and accepts, becoming a member; B's second
      acceptance is refused with 404, as no pending invite is left. */
  lemma InviteScenario(hash: string -> string)
    ensures
      var s1 := Users.RegisterUser(Empty, "A", "a@x", "pa", hash);
      var s2 := Orgs.CreateOrganisation(s1.after, 1, "O");
      var s3 := Orgs.CreateInvite(s2.after, 1, 1, "b@x");
      var s4 := Users.RegisterUser(s3.after, "B", "b@x", "pb", hash);
      var s5 := Orgs.AcceptInvite(s4.after, 2, 1);
      var s6 := Orgs.AcceptInvite(s5.after, 2, 1);
      && s1.result == Ok(1) && s2.result == Ok(1)
      && Orgs.HasRole(s2.after, 1, 1, Owner) && UserRow(s2.after, 1).activeOrg == Some(1)
      && s3.result.Ok? && s4.result == Ok(2)
      && s5.result.Ok? && Orgs.HasRole(s5.after, 2, 1, Member)
      && s6.result == Err(NotFound) && Status(s6.result.failure) == 404
  {
    var s1 := Users.RegisterUser(Empty, "A", "a@x", "pa", hash);
    var s2 := Orgs.CreateOrganisation(s1.after, 1, "O");
    var s3 := Orgs.CreateInvite(s2.after, 1, 1, "b@x");
    assert "a@x" != "b@x" by { assert "a@x"[0] != "b@x"[0]; }
    var s4 := Users.RegisterUser(s3.after, "B", "b@x", "pb", hash);
    assert s4.after.users[1].email == "b@x";
    assert s4.after.invites[0] == Invite("b@x", 1, 1, false);
    var s5 := Orgs.AcceptInvite(s4.after, 2, 1);
    assert PendingInvite(s4.after.invites, "b@x", 1) == Some(0);
    var s6 := Orgs.AcceptInvite(s5.after, 2, 1);
    assert !PendingFor(s5.after.invites[0], "b@x", 1);
  }
}
