/** The database session the handlers work on, as an object whose tables
    the handlers update in place: rows are inserted with `session.add` and
    fields overwritten (a user's active organisation, an invite's accepted
    flag, a membership's role). Each method is one handler; its contract ties
    the new tables to the handler's step function, whose properties are
    proved in Users, Orgs/OrgProps and Tasks/TaskProps. */
module Database {
  import opened Models
  import Users
  import Orgs
  import OrgProps
  import Tasks
  import TaskProps

  class Store {
    var users: seq<User>
    var orgs: seq<Org>
    var members: map<(UserId, OrgId), string>
    var invites: seq<Invite>
    var tasks: seq<Task>
    var links: set<(TaskId, OrgId)>

    /** The tables as a value. */
    function Snapshot(): Tables
      reads this
    {
      Tables(users, orgs, members, invites, tasks, links)
    }

    ghost predicate Valid()
      reads this
    {
      Consistent(Snapshot())
    }

    constructor ()
      ensures Valid() && Snapshot() == Empty
    {
      users, orgs, members, invites, tasks, links := [], [], map[], [], [], {};
      EmptyIsConsistent();
    }

    /** `select(User).where(User.email == email).first()`, scanning the rows
        in id order. */
    method FindUserByEmail(email: string) returns (r: Option<UserId>)
      ensures r == UserByEmail(users, email)
    {
      var i := 0;
      while i < |users|
        invariant 0 <= i <= |users|
        invariant forall j :: 0 <= j < i ==> users[j].email != email
      {
        if users[i].email == email {
          return Some(i + 1);
        }
        i := i + 1;
      }
      return None;
    }

    /** The first invite for (email, org) that is not accepted yet. */
    method FindPendingInvite(email: string, org: OrgId) returns (r: Option<nat>)
      ensures r == PendingInvite(invites, email, org)
    {
      var i := 0;
      while i < |invites|
        invariant 0 <= i <= |invites|
        invariant forall j :: 0 <= j < i ==> !PendingFor(invites[j], email, org)
      {
        if !invites[i].accepted && invites[i].email == email && invites[i].org == org {
          return Some(i);
        }
        i := i + 1;
      }
      return None;
    }

    method RegisterUser(name: string, email: string, password: string, hash: string -> string)
      returns (r: Result<UserId>)
      requires Valid()
      modifies this
      ensures Valid()
      ensures Snapshot() == Users.RegisterUser(old(Snapshot()), name, email, password, hash).after
      ensures r == Users.RegisterUser(old(Snapshot()), name, email, password, hash).result
    {
      Users.RegisterKeepsConsistent(Snapshot(), name, email, password, hash);
      var existing := FindUserByEmail(email);
      if existing.Some? {
        return Err(BadRequest);
      }
      users := users + [User(name, hash(password), email, None)];
      r := Ok(|users|);
    }

    method CreateOrganisation(actor: UserId, name: string) returns (r: Result<OrgId>)
      requires Valid() && IsUser(Snapshot(), actor)
      modifies this
      ensures Valid()
      ensures Snapshot() == Orgs.CreateOrganisation(old(Snapshot()), actor, name).after
      ensures r == Orgs.CreateOrganisation(old(Snapshot()), actor, name).result
    {
      OrgProps.CreateOrganisationKeepsConsistent(Snapshot(), actor, name);
      orgs := orgs + [Org(name, actor)];
      var org := |orgs|;
      members := members[(actor, org) := Owner];
      users := users[actor - 1 := users[actor - 1].(activeOrg := Some(org))];
      r := Ok(org);
    }

    method SwitchActiveOrganisation(actor: UserId, org: OrgId) returns (r: Result<()>)
      requires Valid() && IsUser(Snapshot(), actor)
      modifies this
      ensures Valid()
      ensures Snapshot() == Orgs.SwitchActiveOrganisation(old(Snapshot()), actor, org).after
      ensures r == Orgs.SwitchActiveOrganisation(old(Snapshot()), actor, org).result
    {
      OrgProps.SwitchKeepsConsistent(Snapshot(), actor, org);
      if (actor, org) !in members {
        return Err(NotFound);
      }
      users := users[actor - 1 := users[actor - 1].(activeOrg := Some(org))];
      r := Ok(());
    }

    /** add_user with the membership guard it evidently intends. */
    method AddUser(actor: UserId, org: OrgId, email: string) returns (r: Result<()>)
      requires Valid() && IsUser(Snapshot(), actor)
      modifies this
      ensures Valid()
      ensures Snapshot() == Orgs.AddUser(old(Snapshot()), actor, org, email).after
      ensures r == Orgs.AddUser(old(Snapshot()), actor, org, email).result
    {
      OrgProps.AddUserKeepsConsistent(Snapshot(), actor, org, email);
      if (actor, org) !in members {
        return Err(Forbidden);
      }
      var wanted := FindUserByEmail(email);
      if wanted.None? {
        return Err(NotFound);
      }
      if (wanted.value, org) in members {
        return Err(Conflict);
      }
      members := members[(wanted.value, org) := Member];
      r := Ok(());
    }

    method CreateInvite(actor: UserId, org: OrgId, email: string) returns (r: Result<()>)
      requires Valid() && IsUser(Snapshot(), actor)
      modifies this
      ensures Valid()
      ensures Snapshot() == Orgs.CreateInvite(old(Snapshot()), actor, org, email).after
      ensures r == Orgs.CreateInvite(old(Snapshot()), actor, org, email).result
    {
      OrgProps.CreateInviteKeepsConsistent(Snapshot(), actor, org, email);
      if (actor, org) !in members {
        return Err(Forbidden);
      }
      if !Manages(members[(actor, org)]) {
        return Err(Forbidden);
      }
      var pending := FindPendingInvite(email, org);
      if pending.Some? {
        return Err(Conflict);
      }
      invites := invites + [Invite(email, org, actor, false)];
      r := Ok(());
    }

    method AcceptInvite(actor: UserId, org: OrgId) returns (r: Result<()>)
      requires Valid() && IsUser(Snapshot(), actor)
      modifies this
      ensures Valid()
      ensures Snapshot() == Orgs.AcceptInvite(old(Snapshot()), actor, org).after
      ensures r == Orgs.AcceptInvite(old(Snapshot()), actor, org).result
    {
      OrgProps.AcceptInviteKeepsConsistent(Snapshot(), actor, org);
      var invite := FindPendingInvite(users[actor - 1].email, org);
      if invite.None? {
        return Err(NotFound);
      }
      if (actor, org) in members {
        return Err(Conflict);
      }
      members := members[(actor, org) := Member];
      var i := invite.value;
      invites := invites[i := invites[i].(accepted := true)];
      r := Ok(());
    }

    /** promote_user, including the unchecked read of the actor's
        membership: an actor outside the organisation ends in a server error. */
    method PromoteUser(actor: UserId, org: OrgId, email: string, role: string) returns (r: Result<()>)
      requires Valid() && IsUser(Snapshot(), actor)
      modifies this
      ensures Valid()
      ensures Snapshot() == Orgs.PromoteUser(old(Snapshot()), actor, org, email, role).after
      ensures r == Orgs.PromoteUser(old(Snapshot()), actor, org, email, role).result
    {
      OrgProps.PromoteKeepsConsistent(Snapshot(), actor, org, email, role);
      if (actor, org) !in members {
        return Err(InternalError);
      }
      if !Manages(members[(actor, org)]) {
        return Err(Forbidden);
      }
      var target := FindUserByEmail(email);
      if target.None? {
        return Err(NotFound);
      }
      if (target.value, org) !in members {
        return Err(NotFound);
      }
      members := members[(target.value, org) := role];
      r := Ok(());
    }

    /** create_task: the task is committed on its own; the loop then queues
        one link row per listed organisation, and the second commit stores
        them all, unless two of them share the composite key, in which case
        none is stored. */
    method CreateTask(title: string, description: Option<string>, orgIds: Option<seq<OrgId>>)
      returns (r: Result<TaskId>)
      requires Valid()
      modifies this
      ensures Valid()
      ensures Snapshot() == Tasks.CreateTask(old(Snapshot()), title, description, orgIds).after
      ensures r == Tasks.CreateTask(old(Snapshot()), title, description, orgIds).result
    {
      TaskProps.CreateTaskKeepsConsistent(Snapshot(), title, description, orgIds);
      tasks := tasks + [Task(title, description, false)];
      var task := |tasks|;
      var ids := if orgIds.None? then [] else orgIds.value;
      var queued: seq<(TaskId, OrgId)> := [];
      for i := 0 to |ids|
        invariant |queued| == i
        invariant forall j :: 0 <= j < i ==> queued[j] == (task, ids[j])
      {
        queued := queued + [(task, ids[i])];
      }
      if exists a, b :: 0 <= a < b < |queued| && queued[a] == queued[b] {
        assert !Tasks.Distinct(ids);
        return Err(InternalError);
      }
      var rows := set j | 0 <= j < |queued| :: queued[j];
      assert rows == Tasks.LinksFor(task, ids) by {
        forall p | p in Tasks.LinksFor(task, ids) ensures p in rows {
          var j :| 0 <= j < |ids| && ids[j] == p.1;
          assert queued[j] == p;
        }
        forall p | p in rows ensures p in Tasks.LinksFor(task, ids) {
          var j :| 0 <= j < |queued| && queued[j] == p;
          assert ids[j] in ids;
        }
      }
      links := links + rows;
      r := Ok(task);
    }

    method AssignTaskToOrg(actor: UserId, task: TaskId) returns (r: Result<TaskId>)
      requires Valid() && IsUser(Snapshot(), actor)
      modifies this
      ensures Valid()
      ensures Snapshot() == Tasks.AssignTaskToOrg(old(Snapshot()), actor, task).after
      ensures r == Tasks.AssignTaskToOrg(old(Snapshot()), actor, task).result
    {
      TaskProps.AssignKeepsConsistent(Snapshot(), actor, task);
      if !(1 <= task <= |tasks|) {
        return Err(NotFound);
      }
      var active := users[actor - 1].activeOrg;
      if active.None? || active.value == 0 {
        return Err(Forbidden);
      }
      if (task, active.value) in links {
        return Err(BadRequest);
      }
      links := links + {(task, active.value)};
      r := Ok(task);
    }
  }
}
