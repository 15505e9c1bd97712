/** The task endpoints (app/api/tasks.py): creating a task, sharing it into
    the caller's active organisation, and the three listings. Listings
    answer with the ids of the task rows they select. */
module Tasks {
  import opened Models

  /** `if task_data.organisation_id:` treats a missing list and an empty one
      alike: no links. */
  function RequestedOrgs(orgIds: Option<seq<OrgId>>): seq<OrgId>
  {
    if orgIds.None? then [] else orgIds.value
  }

  predicate Distinct(ids: seq<OrgId>)
  {
    forall i, j :: 0 <= i < j < |ids| ==> ids[i] != ids[j]
  }

  /** One link row (task, o) per listed organisation. */
  function LinksFor(task: TaskId, ids: seq<OrgId>): set<(TaskId, OrgId)>
  {
    set o | o in ids :: (task, o)
  }

  /** create_task: the task row is committed first; then one link per listed
      organisation is added and committed. Two equal ids in the list collide
      on the link table's composite key, so that second commit fails: the
      task stays, without links, and the caller gets a server error. */
  function CreateTask(t: Tables, title: string, description: Option<string>,
                      orgIds: Option<seq<OrgId>>): (s: Step<TaskId>)
    ensures s.after.tasks == t.tasks + [Task(title, description, false)]
    ensures s.after == t.(tasks := s.after.tasks, links := s.after.links)
    ensures s.result.Ok? <==> Distinct(RequestedOrgs(orgIds))
    ensures s.result.Ok? ==>
      && s.result.value == |t.tasks| + 1
      && (forall o :: (|t.tasks| + 1, o) in s.after.links <==> (|t.tasks| + 1, o) in t.links || o in RequestedOrgs(orgIds))
      && (forall p :: p in s.after.links && p.0 != |t.tasks| + 1 ==> p in t.links)
      && t.links <= s.after.links
    ensures s.result.Err? ==> s.result.failure == InternalError && s.after.links == t.links
  {
    var task := |t.tasks| + 1;
    var t1 := t.(tasks := t.tasks + [Task(title, description, false)]);
    var ids := RequestedOrgs(orgIds);
    if !Distinct(ids) then Step(t1, Err(InternalError))
    else Step(t1.(links := t.links + LinksFor(task, ids)), Ok(task))
  }

  /** assign_task_to_org: 404 if no task has the id, then 403 if the actor
      has no active organisation, then 400 if the task is already linked to
      it; otherwise exactly that one link is added. */
  function AssignTaskToOrg(t: Tables, actor: UserId, task: TaskId): (s: Step<TaskId>)
    requires IsUser(t, actor)
    ensures !IsTask(t, task) ==> s.result == Err(NotFound)
    ensures IsTask(t, task) && !HasActiveOrg(UserRow(t, actor)) ==> s.result == Err(Forbidden)
    ensures (IsTask(t, task) && HasActiveOrg(UserRow(t, actor))
             && (task, UserRow(t, actor).activeOrg.value) in t.links) ==> s.result == Err(BadRequest)
    ensures (IsTask(t, task) && HasActiveOrg(UserRow(t, actor))
             && (task, UserRow(t, actor).activeOrg.value) !in t.links) ==> s.result == Ok(task)
    ensures s.result.Err? ==> s.after == t
    ensures s.result.Ok? ==>
      && s.result.value == task
      && IsTask(t, task) && HasActiveOrg(UserRow(t, actor))
      && (task, UserRow(t, actor).activeOrg.value) !in t.links
      && s.after == t.(links := t.links + {(task, UserRow(t, actor).activeOrg.value)})
  {
    if !IsTask(t, task) then Step(t, Err(NotFound))
    else if !HasActiveOrg(UserRow(t, actor)) then Step(t, Err(Forbidden))
    else
      var org := UserRow(t, actor).activeOrg.value;
      if (task, org) in t.links then Step(t, Err(BadRequest))
      else Step(t.(links := t.links + {(task, org)}), Ok(task))
  }

  /** get_tasks: 400 without an active organisation; otherwise the tasks
      joined with the links into it. */
  function OrgTasks(t: Tables, actor: UserId): (r: Result<set<TaskId>>)
    requires IsUser(t, actor)
    ensures r.Err? <==> !HasActiveOrg(UserRow(t, actor))
    ensures r.Err? ==> r.failure == BadRequest
    ensures r.Ok? ==> forall k :: k in r.value <==>
      IsTask(t, k) && (k, UserRow(t, actor).activeOrg.value) in t.links
  {
    if !HasActiveOrg(UserRow(t, actor)) then Err(BadRequest)
    else
      var org := UserRow(t, actor).activeOrg.value;
      Ok(set k | 1 <= k <= |t.tasks| && (k, org) in t.links)
  }

  /** The task ids that occur in the link table. */
  function LinkedTasks(t: Tables): set<TaskId>
  {
    set p | p in t.links :: p.0
  }

  /** get_personal_tasks: every task with no link at all, whoever asks (the
      handler takes the caller but does not use it). */
  function PersonalTasks(t: Tables): (r: set<TaskId>)
    ensures forall k :: k in r ==> IsTask(t, k)
  {
    set k | 1 <= k <= |t.tasks| && k !in LinkedTasks(t)
  }

  /** The organisations the actor has a membership row in. */
  function MemberOrgs(t: Tables, actor: UserId): (r: set<OrgId>)
    ensures forall o :: o in r <==> (actor, o) in t.members
  {
    set k | k in t.members && k.0 == actor :: k.1
  }

  /** get_all_user_tasks as evidently intended: the tasks linked to some
      organisation the actor belongs to, together with every task that has
      no link. */
  function AllUserTasks(t: Tables, actor: UserId): (r: set<TaskId>)
    ensures forall k :: k in r ==> IsTask(t, k)
  {
    var orgIds := MemberOrgs(t, actor);
    var orgTaskIds := set p | p in t.links && p.1 in orgIds :: p.0;
    set k | 1 <= k <= |t.tasks| && (k in orgTaskIds || k !in LinkedTasks(t))
  }

  /** get_all_user_tasks as written: selecting the single organisation-id
      column yields bare integers, and the comprehension that collects them
      unpacks each one as a one-element row, which raises as soon as there
      is one. With no membership the comprehension never unpacks anything,
      no task id is collected, and the answer is the personal tasks. */
  function AllUserTasksAsWritten(t: Tables, actor: UserId): (r: Result<set<TaskId>>)
    ensures r.Err? <==> MemberOrgs(t, actor) != {}
    ensures r.Err? ==> r.failure == InternalError
    ensures r.Ok? ==> r.value == PersonalTasks(t)
  {
    if MemberOrgs(t, actor) != {} then Err(InternalError) else Ok(PersonalTasks(t))
  }
}

module TaskProps {
  import opened Models
  import opened Tasks

  lemma CreateTaskKeepsConsistent(t: Tables, title: string, description: Option<string>,
                                  orgIds: Option<seq<OrgId>>)
    requires Consistent(t)
    ensures Consistent(CreateTask(t, title, description, orgIds).after)
    ensures Grows(t, CreateTask(t, title, description, orgIds).after)
  {
  }

  lemma AssignKeepsConsistent(t: Tables, actor: UserId, task: TaskId)
    requires Consistent(t) && IsUser(t, actor)
    ensures Consistent(AssignTaskToOrg(t, actor, task).after)
    ensures Grows(t, AssignTaskToOrg(t, actor, task).after)
  {
  }

  /** A task is visible to all-tasks exactly when it is linked to an
      organisation the actor belongs to or has no link at all; a task linked
      only to organisations the actor is not in is left out. */
  lemma {:induction false} AllUserTasksExact(t: Tables, actor: UserId, k: TaskId)
    ensures k in AllUserTasks(t, actor) <==>
      IsTask(t, k) &&
      ((exists o :: (k, o) in t.links && (actor, o) in t.members) || (forall o :: (k, o) !in t.links))
  {
    var orgIds := MemberOrgs(t, actor);
    var orgTaskIds := set p | p in t.links && p.1 in orgIds :: p.0;
    if exists o :: (k, o) in t.links && (actor, o) in t.members {
      var o :| (k, o) in t.links && (actor, o) in t.members;
      assert o in orgIds by { assert (actor, o) in t.members; }
      assert k in orgTaskIds by { assert (k, o) in t.links && (k, o).1 in orgIds; }
    }
    if k in orgTaskIds {
      var p :| p in t.links && p.1 in orgIds && p.0 == k;
      var m :| m in t.members && m.0 == actor && m.1 == p.1;
      assert (k, p.1) in t.links && (actor, p.1) in t.members;
    }
    LinkedTasksExact(t, k);
  }

  /** The task ids in the link table are exactly those with some link. */
  lemma LinkedTasksExact(t: Tables, k: TaskId)
    ensures k in LinkedTasks(t) ==> exists o :: (k, o) in t.links
    ensures (exists o :: (k, o) in t.links) ==> k in LinkedTasks(t)
  {
    if k in LinkedTasks(t) {
      var p :| p in t.links && p.0 == k;
      assert p == (k, p.1);
      assert (k, p.1) in t.links;
    }
    if exists o :: (k, o) in t.links {
      var o :| (k, o) in t.links;
      var p := (k, o);
      assert p in t.links;
      assert p.0 in LinkedTasks(t);
    }
  }

  /** The personal listing holds exactly the tasks without any link,
      whoever asks for it. */
  lemma PersonalTasksExact(t: Tables, k: TaskId)
    ensures k in PersonalTasks(t) <==> IsTask(t, k) && forall o :: (k, o) !in t.links
  {
    LinkedTasksExact(t, k);
  }

  /** The personal listing is part of every user's all-tasks listing. */
  lemma PersonalWithinAll(t: Tables, actor: UserId)
    ensures PersonalTasks(t) <= AllUserTasks(t, actor)
  {
    forall k | k in PersonalTasks(t) ensures k in AllUserTasks(t, actor) {
      PersonalTasksExact(t, k);
      AllUserTasksExact(t, actor, k);
    }
  }

  /** On consistent tables the active organisation is one the actor belongs
      to, so the organisation listing is part of the all-tasks listing, and
      it never shows a personal task. */
  lemma OrgTasksWithinAll(t: Tables, actor: UserId)
    requires Consistent(t) && IsUser(t, actor)
    requires OrgTasks(t, actor).Ok?
    ensures OrgTasks(t, actor).value <= AllUserTasks(t, actor)
    ensures OrgTasks(t, actor).value !! PersonalTasks(t)
  {
    var org := UserRow(t, actor).activeOrg.value;
    assert (actor, org) in t.members;
    forall k | k in OrgTasks(t, actor).value
      ensures k in AllUserTasks(t, actor) && k !in PersonalTasks(t)
    {
      AllUserTasksExact(t, actor, k);
      PersonalTasksExact(t, k);
    }
  }

  /** As written, get_all_user_tasks fails with a server error for every
      caller with an active organisation on consistent tables, since that
      caller has a membership; the intended listing answers normally. */
  lemma AllUserTasksAsWrittenFailsMembers(t: Tables, actor: UserId)
    requires Consistent(t) && IsUser(t, actor) && HasActiveOrg(UserRow(t, actor))
    ensures AllUserTasksAsWritten(t, actor) == Err(InternalError)
    ensures OrgTasks(t, actor).Ok?
  {
    var org := UserRow(t, actor).activeOrg.value;
    assert (actor, org) in t.members;
    assert org in MemberOrgs(t, actor);
  }

  /** A caller with no membership gets the same listing from the code as
      written and from the intended one. */
  lemma AllUserTasksAsWrittenAgreesWithoutMembership(t: Tables, actor: UserId)
    requires MemberOrgs(t, actor) == {}
    ensures AllUserTasksAsWritten(t, actor) == Ok(AllUserTasks(t, actor))
  {
    forall k | k in AllUserTasks(t, actor) ensures k in PersonalTasks(t) {
      AllUserTasksExact(t, actor, k);
      PersonalTasksExact(t, k);
    }
    PersonalWithinAll(t, actor);
    assert AllUserTasks(t, actor) == PersonalTasks(t);
  }

  /** A task created without organisations is personal, and so is one whose
      list repeats an id: the task row is already committed when the link
      commit fails, so it stays without links. A task created with a list of
      distinct organisations is not personal. */
  lemma CreateTaskPersonal(t: Tables, title: string, description: Option<string>,
                           orgIds: Option<seq<OrgId>>)
    requires Consistent(t)
    ensures var s := CreateTask(t, title, description, orgIds);
      (|t.tasks| + 1 in PersonalTasks(s.after)) <==>
      (RequestedOrgs(orgIds) == [] || !Distinct(RequestedOrgs(orgIds)))
  {
    var s := CreateTask(t, title, description, orgIds);
    var k := |t.tasks| + 1;
    assert forall o :: (k, o) !in t.links;
    PersonalTasksExact(s.after, k);
    if RequestedOrgs(orgIds) != [] && Distinct(RequestedOrgs(orgIds)) {
      var o := RequestedOrgs(orgIds)[0];
      assert (k, o) in s.after.links;
    }
  }

  /** Sharing a task into the same organisation twice: the second call is
      refused with 400 and the link table keeps the single row. */
  lemma AssignTwiceRefused(t: Tables, actor: UserId, task: TaskId)
    requires IsUser(t, actor)
    requires AssignTaskToOrg(t, actor, task).result.Ok?
    ensures var t' := AssignTaskToOrg(t, actor, task).after;
      AssignTaskToOrg(t', actor, task) == Step(t', Err(BadRequest))
  {
  }
}
