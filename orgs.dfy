/** The organisation endpoints (app/api/orgs.py): creating an organisation,
    the two listings, switching the active organisation, adding a member
    directly, inviting, accepting an invite and changing a member's role.
    Each mutating handler is one step from the tables before the request to
    the tables after it, with the answer it gives. */
module Orgs {
  import opened Models

  /** The fields of OrganisationRead. */
  datatype OrgRead = OrgRead(id: OrgId, name: string)

  /** The fields of OrganisationWithCreator. */
  datatype OrgWithCreator = OrgWithCreator(id: OrgId, name: string, creatorName: string)

  const UnknownCreator: string := "Unknown"

  predicate HasRole(t: Tables, u: UserId, o: OrgId, role: string)
  {
    (u, o) in t.members && t.members[(u, o)] == role
  }

  /** create_organisation: a new organisation row created by the actor, an
      owner membership for the actor in it, and the actor's active
      organisation set to it, all in one step. */
  function CreateOrganisation(t: Tables, actor: UserId, name: string): (s: Step<OrgId>)
    requires IsUser(t, actor)
    ensures s.result == Ok(|t.orgs| + 1)
    ensures var o := |t.orgs| + 1;
      && s.after.orgs == t.orgs + [Org(name, actor)]
      && s.after.members == t.members[(actor, o) := Owner]
      && |s.after.users| == |t.users|
      && UserRow(s.after, actor) == UserRow(t, actor).(activeOrg := Some(o))
      && (forall u :: IsUser(t, u) && u != actor ==> UserRow(s.after, u) == UserRow(t, u))
      && s.after.invites == t.invites && s.after.tasks == t.tasks && s.after.links == t.links
  {
    var o := |t.orgs| + 1;
    Step(t.(orgs := t.orgs + [Org(name, actor)],
            members := t.members[(actor, o) := Owner],
            users := t.users[actor - 1 := UserRow(t, actor).(activeOrg := Some(o))]),
         Ok(o))
  }

  /** get_owned_organisations: the organisations joined with the actor's
      membership rows whose role is "owner". */
  function OwnedOrganisations(t: Tables, actor: UserId): (r: set<OrgRead>)
    ensures forall x :: x in r ==> IsOrg(t, x.id) && x.name == t.orgs[x.id - 1].name
    ensures forall o :: IsOrg(t, o) ==> (OrgRead(o, t.orgs[o - 1].name) in r <==> HasRole(t, actor, o, Owner))
  {
    set o | 1 <= o <= |t.orgs| && HasRole(t, actor, o, Owner) :: OrgRead(o, t.orgs[o - 1].name)
  }

  /** `org.creator.name if org.creator else "Unknown"` */
  function CreatorName(t: Tables, o: OrgId): (r: string)
    requires IsOrg(t, o)
    ensures IsUser(t, t.orgs[o - 1].creator) ==> r == UserRow(t, t.orgs[o - 1].creator).name
    ensures !IsUser(t, t.orgs[o - 1].creator) ==> r == UnknownCreator
  {
    var c := t.orgs[o - 1].creator;
    if IsUser(t, c) then UserRow(t, c).name else UnknownCreator
  }

  /** get_belong_to_organisations: the organisations where the actor's role
      is "member" or "admin", each with its creator's name. */
  function BelongToOrganisations(t: Tables, actor: UserId): (r: set<OrgWithCreator>)
    ensures forall x :: x in r ==>
      && IsOrg(t, x.id)
      && x.name == t.orgs[x.id - 1].name
      && x.creatorName == CreatorName(t, x.id)
      && (HasRole(t, actor, x.id, Member) || HasRole(t, actor, x.id, Admin))
    ensures forall o :: IsOrg(t, o) && (HasRole(t, actor, o, Member) || HasRole(t, actor, o, Admin)) ==>
      OrgWithCreator(o, t.orgs[o - 1].name, CreatorName(t, o)) in r
  {
    set o | 1 <= o <= |t.orgs| && (HasRole(t, actor, o, Member) || HasRole(t, actor, o, Admin))
      :: OrgWithCreator(o, t.orgs[o - 1].name, CreatorName(t, o))
  }

  /** switch_active_organisation: 404 unless the actor belongs to the
      organisation; otherwise only the actor's active organisation changes. */
  function SwitchActiveOrganisation(t: Tables, actor: UserId, org: OrgId): (s: Step<()>)
    requires IsUser(t, actor)
    ensures s.result.Err? <==> (actor, org) !in t.members
    ensures s.result.Err? ==> s.result.failure == NotFound && s.after == t
    ensures s.result.Ok? ==>
      s.after == t.(users := t.users[actor - 1 := UserRow(t, actor).(activeOrg := Some(org))])
  {
    if (actor, org) !in t.members then Step(t, Err(NotFound))
    else Step(t.(users := t.users[actor - 1 := UserRow(t, actor).(activeOrg := Some(org))]), Ok(()))
  }

  /** add_user as intended: 403 unless the actor belongs to the organisation,
      404 if no user has the email, 409 if that user already belongs to it;
      otherwise one membership row with the default role. */
  function AddUser(t: Tables, actor: UserId, org: OrgId, email: string): (s: Step<()>)
    requires IsUser(t, actor)
    ensures (actor, org) !in t.members ==> s.result == Err(Forbidden)
    ensures (actor, org) in t.members && UserByEmail(t.users, email).None? ==> s.result == Err(NotFound)
    ensures ((actor, org) in t.members && UserByEmail(t.users, email).Some?
             && (UserByEmail(t.users, email).value, org) in t.members) ==> s.result == Err(Conflict)
    ensures ((actor, org) in t.members && UserByEmail(t.users, email).Some?
             && (UserByEmail(t.users, email).value, org) !in t.members) ==> s.result == Ok(())
    ensures s.result.Err? ==> s.after == t
    ensures s.result.Ok? ==>
      && (actor, org) in t.members
      && UserByEmail(t.users, email).Some?
      && var target := UserByEmail(t.users, email).value;
         && (target, org) !in t.members
         && s.after == t.(members := t.members[(target, org) := Member])
  {
    if (actor, org) !in t.members then Step(t, Err(Forbidden))
    else match UserByEmail(t.users, email)
      case None => Step(t, Err(NotFound))
      case Some(target) =>
        if (target, org) in t.members then Step(t, Err(Conflict))
        else Step(t.(members := t.members[(target, org) := Member]), Ok(()))
  }

  /** add_user as written: the membership guard applies `&` to the select
      statement itself rather than to a condition inside it; building that
      statement raises before any query runs, so every call ends in an
      unhandled exception and changes nothing. */
  function AddUserAsWritten(t: Tables, actor: UserId, org: OrgId, email: string): (s: Step<()>)
    requires IsUser(t, actor)
    ensures s == Step(t, Err(InternalError))
  {
    Step(t, Err(InternalError))
  }

  /** create_invite: 403 unless the actor belongs to the organisation, 403
      unless the actor's role is admin or owner, 409 if an invite for the
      email and organisation is still pending; otherwise one new pending
      invite from the actor. */
  function CreateInvite(t: Tables, actor: UserId, org: OrgId, email: string): (s: Step<()>)
    requires IsUser(t, actor)
    ensures (actor, org) !in t.members ==> s.result == Err(Forbidden)
    ensures (actor, org) in t.members && !Manages(t.members[(actor, org)]) ==> s.result == Err(Forbidden)
    ensures (actor, org) in t.members && Manages(t.members[(actor, org)])
            && (exists i :: 0 <= i < |t.invites| && PendingFor(t.invites[i], email, org))
            ==> s.result == Err(Conflict)
    ensures ((actor, org) in t.members && Manages(t.members[(actor, org)])
             && (forall i :: 0 <= i < |t.invites| ==> !PendingFor(t.invites[i], email, org)))
            ==> s.result == Ok(())
    ensures s.result.Err? ==> s.after == t
    ensures s.result.Ok? ==>
      && (actor, org) in t.members && Manages(t.members[(actor, org)])
      && (forall i :: 0 <= i < |t.invites| ==> !PendingFor(t.invites[i], email, org))
      && s.after == t.(invites := t.invites + [Invite(email, org, actor, false)])
  {
    if (actor, org) !in t.members then Step(t, Err(Forbidden))
    else if !Manages(t.members[(actor, org)]) then Step(t, Err(Forbidden))
    else if PendingInvite(t.invites, email, org).Some? then Step(t, Err(Conflict))
    else Step(t.(invites := t.invites + [Invite(email, org, actor, false)]), Ok(()))
  }

  /** accept_invite: 404 if no invite for the actor's email and the
      organisation is pending, 409 if the actor already belongs to it (the
      invite stays pending); otherwise a membership with the default role
      and that invite marked accepted, together. */
  function AcceptInvite(t: Tables, actor: UserId, org: OrgId): (s: Step<()>)
    requires IsUser(t, actor)
    ensures var email := UserRow(t, actor).email;
      (forall i :: 0 <= i < |t.invites| ==> !PendingFor(t.invites[i], email, org)) ==> s.result == Err(NotFound)
    ensures var email := UserRow(t, actor).email;
      ((exists i :: 0 <= i < |t.invites| && PendingFor(t.invites[i], email, org))
       && (actor, org) in t.members) ==> s.result == Err(Conflict)
    ensures var email := UserRow(t, actor).email;
      ((exists i :: 0 <= i < |t.invites| && PendingFor(t.invites[i], email, org))
       && (actor, org) !in t.members) ==> s.result == Ok(())
    ensures s.result.Err? ==> s.after == t
    ensures s.result.Ok? ==>
      && (actor, org) !in t.members
      && PendingInvite(t.invites, UserRow(t, actor).email, org).Some?
      && var i := PendingInvite(t.invites, UserRow(t, actor).email, org).value;
         s.after == t.(members := t.members[(actor, org) := Member],
                       invites := t.invites[i := t.invites[i].(accepted := true)])
  {
    match PendingInvite(t.invites, UserRow(t, actor).email, org)
    case None => Step(t, Err(NotFound))
    case Some(i) =>
      if (actor, org) in t.members then Step(t, Err(Conflict))
      else Step(t.(members := t.members[(actor, org) := Member],
                   invites := t.invites[i := t.invites[i].(accepted := true)]),
                Ok(()))
  }

  /** promote_user: the actor's membership row is read without a check that
      it exists, so an actor outside the organisation makes the handler raise
      (500); 403 unless the actor's role is admin or owner; 404 if no user has
      the email or that user does not belong to the organisation; otherwise
      the target's role becomes the requested string, whatever it is. */
  function PromoteUser(t: Tables, actor: UserId, org: OrgId, email: string, role: string): (s: Step<()>)
    requires IsUser(t, actor)
    ensures (actor, org) !in t.members ==> s.result == Err(InternalError)
    ensures (actor, org) in t.members && !Manages(t.members[(actor, org)]) ==> s.result == Err(Forbidden)
    ensures (actor, org) in t.members && Manages(t.members[(actor, org)])
            && (UserByEmail(t.users, email).None? || (UserByEmail(t.users, email).value, org) !in t.members)
            ==> s.result == Err(NotFound)
    ensures ((actor, org) in t.members && Manages(t.members[(actor, org)])
             && UserByEmail(t.users, email).Some? && (UserByEmail(t.users, email).value, org) in t.members)
            ==> s.result == Ok(())
    ensures s.result.Err? ==> s.after == t
    ensures s.result.Ok? ==>
      && (actor, org) in t.members && Manages(t.members[(actor, org)])
      && UserByEmail(t.users, email).Some?
      && var target := UserByEmail(t.users, email).value;
         && (target, org) in t.members
         && s.after == t.(members := t.members[(target, org) := role])
  {
    if (actor, org) !in t.members then Step(t, Err(InternalError))
    else if !Manages(t.members[(actor, org)]) then Step(t, Err(Forbidden))
    else match UserByEmail(t.users, email)
      case None => Step(t, Err(NotFound))
      case Some(target) =>
        if (target, org) !in t.members then Step(t, Err(NotFound))
        else Step(t.(members := t.members[(target, org) := role]), Ok(()))
  }
}

module OrgProps {
  import opened Models
  import opened Orgs

  // ---------------------------------------------------------------------
  // Each handler keeps the invariants and only lets the tables grow
  // ---------------------------------------------------------------------

  lemma CreateOrganisationKeepsConsistent(t: Tables, actor: UserId, name: string)
    requires Consistent(t) && IsUser(t, actor)
    ensures Consistent(CreateOrganisation(t, actor, name).after)
    ensures Grows(t, CreateOrganisation(t, actor, name).after)
  {
  }

  lemma SwitchKeepsConsistent(t: Tables, actor: UserId, org: OrgId)
    requires Consistent(t) && IsUser(t, actor)
    ensures Consistent(SwitchActiveOrganisation(t, actor, org).after)
    ensures Grows(t, SwitchActiveOrganisation(t, actor, org).after)
  {
  }

  lemma AddUserKeepsConsistent(t: Tables, actor: UserId, org: OrgId, email: string)
    requires Consistent(t) && IsUser(t, actor)
    ensures Consistent(AddUser(t, actor, org, email).after)
    ensures Grows(t, AddUser(t, actor, org, email).after)
  {
  }

  lemma CreateInviteKeepsConsistent(t: Tables, actor: UserId, org: OrgId, email: string)
    requires Consistent(t) && IsUser(t, actor)
    ensures Consistent(CreateInvite(t, actor, org, email).after)
    ensures Grows(t, CreateInvite(t, actor, org, email).after)
  {
  }

  lemma AcceptInviteKeepsConsistent(t: Tables, actor: UserId, org: OrgId)
    requires Consistent(t) && IsUser(t, actor)
    ensures Consistent(AcceptInvite(t, actor, org).after)
    ensures Grows(t, AcceptInvite(t, actor, org).after)
  {
  }

  lemma PromoteKeepsConsistent(t: Tables, actor: UserId, org: OrgId, email: string, role: string)
    requires Consistent(t) && IsUser(t, actor)
    ensures Consistent(PromoteUser(t, actor, org, email, role).after)
    ensures Grows(t, PromoteUser(t, actor, org, email, role).after)
  {
  }

  // ---------------------------------------------------------------------
  // What the handlers promise, across calls
  // ---------------------------------------------------------------------

  /** After create_organisation the actor owns exactly one more organisation,
      the new one, which the actor created and which is now the actor's
      active organisation. */
  lemma CreateOrganisationMakesOwner(t: Tables, actor: UserId, name: string)
    requires Consistent(t) && IsUser(t, actor)
    ensures CreateOrganisation(t, actor, name).after.orgs[|t.orgs|].creator == actor
    ensures OwnedOrganisations(CreateOrganisation(t, actor, name).after, actor)
            == OwnedOrganisations(t, actor) + {OrgRead(|t.orgs| + 1, name)}
    ensures var u := UserRow(CreateOrganisation(t, actor, name).after, actor);
      HasActiveOrg(u) && u.activeOrg == Some(|t.orgs| + 1)
  {
    var t' := CreateOrganisation(t, actor, name).after;
    var o := |t.orgs| + 1;
    assert (actor, o) !in t.members;
    var before, after := OwnedOrganisations(t, actor), OwnedOrganisations(t', actor);
    forall x | x in after ensures x in before + {OrgRead(o, name)} {
      if x.id != o {
        assert HasRole(t, actor, x.id, Owner) && x.name == t.orgs[x.id - 1].name;
      }
    }
    forall x | x in before ensures x in after {
      assert HasRole(t', actor, x.id, Owner) && t'.orgs[x.id - 1] == t.orgs[x.id - 1];
    }
    assert HasRole(t', actor, o, Owner) && t'.orgs[o - 1].name == name;
  }

  /** The belonged-to listing depends only on the organisation rows, the
      users' names and which organisations the actor is a member or admin of. */
  lemma BelongToFrame(t: Tables, t': Tables, actor: UserId)
    requires t.orgs <= t'.orgs && |t.users| == |t'.users|
    requires forall i :: 0 <= i < |t.users| ==> t'.users[i].name == t.users[i].name
    requires forall o :: 1 <= o <= |t'.orgs| ==>
      ((HasRole(t', actor, o, Member) || HasRole(t', actor, o, Admin)) <==>
       (o <= |t.orgs| && (HasRole(t, actor, o, Member) || HasRole(t, actor, o, Admin))))
    ensures BelongToOrganisations(t', actor) == BelongToOrganisations(t, actor)
  {
    var b, b' := BelongToOrganisations(t, actor), BelongToOrganisations(t', actor);
    forall x | x in b' ensures x in b {
      assert t'.orgs[x.id - 1] == t.orgs[x.id - 1];
    }
    forall x | x in b ensures x in b' {
      assert t'.orgs[x.id - 1] == t.orgs[x.id - 1];
    }
  }

  /** The new organisation is not listed among those the actor merely
      belongs to: that listing is the same before and after. */
  lemma CreateOrganisationKeepsBelongTo(t: Tables, actor: UserId, name: string)
    requires Consistent(t) && IsUser(t, actor)
    ensures BelongToOrganisations(CreateOrganisation(t, actor, name).after, actor)
            == BelongToOrganisations(t, actor)
  {
    var t' := CreateOrganisation(t, actor, name).after;
    assert Owner != Member && Owner != Admin by {
      assert Owner[0] != Member[0] && Owner[0] != Admin[0];
    }
    BelongToFrame(t, t', actor);
  }

  /** No organisation is listed both as owned and as belonged-to. */
  lemma OwnedAndBelongToDisjoint(t: Tables, actor: UserId)
    ensures forall x, y :: x in OwnedOrganisations(t, actor) && y in BelongToOrganisations(t, actor) ==> x.id != y.id
  {
    assert Owner != Member && Owner != Admin by {
      assert Owner[0] != Member[0] && Owner[0] != Admin[0];
    }
  }

  /** Every creator is a registered user, so the "Unknown" fallback is never
      what a listing shows on consistent tables. */
  lemma BelongToNamesCreators(t: Tables, actor: UserId)
    requires Consistent(t)
    ensures forall x :: x in BelongToOrganisations(t, actor) ==>
      x.creatorName == UserRow(t, t.orgs[x.id - 1].creator).name
  {
  }

  /** A successful switch makes the organisation the actor's active one, in
      the sense the task handlers test it (set and not 0). */
  lemma SwitchSetsActive(t: Tables, actor: UserId, org: OrgId)
    requires Consistent(t) && IsUser(t, actor)
    requires SwitchActiveOrganisation(t, actor, org).result.Ok?
    ensures var u := UserRow(SwitchActiveOrganisation(t, actor, org).after, actor);
      HasActiveOrg(u) && u.activeOrg.value == org
  {
  }

  /** Once an invite is pending, a second one for the same email and
      organisation is refused with 409. */
  lemma InviteTwiceConflicts(t: Tables, actor: UserId, org: OrgId, email: string, other: UserId)
    requires IsUser(t, actor) && IsUser(t, other)
    requires CreateInvite(t, actor, org, email).result.Ok?
    requires (other, org) in t.members && Manages(t.members[(other, org)])
    ensures var t' := CreateInvite(t, actor, org, email).after;
      CreateInvite(t', other, org, email) == Step(t', Err(Conflict))
  {
    var t' := CreateInvite(t, actor, org, email).after;
    assert PendingFor(t'.invites[|t.invites|], email, org);
  }

  /** Accepting twice: the first acceptance consumed the only pending invite,
      so the second finds none and is refused with 404, changing nothing. */
  lemma AcceptTwiceFails(t: Tables, actor: UserId, org: OrgId)
    requires Consistent(t) && IsUser(t, actor)
    requires AcceptInvite(t, actor, org).result.Ok?
    ensures var t' := AcceptInvite(t, actor, org).after;
      AcceptInvite(t', actor, org) == Step(t', Err(NotFound))
  {
    var email := UserRow(t, actor).email;
    var i := PendingInvite(t.invites, email, org).value;
    var t' := AcceptInvite(t, actor, org).after;
    forall j | 0 <= j < |t'.invites| ensures !PendingFor(t'.invites[j], email, org) {
    }
  }

  /** The asymmetry between the two ways in: a plain member may add a user
      directly (the intended guard asks only for membership) but may not
      invite one. */
  lemma MemberMayAddButNotInvite(t: Tables, actor: UserId, org: OrgId, email: string)
    requires IsUser(t, actor) && HasRole(t, actor, org, Member)
    ensures AddUser(t, actor, org, email).result != Err(Forbidden)
    ensures CreateInvite(t, actor, org, email).result == Err(Forbidden)
  {
    assert !Manages(Member) by {
      assert Member[0] != Admin[0] && Member != Owner;
    }
  }

  /** promote_user overwrites any role, the creator's included: an admin can
      make the creator a plain member, so "the creator is an owner" holds
      when the organisation is created but is not kept. */
  lemma PromoteCanDemoteCreator()
    ensures exists t: Tables ::
      && Consistent(t) && |t.orgs| == 1 && IsUser(t, 2)
      && HasRole(t, t.orgs[0].creator, 1, Owner)
      && var s := PromoteUser(t, 2, 1, "a", Member);
         s.result.Ok? && HasRole(s.after, s.after.orgs[0].creator, 1, Member)
  {
    var t := Tables([User("A", "h", "a", Some(1)), User("B", "h", "b", Some(1))],
                    [Org("O", 1)],
                    map[(1, 1) := Owner, (2, 1) := Admin],
                    [], [], {});
    assert t.users[0].email != t.users[1].email;
    assert UserByEmail(t.users, "a") == Some(1);
    var s := PromoteUser(t, 2, 1, "a", Member);
    assert s.result.Ok?;
  }

  /** The add_user defect: on a request the intended guard accepts (the actor
      belongs to the organisation, the target is registered and not yet a
      member) the handler as written fails with a server error. */
  lemma AddUserAsWrittenRefusesMembers()
    ensures exists t: Tables, actor: UserId, org: OrgId, email: string ::
      && Consistent(t) && IsUser(t, actor)
      && AddUser(t, actor, org, email).result == Ok(())
      && AddUserAsWritten(t, actor, org, email).result == Err(InternalError)
  {
    var t := Tables([User("A", "h", "a", Some(1)), User("B", "h", "b", None)],
                    [Org("O", 1)],
                    map[(1, 1) := Owner],
                    [], [], {});
    assert t.users[0].email != t.users[1].email;
    assert UserByEmail(t.users, "b") == Some(2);
    assert AddUser(t, 1, 1, "b").result == Ok(());
  }
}
