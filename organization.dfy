/** The organisation aggregate of the user service: users and invites
    held in one entity, with every accepted change also appended to an
    in-memory event log that the repository later replays. The log and
    the entity live in `DomainEntity`, the base of every aggregate; the
    aggregate holds one and updates it in place. */
module Organization {
  import opened Common

  /** `DomainEntity`: an entity plus the log of its events. */
  class DomainEntity<Ev, En> {
    var entity: En
    var events: seq<Ev>

    /** The entity is kept as given; the log starts as the given list, or
        empty when none is given. */
    constructor (entity: En, events: Option<seq<Ev>>)
      ensures this.entity == entity
      ensures this.events == if events.Some? then events.value else []
    {
      this.entity := entity;
      if events.Some? {
        this.events := events.value;
      } else {
        this.events := [];
      }
    }

    /** `getEvents`: the log as it stands now. */
    function GetEvents(): seq<Ev>
      reads this
    {
      events
    }
  }

  /** A row that has not been stored yet has no key. */
  datatype UserEntity = UserEntity(id: Option<string>, email: string, role: Role, position: Option<string>)

  datatype InviteEntity = InviteEntity(id: Option<string>, email: string, role: Role)

  datatype OrgEntity = OrgEntity(id: Option<string>, users: seq<UserEntity>, invites: seq<InviteEntity>)

  datatype OrgEvent =
    | CreateUserEvent(email: string, password: string, role: Role, position: Option<string>)
    | DeleteUserEvent(id: string)
    | CreateInviteEvent(email: string, role: Role)
    | DeleteInviteEvent(id: string)

  /** The aggregate's state: its entity and its event log. */
  datatype Org = Org(entity: OrgEntity, events: seq<OrgEvent>)

  function InviteByEmail(invites: seq<InviteEntity>, email: string): Option<nat>
  {
    FindFirst(invites, (i: InviteEntity) => i.email == email)
  }

  function UserByEmail(users: seq<UserEntity>, email: string): Option<nat>
  {
    FindFirst(users, (u: UserEntity) => u.email == email)
  }

  function UserById(users: seq<UserEntity>, id: string): Option<nat>
  {
    FindFirst(users, (u: UserEntity) => u.id == Some(id))
  }

  function InviteById(invites: seq<InviteEntity>, id: string): Option<nat>
  {
    FindFirst(invites, (i: InviteEntity) => i.id == Some(id))
  }

  /** Adds a user and the matching event, as both branches of `createUser` do. */
  function AddUser(o: Org, email: string, password: string, role: Role): Org
  {
    Org(o.entity.(users := o.entity.users + [UserEntity(None, email, role, None)]),
        o.events + [CreateUserEvent(email, password, role, None)])
  }

  /** `createUser` as a transition: the first user becomes ADMIN without
      an invite; every later one needs an invite for that email and takes
      the invite's role. The invite stays in place. */
  function ApplyCreateUser(o: Org, email: string, password: string): Result<Org>
  {
    var invite := InviteByEmail(o.entity.invites, email);
    if |o.entity.users| == 0 then Ok(AddUser(o, email, password, Admin))
    else match invite
      case None => Err(Api("User is not invited", Some(400)))
      case Some(k) => Ok(AddUser(o, email, password, o.entity.invites[k].role))
  }

  /** A found user counts only when its key is non-empty (`!user?.id`). */
  predicate HasTruthyId(users: seq<UserEntity>, found: Option<nat>)
  {
    found.Some? && found.value < |users| && users[found.value].id.Some? && users[found.value].id.value != ""
  }

  /** `deleteUser` as a transition: both users must be found with a key,
      and nobody may remove themselves; only the event is recorded, the
      user list is left as it is. */
  function ApplyDeleteUser(o: Org, userId: string, initiatorUserId: string): Result<Org>
  {
    var initiator := UserById(o.entity.users, initiatorUserId);
    var deleted := UserById(o.entity.users, userId);
    if !HasTruthyId(o.entity.users, deleted) || !HasTruthyId(o.entity.users, initiator) then
      Err(Api("User not found", None))
    else if userId == initiatorUserId then Err(Api("Cannot remove yourself", None))
    else Ok(o.(events := o.events + [DeleteUserEvent(o.entity.users[deleted.value].id.value)]))
  }

  /** `createInvite` as a transition: no second invite and no invite for
      an existing user's email. */
  function ApplyCreateInvite(o: Org, email: string, role: Role): Result<Org>
  {
    if InviteByEmail(o.entity.invites, email).Some? then Err(Api("Invite already exists", None))
    else if UserByEmail(o.entity.users, email).Some? then Err(Api("User already exists", None))
    else Ok(Org(o.entity.(invites := o.entity.invites + [InviteEntity(None, email, role)]),
                o.events + [CreateInviteEvent(email, role)]))
  }

  /** `deleteInvite` as a transition: the invite must exist; every invite
      with that key is removed. */
  function ApplyDeleteInvite(o: Org, id: string): Result<Org>
  {
    if InviteById(o.entity.invites, id).None? then Err(Api("Invite not found", Some(404)))
    else Ok(Org(o.entity.(invites := Filter(o.entity.invites, (i: InviteEntity) => i.id != Some(id))),
                o.events + [DeleteInviteEvent(id)]))
  }

  /** The first user needs no invite and becomes ADMIN, with one
      create_user event carrying that role. */
  lemma FirstUserIsAdmin(o: Org, email: string, password: string)
    requires o.entity.users == []
    ensures var r := ApplyCreateUser(o, email, password);
            && r.Ok?
            && r.value.entity.users == [UserEntity(None, email, Admin, None)]
            && r.value.entity.invites == o.entity.invites
            && r.value.events == o.events + [CreateUserEvent(email, password, Admin, None)]
  {
  }

  /** Once there are users, creation succeeds exactly when an invite for
      the email exists; the new user takes the role of the first such
      invite, the invite is not consumed, and one event is appended. */
  lemma LaterUserNeedsInvite(o: Org, email: string, password: string)
    requires o.entity.users != []
    ensures var r := ApplyCreateUser(o, email, password);
            && (r.Ok? <==> exists k :: 0 <= k < |o.entity.invites| && o.entity.invites[k].email == email)
            && (r.Err? ==> r.error == Api("User is not invited", Some(400)))
            && (r.Ok? ==>
                  var k := InviteByEmail(o.entity.invites, email).value;
                  && r.value.entity.users == o.entity.users + [UserEntity(None, email, o.entity.invites[k].role, None)]
                  && r.value.entity.invites == o.entity.invites
                  && r.value.events == o.events + [CreateUserEvent(email, password, o.entity.invites[k].role, None)])
  {
  }

  /** Deletion succeeds exactly when both users are found with a
      non-empty key and they differ; the user list never changes and one
      delete_user event naming the target is appended. */
  lemma DeleteUserCases(o: Org, userId: string, initiatorUserId: string)
    ensures var r := ApplyDeleteUser(o, userId, initiatorUserId);
            && (r.Ok? <==>
                  && userId != "" && initiatorUserId != "" && userId != initiatorUserId
                  && (exists k :: 0 <= k < |o.entity.users| && o.entity.users[k].id == Some(userId))
                  && (exists k :: 0 <= k < |o.entity.users| && o.entity.users[k].id == Some(initiatorUserId)))
            && (r.Ok? ==> r.value.entity == o.entity && r.value.events == o.events + [DeleteUserEvent(userId)])
            && (r.Err? ==>
                  r.error == (if && userId != "" && initiatorUserId != ""
                                 && (exists k :: 0 <= k < |o.entity.users| && o.entity.users[k].id == Some(userId))
                                 && (exists k :: 0 <= k < |o.entity.users| && o.entity.users[k].id == Some(initiatorUserId))
                              then Api("Cannot remove yourself", None)
                              else Api("User not found", None)))
  {
  }

  /** Nobody can remove themselves. */
  lemma CannotRemoveYourself(o: Org, userId: string)
    ensures ApplyDeleteUser(o, userId, userId).Err?
    ensures userId != "" && (exists k :: 0 <= k < |o.entity.users| && o.entity.users[k].id == Some(userId)) ==>
              ApplyDeleteUser(o, userId, userId) == Err(Api("Cannot remove yourself", None))
  {
  }

  /** No two invites share an email. */
  predicate DistinctInviteEmails(invites: seq<InviteEntity>)
  {
    forall i, j :: 0 <= i < j < |invites| ==> invites[i].email != invites[j].email
  }

  /** An invite is created exactly when neither an invite nor a user has
      the email; it goes last with one create_invite event, the invite
      emails stay distinct, and the same invite a second time is refused. */
  lemma CreateInviteCases(o: Org, email: string, role: Role)
    requires DistinctInviteEmails(o.entity.invites)
    ensures var r := ApplyCreateInvite(o, email, role);
            && (r.Ok? <==>
                  && (forall k :: 0 <= k < |o.entity.invites| ==> o.entity.invites[k].email != email)
                  && (forall k :: 0 <= k < |o.entity.users| ==> o.entity.users[k].email != email))
            && ((exists k :: 0 <= k < |o.entity.invites| && o.entity.invites[k].email == email) ==>
                  r == Err(Api("Invite already exists", None)))
            && ((forall k :: 0 <= k < |o.entity.invites| ==> o.entity.invites[k].email != email) &&
                (exists k :: 0 <= k < |o.entity.users| && o.entity.users[k].email == email) ==>
                  r == Err(Api("User already exists", None)))
            && (r.Ok? ==>
                  && r.value.entity.invites == o.entity.invites + [InviteEntity(None, email, role)]
                  && r.value.entity.users == o.entity.users
                  && r.value.events == o.events + [CreateInviteEvent(email, role)]
                  && DistinctInviteEmails(r.value.entity.invites)
                  && ApplyCreateInvite(r.value, email, role) == Err(Api("Invite already exists", None)))
  {
    var r := ApplyCreateInvite(o, email, role);
    if r.Ok? {
      var invites := r.value.entity.invites;
      assert invites[|invites| - 1].email == email;
    }
  }

  /** An invite is deleted exactly when one has the key; afterwards none
      has it, every other invite is kept in order, one delete_invite event
      is appended, and deleting it again is refused. */
  lemma DeleteInviteCases(o: Org, id: string)
    ensures var r := ApplyDeleteInvite(o, id);
            && (r.Ok? <==> exists k :: 0 <= k < |o.entity.invites| && o.entity.invites[k].id == Some(id))
            && (r.Err? ==> r.error == Api("Invite not found", Some(404)))
            && (r.Ok? ==>
                  var left := r.value.entity.invites;
                  && (forall k :: 0 <= k < |left| ==> left[k].id != Some(id) && left[k] in o.entity.invites)
                  && (forall k :: 0 <= k < |o.entity.invites| && o.entity.invites[k].id != Some(id) ==> o.entity.invites[k] in left)
                  && r.value.entity.users == o.entity.users
                  && r.value.events == o.events + [DeleteInviteEvent(id)]
                  && ApplyDeleteInvite(r.value, id).Err?)
  {
  }

  /** The log only grows: every accepted change appends exactly one event
      and keeps the earlier ones. */
  lemma EventLogAppendOnly(o: Org, email: string, password: string, role: Role, userId: string, initiatorUserId: string, id: string)
    ensures forall r :: r in [ApplyCreateUser(o, email, password), ApplyDeleteUser(o, userId, initiatorUserId),
                              ApplyCreateInvite(o, email, role), ApplyDeleteInvite(o, id)] && r.Ok? ==>
              |r.value.events| == |o.events| + 1 && r.value.events[..|o.events|] == o.events
  {
  }

  /** The aggregate, holding its `DomainEntity` and updating it in place. */
  class OrganizationAggregate {
    const base: DomainEntity<OrgEvent, OrgEntity>

    constructor (entity: OrgEntity, events: Option<seq<OrgEvent>>)
      ensures Snapshot() == Org(entity, if events.Some? then events.value else [])
    {
      base := new DomainEntity(entity, events);
    }

    function Snapshot(): Org
      reads this, base
    {
      Org(base.entity, base.events)
    }

    /** `getEvents`. */
    function GetEvents(): seq<OrgEvent>
      reads this, base
    {
      base.GetEvents()
    }

    /** `createUser`. */
    method CreateUser(email: string, password: string) returns (res: Outcome)
      modifies base
      ensures var r := ApplyCreateUser(old(Snapshot()), email, password);
              res == OutcomeOf(r) && Snapshot() == if r.Ok? then r.value else old(Snapshot())
    {
      var invite := InviteByEmail(base.entity.invites, email);
      var isFirstUser := |base.entity.users| == 0;
      if isFirstUser {
        base.entity := base.entity.(users := base.entity.users + [UserEntity(None, email, Admin, None)]);
        base.events := base.events + [CreateUserEvent(email, password, Admin, None)];
        return Pass;
      }
      if invite.None? {
        return Fail(Api("User is not invited", Some(400)));
      }
      var role := base.entity.invites[invite.value].role;
      base.entity := base.entity.(users := base.entity.users + [UserEntity(None, email, role, None)]);
      base.events := base.events + [CreateUserEvent(email, password, role, None)];
      res := Pass;
    }

    /** `deleteUser`. */
    method DeleteUser(userId: string, initiatorUserId: string) returns (res: Outcome)
      modifies base
      ensures var r := ApplyDeleteUser(old(Snapshot()), userId, initiatorUserId);
              res == OutcomeOf(r) && Snapshot() == if r.Ok? then r.value else old(Snapshot())
    {
      var initiator := UserById(base.entity.users, initiatorUserId);
      var deleted := UserById(base.entity.users, userId);
      if !HasTruthyId(base.entity.users, deleted) || !HasTruthyId(base.entity.users, initiator) {
        return Fail(Api("User not found", None));
      }
      if userId == initiatorUserId {
        return Fail(Api("Cannot remove yourself", None));
      }
      base.events := base.events + [DeleteUserEvent(base.entity.users[deleted.value].id.value)];
      res := Pass;
    }

    /** `createInvite`. */
    method CreateInvite(email: string, role: Role) returns (res: Outcome)
      modifies base
      ensures var r := ApplyCreateInvite(old(Snapshot()), email, role);
              res == OutcomeOf(r) && Snapshot() == if r.Ok? then r.value else old(Snapshot())
    {
      if InviteByEmail(base.entity.invites, email).Some? {
        return Fail(Api("Invite already exists", None));
      }
      if UserByEmail(base.entity.users, email).Some? {
        return Fail(Api("User already exists", None));
      }
      base.entity := base.entity.(invites := base.entity.invites + [InviteEntity(None, email, role)]);
      base.events := base.events + [CreateInviteEvent(email, role)];
      res := Pass;
    }

    /** `deleteInvite`. */
    method DeleteInvite(id: string) returns (res: Outcome)
      modifies base
      ensures var r := ApplyDeleteInvite(old(Snapshot()), id);
              res == OutcomeOf(r) && Snapshot() == if r.Ok? then r.value else old(Snapshot())
    {
      if InviteById(base.entity.invites, id).None? {
        return Fail(Api("Invite not found", Some(404)));
      }
      base.entity := base.entity.(invites := Filter(base.entity.invites, (i: InviteEntity) => i.id != Some(id)));
      base.events := base.events + [DeleteInviteEvent(id)];
      res := Pass;
    }
  }
}
