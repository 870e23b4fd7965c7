/** The command handlers of the time-off service that change state:
    resolving a leave request, creating a team, and merging new members
    into a team. The request and team tables are the fields of
    `TimeoffsDatabase`; each handler is a method proved against a
    transition function on a `TimeoffsState` value. */
module Timeoffs {
  import opened Common
  import opened UniqList

  datatype LeaveType = TimeOff | SickLeave

  datatype LeaveStatus = Approved | Declined | Waiting

  /** A leave request row; the dates are instants in milliseconds. */
  datatype LeaveRequest = LeaveRequest(
    id: string,
    userId: string,
    leaveType: LeaveType,
    status: LeaveStatus,
    reviewedBy: Option<string>,
    teamId: string,
    startDate: int,
    endDate: int)

  /** A team row; the representative may be absent (a nullable column). */
  datatype Team = Team(id: string, representativeId: Option<string>, memberIds: seq<string>, name: string)

  /** The single settings row. */
  datatype Settings = Settings(maxVacationDays: int, maxSickDays: int)

  /** The contents of the request and team tables. */
  datatype TimeoffsState = TimeoffsState(requests: seq<LeaveRequest>, teams: seq<Team>)

  /** Primary keys are unique in both tables. */
  ghost predicate ValidState(st: TimeoffsState)
  {
    && (forall i, j :: 0 <= i < j < |st.requests| ==> st.requests[i].id != st.requests[j].id)
    && (forall i, j :: 0 <= i < j < |st.teams| ==> st.teams[i].id != st.teams[j].id)
  }

  function TeamIndex(teams: seq<Team>, teamId: string): Option<nat>
  {
    FindFirst(teams, (t: Team) => t.id == teamId)
  }

  /** The join of the lookup: the request's team exists and `userId` is
      its representative. */
  predicate RepresentedBy(teams: seq<Team>, r: LeaveRequest, userId: string)
  {
    exists k :: 0 <= k < |teams| && teams[k].id == r.teamId && teams[k].representativeId == Some(userId)
  }

  /** The request with this id, looked up only among requests whose team
      the caller represents. */
  function RequestIndex(st: TimeoffsState, requestId: string, userId: string): Option<nat>
  {
    FindFirst(st.requests, (r: LeaveRequest) => r.id == requestId && RepresentedBy(st.teams, r, userId))
  }

  // ---------------------------------------------------------------------
  // Resolving a leave request

  /** The resolve handler as a transition: the request must be found
      through a team the caller represents, and must still be waiting;
      then its status becomes the requested one and the caller is recorded
      as the reviewer. The requested status is not checked. */
  function ApplyUpdateLeaveRequest(st: TimeoffsState, requestId: string, status: LeaveStatus, userId: string): Result<TimeoffsState>
  {
    match RequestIndex(st, requestId, userId)
    case None => Err(NotFound("LeaveRequestEntity"))
    case Some(k) =>
      if st.requests[k].status != Waiting then Err(BadRequest("Leave request is not waiting for approval"))
      else Ok(st.(requests := st.requests[k := st.requests[k].(status := status, reviewedBy := Some(userId))]))
  }

  /** With unique ids, resolving succeeds exactly when the caller
      represents the request's team and the request is waiting; it writes
      the status and the reviewer of that request and nothing else. */
  lemma {:induction false} UpdateLeaveRequestCases(st: TimeoffsState, i: int, status: LeaveStatus, userId: string)
    requires ValidState(st)
    requires 0 <= i < |st.requests|
    ensures var req := st.requests[i];
            var r := ApplyUpdateLeaveRequest(st, req.id, status, userId);
            && (r.Ok? <==> RepresentedBy(st.teams, req, userId) && req.status == Waiting)
            && (!RepresentedBy(st.teams, req, userId) ==> r == Err(NotFound("LeaveRequestEntity")))
            && (RepresentedBy(st.teams, req, userId) && req.status != Waiting ==>
                  r == Err(BadRequest("Leave request is not waiting for approval")))
            && (r.Ok? ==> r.value == st.(requests := st.requests[i := req.(status := status, reviewedBy := Some(userId))]))
  {
    var req := st.requests[i];
    var found := RequestIndex(st, req.id, userId);
    if found.Some? {
      assert found.value == i;
    }
  }

  /** A request id that matches no request of a team the caller
      represents is not found, and nothing is written. */
  lemma UnknownLeaveRequest(st: TimeoffsState, requestId: string, status: LeaveStatus, userId: string)
    requires forall i :: 0 <= i < |st.requests| ==>
               st.requests[i].id != requestId || !RepresentedBy(st.teams, st.requests[i], userId)
    ensures ApplyUpdateLeaveRequest(st, requestId, status, userId) == Err(NotFound("LeaveRequestEntity"))
  {
    assert RequestIndex(st, requestId, userId).None?;
  }

  /** A resolved request is final: once approved or declined, every
      further resolution fails, whoever asks and whatever status they send. */
  lemma ResolvedIsFinal(st: TimeoffsState, i: int, status: LeaveStatus, userId: string, status2: LeaveStatus, userId2: string)
    requires ValidState(st)
    requires 0 <= i < |st.requests|
    requires status != Waiting
    requires ApplyUpdateLeaveRequest(st, st.requests[i].id, status, userId).Ok?
    ensures var st' := ApplyUpdateLeaveRequest(st, st.requests[i].id, status, userId).value;
            ApplyUpdateLeaveRequest(st', st.requests[i].id, status2, userId2).Err?
  {
    UpdateLeaveRequestCases(st, i, status, userId);
    var st' := ApplyUpdateLeaveRequest(st, st.requests[i].id, status, userId).value;
    assert ValidState(st') by {
      forall a, b | 0 <= a < b < |st'.requests|
        ensures st'.requests[a].id != st'.requests[b].id
      {
        assert st'.requests[a].id == st.requests[a].id;
        assert st'.requests[b].id == st.requests[b].id;
      }
    }
    UpdateLeaveRequestCases(st', i, status2, userId2);
  }

  // ---------------------------------------------------------------------
  // Teams

  predicate MayManageTeams(role: Role)
  {
    role == Manager || role == Admin
  }

  /** The member list of a new team: the creator first, then the given
      members, without repeats. */
  function InitialMembers(creator: string, members: seq<string>): seq<string>
  {
    Uniq([creator] + members)
  }

  /** The creator leads the new member list, which has no repeats, holds
      every given member, and keeps their order after the creator. */
  lemma InitialMembersShape(creator: string, members: seq<string>)
    ensures var m := InitialMembers(creator, members);
            && m != [] && m[0] == creator
            && NoDup(m)
            && (forall i :: 0 <= i < |members| ==> members[i] in m)
            && (forall i :: 0 <= i < |m| ==> m[i] == creator || m[i] in members)
            && (NoDup([creator] + members) ==> m == [creator] + members)
  {
    UniqHead([creator] + members);
    var xs := [creator] + members;
    forall i | 0 <= i < |members|
      ensures members[i] in InitialMembers(creator, members)
    {
      assert members[i] == xs[i + 1];
    }
    if NoDup(xs) {
      UniqOfNoDup(xs);
    }
  }

  /** The new row of the create-team handler. */
  function NewTeam(user: UserData, name: string, members: seq<string>, newId: string): Team
  {
    Team(newId, Some(user.id), InitialMembers(user.id, members), name)
  }

  /** The create-team handler as a transition: MANAGER and ADMIN only;
      the caller becomes the representative; the new key is returned. */
  function ApplyCreateTeam(st: TimeoffsState, user: UserData, name: string, members: seq<string>, newId: string): Result<(TimeoffsState, string)>
  {
    if !MayManageTeams(user.role) then Err(Forbidden("Forbidden"))
    else Ok((st.(teams := st.teams + [NewTeam(user, name, members, newId)]), newId))
  }

  /** The merge of the update-team and add-to-team handlers. */
  function MergeMembers(current: seq<string>, added: seq<string>): seq<string>
  {
    Uniq(current + added)
  }

  /** Merging never removes a member: the old list stays as a prefix when
      it had no repeats, every added member is present, and the result has
      no repeats; merging the same members again changes nothing. */
  lemma MergeMembersShape(current: seq<string>, added: seq<string>)
    ensures var m := MergeMembers(current, added);
            && NoDup(m)
            && (NoDup(current) ==> current <= m)
            && (forall i :: 0 <= i < |current| ==> current[i] in m)
            && (forall i :: 0 <= i < |added| ==> added[i] in m)
            && (forall i :: 0 <= i < |m| ==> m[i] in current || m[i] in added)
            && MergeMembers(m, added) == m
  {
    var xs := current + added;
    if NoDup(current) {
      UniqPrefix(current, added);
      UniqOfNoDup(current);
    }
    forall i | 0 <= i < |current|
      ensures current[i] in MergeMembers(current, added)
    {
      assert current[i] == xs[i];
    }
    forall i | 0 <= i < |added|
      ensures added[i] in MergeMembers(current, added)
    {
      assert added[i] == xs[|current| + i];
    }
    MergeIdempotent(current, added);
  }

  /** The update-team and add-to-team handlers as a transition: MANAGER and
      ADMIN only, the team must exist, and only its member list changes. */
  function ApplyMergeMembers(st: TimeoffsState, user: UserData, teamId: string, added: seq<string>): Result<TimeoffsState>
  {
    if !MayManageTeams(user.role) then Err(Forbidden("Forbidden"))
    else match TeamIndex(st.teams, teamId)
      case None => Err(NotFound("TeamEntity"))
      case Some(k) =>
        Ok(st.(teams := st.teams[k := st.teams[k].(memberIds := MergeMembers(st.teams[k].memberIds, added))]))
  }

  /** The role check comes first; an unknown team is not found; on success
      only that team's member list is rewritten and name and representative
      stay. Sending the same members twice equals sending them once. */
  lemma MergeMembersCases(st: TimeoffsState, user: UserData, teamId: string, added: seq<string>)
    ensures var r := ApplyMergeMembers(st, user, teamId, added);
            && (!MayManageTeams(user.role) ==> r == Err(Forbidden("Forbidden")))
            && (MayManageTeams(user.role) ==> (r.Ok? <==> exists k :: 0 <= k < |st.teams| && st.teams[k].id == teamId))
            && (MayManageTeams(user.role) && (forall k :: 0 <= k < |st.teams| ==> st.teams[k].id != teamId) ==>
                  r == Err(NotFound("TeamEntity")))
            && (r.Ok? ==>
                  && |r.value.teams| == |st.teams|
                  && r.value.requests == st.requests
                  && forall k :: 0 <= k < |st.teams| ==>
                       && r.value.teams[k].id == st.teams[k].id
                       && r.value.teams[k].name == st.teams[k].name
                       && r.value.teams[k].representativeId == st.teams[k].representativeId
                       && r.value.teams[k].memberIds ==
                            if Some(k) == TeamIndex(st.teams, teamId)
                            then MergeMembers(st.teams[k].memberIds, added)
                            else st.teams[k].memberIds)
            && (r.Ok? ==> ApplyMergeMembers(r.value, user, teamId, added) == r)
  {
    var r := ApplyMergeMembers(st, user, teamId, added);
    if r.Ok? {
      var k := TeamIndex(st.teams, teamId).value;
      var once := r.value;
      var m := MergeMembers(st.teams[k].memberIds, added);
      MergeMembersShape(st.teams[k].memberIds, added);
      assert once.teams[k].memberIds == m;
      var found := TeamIndex(once.teams, teamId);
      assert once.teams[k].id == teamId;
      assert found.Some? && found.value == k;
      assert once.teams[k := once.teams[k].(memberIds := MergeMembers(m, added))] == once.teams;
    }
  }

  // ---------------------------------------------------------------------
  // The tables, updated in place

  class TimeoffsDatabase {
    var requests: seq<LeaveRequest>
    var teams: seq<Team>

    function Snapshot(): TimeoffsState
      reads this
    {
      TimeoffsState(requests, teams)
    }

    ghost predicate Valid()
      reads this
    {
      ValidState(Snapshot())
    }

    constructor (st: TimeoffsState)
      requires ValidState(st)
      ensures Valid() && Snapshot() == st
    {
      requests := st.requests;
      teams := st.teams;
    }

    /** `UpdateLeaveRequestHandler.execute`. */
    method UpdateLeaveRequest(requestId: string, status: LeaveStatus, userId: string) returns (res: Outcome)
      requires Valid()
      modifies this
      ensures Valid()
      ensures var r := ApplyUpdateLeaveRequest(old(Snapshot()), requestId, status, userId);
              res == OutcomeOf(r) && Snapshot() == if r.Ok? then r.value else old(Snapshot())
    {
      var found := RequestIndex(Snapshot(), requestId, userId);
      if found.None? {
        return Fail(NotFound("LeaveRequestEntity"));
      }
      var k := found.value;
      if requests[k].status != Waiting {
        return Fail(BadRequest("Leave request is not waiting for approval"));
      }
      requests := requests[k := requests[k].(status := status, reviewedBy := Some(userId))];
      res := Pass;
    }

    /** `CreateTeamHandler.execute`; `newId` is the key the database generates. */
    method CreateTeam(user: UserData, name: string, members: seq<string>, newId: string) returns (res: Result<string>)
      requires Valid()
      requires forall k :: 0 <= k < |teams| ==> teams[k].id != newId
      modifies this
      ensures Valid()
      ensures var r := ApplyCreateTeam(old(Snapshot()), user, name, members, newId);
              && (r.Ok? ==> res == Ok(r.value.1) && Snapshot() == r.value.0)
              && (r.Err? ==> res == Err(r.error) && Snapshot() == old(Snapshot()))
    {
      if user.role != Manager && user.role != Admin {
        return Err(Forbidden("Forbidden"));
      }
      teams := teams + [NewTeam(user, name, members, newId)];
      res := Ok(newId);
    }

    /** `UpdateTeamHandler.execute`. */
    method UpdateTeam(user: UserData, teamId: string, added: seq<string>) returns (res: Outcome)
      requires Valid()
      modifies this
      ensures Valid()
      ensures var r := ApplyMergeMembers(old(Snapshot()), user, teamId, added);
              res == OutcomeOf(r) && Snapshot() == if r.Ok? then r.value else old(Snapshot())
    {
      res := MergeInto(user, teamId, added);
    }

    /** `AddToTeamHandler.execute`: the same steps as the update handler. */
    method AddToTeam(user: UserData, teamId: string, added: seq<string>) returns (res: Outcome)
      requires Valid()
      modifies this
      ensures Valid()
      ensures var r := ApplyMergeMembers(old(Snapshot()), user, teamId, added);
              res == OutcomeOf(r) && Snapshot() == if r.Ok? then r.value else old(Snapshot())
    {
      res := MergeInto(user, teamId, added);
    }

    /** The body both member handlers share. */
    method MergeInto(user: UserData, teamId: string, added: seq<string>) returns (res: Outcome)
      requires Valid()
      modifies this
      ensures Valid()
      ensures var r := ApplyMergeMembers(old(Snapshot()), user, teamId, added);
              res == OutcomeOf(r) && Snapshot() == if r.Ok? then r.value else old(Snapshot())
    {
      if user.role != Manager && user.role != Admin {
        return Fail(Forbidden("Forbidden"));
      }
      var found := TeamIndex(teams, teamId);
      if found.None? {
        return Fail(NotFound("TeamEntity"));
      }
      var k := found.value;
      teams := teams[k := teams[k].(memberIds := MergeMembers(teams[k].memberIds, added))];
      res := Pass;
    }
  }
}
