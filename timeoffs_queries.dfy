/** The read-only handlers of the time-off service: a user's leave
    statistics, a team's leave requests and a team's details. */
module TimeoffsQueries {
  import opened Common
  import opened Timeoffs

  // ---------------------------------------------------------------------
  // Leave statistics

  datatype Usage = Usage(total: int, used: nat)

  datatype UserStats = UserStats(sickDays: Usage, timeoffDays: Usage)

  /** The repository condition: approved requests of this user in this team. */
  function ApprovedRequests(xs: seq<LeaveRequest>, userId: string, teamId: string): seq<LeaveRequest>
  {
    Filter(xs, (r: LeaveRequest) => r.userId == userId && r.status == Approved && r.teamId == teamId)
  }

  function OfType(xs: seq<LeaveRequest>, t: LeaveType): seq<LeaveRequest>
  {
    Filter(xs, (r: LeaveRequest) => r.leaveType == t)
  }

  /** `GetUserStatsHandler.execute`: fails without the settings row;
      otherwise the totals come from the settings and `used` counts the
      approved requests of each type. */
  function GetUserStats(xs: seq<LeaveRequest>, settings: Option<Settings>, userId: string, teamId: string): Result<UserStats>
  {
    match settings
    case None => Err(NotFound("SettingsEntity"))
    case Some(s) =>
      var approved := ApprovedRequests(xs, userId, teamId);
      Ok(UserStats(
        Usage(s.maxSickDays, |OfType(approved, SickLeave)|),
        Usage(s.maxVacationDays, |OfType(approved, TimeOff)|)))
  }

  /** Whether a request counts towards `used` of a type. */
  predicate Counts(r: LeaveRequest, userId: string, teamId: string, t: LeaveType)
  {
    r.userId == userId && r.teamId == teamId && r.status == Approved && r.leaveType == t
  }

  /** The reference count, one request at a time. */
  function CountOf(xs: seq<LeaveRequest>, userId: string, teamId: string, t: LeaveType): nat
  {
    if xs == [] then 0
    else (if Counts(xs[0], userId, teamId, t) then 1 else 0) + CountOf(xs[1..], userId, teamId, t)
  }

  /** The handler's filter-and-count equals the reference count. */
  lemma {:induction false} CountIsReference(xs: seq<LeaveRequest>, userId: string, teamId: string, t: LeaveType)
    ensures |OfType(ApprovedRequests(xs, userId, teamId), t)| == CountOf(xs, userId, teamId, t)
  {
    if xs != [] {
      var x := xs[0];
      var rest := ApprovedRequests(xs[1..], userId, teamId);
      CountIsReference(xs[1..], userId, teamId, t);
      if x.userId == userId && x.status == Approved && x.teamId == teamId {
        assert ApprovedRequests(xs, userId, teamId) == [x] + rest;
        assert ([x] + rest)[1..] == rest;
      } else {
        assert ApprovedRequests(xs, userId, teamId) == rest;
      }
    }
  }

  /** Without the settings row the query fails; otherwise the totals are
      the configured maxima and each `used` is the number of approved
      requests of that user, team and type: requests, not days, and with
      no year window. */
  lemma UserStatsCases(xs: seq<LeaveRequest>, settings: Option<Settings>, userId: string, teamId: string)
    ensures settings.None? <==> GetUserStats(xs, settings, userId, teamId).Err?
    ensures settings.None? ==> GetUserStats(xs, settings, userId, teamId) == Err(NotFound("SettingsEntity"))
    ensures settings.Some? ==>
              var s := GetUserStats(xs, settings, userId, teamId).value;
              && s.sickDays.total == settings.value.maxSickDays
              && s.timeoffDays.total == settings.value.maxVacationDays
              && s.sickDays.used == CountOf(xs, userId, teamId, SickLeave)
              && s.timeoffDays.used == CountOf(xs, userId, teamId, TimeOff)
  {
    CountIsReference(xs, userId, teamId, SickLeave);
    CountIsReference(xs, userId, teamId, TimeOff);
  }

  /** Waiting or declined requests, other users' and other teams' never
      count: adding one anywhere leaves the counts as they were. */
  lemma {:induction false} OthersNeverCount(a: seq<LeaveRequest>, r: LeaveRequest, b: seq<LeaveRequest>, userId: string, teamId: string, t: LeaveType)
    requires r.status != Approved || r.userId != userId || r.teamId != teamId
    ensures CountOf(a + [r] + b, userId, teamId, t) == CountOf(a + b, userId, teamId, t)
  {
    if a == [] {
      assert a + [r] + b == [r] + b;
      assert ([r] + b)[1..] == b;
      assert a + b == b;
    } else {
      OthersNeverCount(a[1..], r, b, userId, teamId, t);
      assert (a + [r] + b)[1..] == a[1..] + [r] + b;
      assert (a + b)[1..] == a[1..] + b;
    }
  }

  /** A long approved request counts once, like a short one. */
  lemma RequestsNotDays(userId: string, teamId: string)
    ensures var long := LeaveRequest("l", userId, TimeOff, Approved, None, teamId, 0, 30 * 86400000);
            var short := LeaveRequest("s", userId, TimeOff, Approved, None, teamId, 0, 86400000);
            CountOf([long], userId, teamId, TimeOff) == CountOf([short], userId, teamId, TimeOff) == 1
  {
  }

  // ---------------------------------------------------------------------
  // A team's leave requests

  /** One item of the team's request list. */
  datatype LeaveRequestItem = LeaveRequestItem(
    id: string,
    userId: string,
    name: string,
    startDate: int,
    endDate: int,
    status: LeaveStatus,
    leaveType: LeaveType,
    reviewedBy: Option<string>,
    teamId: string)

  datatype TeamLeaveRequests = TeamLeaveRequests(teamId: string, name: string, leaveRequests: seq<LeaveRequestItem>)

  /** Whether the caller may read the team: a member or its representative. */
  predicate MayRead(team: Team, userId: string)
  {
    userId in team.memberIds || team.representativeId == Some(userId)
  }

  /** `members.find(m => m.id === userId)?.email || 'unknown'`: an absent
      user and an empty email both give 'unknown'. */
  function DisplayName(members: seq<Member>, userId: string): string
  {
    match FindFirst(members, (m: Member) => m.id == userId)
    case None => "unknown"
    case Some(k) => if members[k].email == "" then "unknown" else members[k].email
  }

  function ToItem(r: LeaveRequest, members: seq<Member>): LeaveRequestItem
  {
    LeaveRequestItem(r.id, r.userId, DisplayName(members, r.userId), r.startDate, r.endDate, r.status, r.leaveType, r.reviewedBy, r.teamId)
  }

  /** The repository condition: requests of this team by a current member. */
  function TeamRequests(xs: seq<LeaveRequest>, team: Team, teamId: string): seq<LeaveRequest>
  {
    Filter(xs, (r: LeaveRequest) => r.userId in team.memberIds && r.teamId == teamId)
  }

  /** `GetTeamLeaveRequestsHandler.execute`; `members` is what the user
      directory returns. */
  function GetTeamLeaveRequests(st: TimeoffsState, members: seq<Member>, teamId: string, userId: string): Result<TeamLeaveRequests>
  {
    match TeamIndex(st.teams, teamId)
    case None => Err(NotFound("Team with ID " + teamId + " not found"))
    case Some(k) =>
      var team := st.teams[k];
      if !MayRead(team, userId) then
        Err(Forbidden("User with ID " + userId + " is not a member of team with ID " + teamId))
      else
        var sel := TeamRequests(st.requests, team, teamId);
        Ok(TeamLeaveRequests(team.id, team.name,
          seq(|sel|, (i: int) requires 0 <= i < |sel| => ToItem(sel[i], members))))
  }

  /** An unknown team is not found; a caller who is neither a member nor
      the representative is refused; otherwise the result echoes the team
      and lists exactly the team's requests by current members, each
      copied field by field with its display name. */
  lemma {:induction false} TeamLeaveRequestsCases(st: TimeoffsState, members: seq<Member>, teamId: string, userId: string)
    ensures var r := GetTeamLeaveRequests(st, members, teamId, userId);
            && ((forall k :: 0 <= k < |st.teams| ==> st.teams[k].id != teamId) <==> r.Err? && r.error.NotFound?)
            && (r.Err? && r.error.Forbidden? <==>
                  exists k :: TeamIndex(st.teams, teamId) == Some(k) && !MayRead(st.teams[k], userId))
            && (r.Ok? ==>
                  var team := st.teams[TeamIndex(st.teams, teamId).value];
                  && MayRead(team, userId)
                  && r.value.teamId == teamId && r.value.name == team.name
                  && (forall i :: 0 <= i < |r.value.leaveRequests| ==>
                        exists j :: 0 <= j < |st.requests| && r.value.leaveRequests[i] == ToItem(st.requests[j], members)
                          && st.requests[j].teamId == teamId && st.requests[j].userId in team.memberIds)
                  && (forall j :: (0 <= j < |st.requests| && st.requests[j].teamId == teamId
                                   && st.requests[j].userId in team.memberIds) ==>
                        ToItem(st.requests[j], members) in r.value.leaveRequests))
  {
    var r := GetTeamLeaveRequests(st, members, teamId, userId);
    var found := TeamIndex(st.teams, teamId);
    if found.Some? {
      var team := st.teams[found.value];
      assert st.teams[found.value].id == teamId;
      if r.Ok? {
        var sel := TeamRequests(st.requests, team, teamId);
        var items := r.value.leaveRequests;
        forall i | 0 <= i < |items|
          ensures exists j :: 0 <= j < |st.requests| && items[i] == ToItem(st.requests[j], members)
                    && st.requests[j].teamId == teamId && st.requests[j].userId in team.memberIds
        {
          assert sel[i] in st.requests;
          var j :| 0 <= j < |st.requests| && st.requests[j] == sel[i];
          assert items[i] == ToItem(st.requests[j], members);
        }
        forall j | 0 <= j < |st.requests| && st.requests[j].teamId == teamId && st.requests[j].userId in team.memberIds
          ensures ToItem(st.requests[j], members) in items
        {
          assert st.requests[j] in sel;
          var i :| 0 <= i < |sel| && sel[i] == st.requests[j];
          assert items[i] == ToItem(st.requests[j], members);
        }
      }
    }
  }

  /** The display name is the directory email when there is a non-empty
      one, and 'unknown' otherwise. */
  lemma DisplayNameCases(members: seq<Member>, userId: string)
    ensures (forall i :: 0 <= i < |members| ==> members[i].id != userId) ==> DisplayName(members, userId) == "unknown"
    ensures forall i :: 0 <= i < |members| && members[i].id == userId && members[i].email != ""
              && (forall j :: 0 <= j < i ==> members[j].id != userId)
              ==> DisplayName(members, userId) == members[i].email
  {
  }

  // ---------------------------------------------------------------------
  // A team's details

  datatype MemberView = MemberView(id: string, name: string)

  datatype TeamView = TeamView(id: string, name: string, representativeId: Option<string>, members: seq<MemberView>)

  /** `GetTeamHandler.execute`: the team must exist and the caller must
      be a member or its representative; each member is listed under its
      id as its name. */
  function GetTeam(st: TimeoffsState, teamId: string, userId: string): Result<TeamView>
  {
    match TeamIndex(st.teams, teamId)
    case None => Err(NotFound("TeamEntity"))
    case Some(k) =>
      var team := st.teams[k];
      if !MayRead(team, userId) then
        Err(Forbidden("User with ID " + userId + " is not a member of team with ID " + teamId))
      else
        Ok(TeamView(team.id, team.name, team.representativeId,
          seq(|team.memberIds|, (i: int) requires 0 <= i < |team.memberIds| => MemberView(team.memberIds[i], team.memberIds[i]))))
  }

  /** With unique team keys, for a stored team: the details fail exactly
      when the caller may not read it, with the forbidden message naming
      the caller and the team; otherwise id, name and representative are
      the team's and the members are its member ids in order, each named
      by its id. */
  lemma GetTeamCases(st: TimeoffsState, k: int, userId: string)
    requires ValidState(st)
    requires 0 <= k < |st.teams|
    ensures var team := st.teams[k];
            var r := GetTeam(st, team.id, userId);
            && (r.Ok? <==> MayRead(team, userId))
            && (!MayRead(team, userId) ==>
                  r == Err(Forbidden("User with ID " + userId + " is not a member of team with ID " + team.id)))
            && (r.Ok? ==>
                  && r.value.id == team.id && r.value.name == team.name
                  && r.value.representativeId == team.representativeId
                  && |r.value.members| == |team.memberIds|
                  && forall i :: 0 <= i < |team.memberIds| ==>
                       r.value.members[i].id == team.memberIds[i] && r.value.members[i].name == team.memberIds[i])
  {
    var found := TeamIndex(st.teams, st.teams[k].id);
    assert found.Some? && found.value == k;
  }

  /** Reading a team that no stored team has the key of fails as not found. */
  lemma UnknownTeamRead(st: TimeoffsState, teamId: string, userId: string)
    requires forall k :: 0 <= k < |st.teams| ==> st.teams[k].id != teamId
    ensures GetTeam(st, teamId, userId) == Err(NotFound("TeamEntity"))
  {
    assert TeamIndex(st.teams, teamId).None?;
  }

  /** Both reads apply the same access rule. */
  lemma ReadsAgree(st: TimeoffsState, members: seq<Member>, teamId: string, userId: string)
    ensures GetTeam(st, teamId, userId).Ok? <==> GetTeamLeaveRequests(st, members, teamId, userId).Ok?
  {
  }
}
