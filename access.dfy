/** The two role checks: the route guard that reads the roles a handler is
    annotated with, and the helper that handlers call to refuse a caller. */
module Access {
  import opened Common
  import opened Text

  /** `validateRole`: passes when the role is allowed, otherwise a
      Forbidden error naming the allowed roles, separated by ", ". */
  function ValidateRole(allowed: seq<Role>, role: Role): Outcome
  {
    if role in allowed then Pass
    else Fail(Forbidden("Only " + Join(RoleNames(allowed), ", ") + " can access this endpoint"))
  }

  function RoleNames(roles: seq<Role>): (r: seq<string>)
    ensures |r| == |roles|
    ensures forall i :: 0 <= i < |roles| ==> r[i] == RoleName(roles[i])
  {
    if roles == [] then [] else [RoleName(roles[0])] + RoleNames(roles[1..])
  }

  /** The helper passes exactly for an allowed role, refuses with Forbidden
      otherwise, and so refuses everyone when nothing is allowed. */
  lemma ValidateRoleCases(allowed: seq<Role>, role: Role)
    ensures ValidateRole(allowed, role) == Pass <==> role in allowed
    ensures ValidateRole(allowed, role).Fail? ==> ValidateRole(allowed, role).error.Forbidden?
    ensures allowed == [] ==> ValidateRole(allowed, role).Fail?
  {
  }

  /** `s` occurs in `t` as a contiguous piece. */
  ghost predicate Occurs(s: string, t: string)
  {
    exists a, b :: t == a + s + b
  }

  /** Every part of a join occurs in it. */
  lemma {:induction false} JoinContainsParts(parts: seq<string>, sep: string, i: int)
    requires 0 <= i < |parts|
    ensures Occurs(parts[i], Join(parts, sep))
  {
    var j := Join(parts, sep);
    if |parts| == 1 {
      assert j == "" + parts[0] + "";
    } else if i == 0 {
      assert j == "" + parts[0] + (sep + Join(parts[1..], sep));
    } else {
      JoinContainsParts(parts[1..], sep, i - 1);
      var a, b :| Join(parts[1..], sep) == a + parts[i] + b;
      assert j == (parts[0] + sep + a) + parts[i] + b;
    }
  }

  /** The refusal message names every allowed role. */
  lemma RefusalNamesAllowedRoles(allowed: seq<Role>, role: Role, i: int)
    requires role !in allowed
    requires 0 <= i < |allowed|
    ensures Occurs(RoleName(allowed[i]), ValidateRole(allowed, role).error.message)
  {
    var names := RoleNames(allowed);
    JoinContainsParts(names, ", ", i);
    OccursInside(names[i], Join(names, ", "), "Only ", " can access this endpoint");
  }

  lemma OccursInside(s: string, t: string, p: string, q: string)
    requires Occurs(s, t)
    ensures Occurs(s, p + t + q)
  {
    var a, b :| t == a + s + b;
    assert p + t + q == (p + a) + s + (b + q);
  }

  /** `RolesGuard.canActivate`: `roles` is the handler's metadata (absent
      when the handler has none) and `user` what authentication attached. */
  function CanActivate(roles: Option<seq<Role>>, user: Option<UserData>): bool
  {
    match roles
    case None => true
    case Some(rs) =>
      match user
      case None => false
      case Some(u) => u.role in rs
  }

  /** Without metadata every request passes; with metadata an anonymous
      request is refused and a user passes exactly when their role is
      listed, so an empty list refuses everyone. */
  lemma CanActivateCases(roles: Option<seq<Role>>, user: Option<UserData>)
    ensures roles.None? ==> CanActivate(roles, user)
    ensures roles.Some? && user.None? ==> !CanActivate(roles, user)
    ensures roles.Some? && user.Some? ==> (CanActivate(roles, user) <==> user.value.role in roles.value)
    ensures roles == Some([]) ==> !CanActivate(roles, user)
  {
  }

  /** The guard and the helper agree: for an authenticated caller, the
      guard lets through exactly the callers the helper lets through. */
  lemma GuardAgreesWithHelper(allowed: seq<Role>, u: UserData)
    ensures CanActivate(Some(allowed), Some(u)) <==> ValidateRole(allowed, u.role) == Pass
  {
  }
}
