/** The user directory behind `User.find_one`. The directory is a sequence of
    accounts in store order; a lookup returns the FIRST account that matches.
    Two forms are used by the router: filtered by id and role, or by id only. */
module Directory {
  import opened Models

  /** The filter of one lookup: the id always, the role only when one is given. */
  predicate Matches(u: User, id: string, role: Option<Role>)
  {
    u.employeeId == id && (role.None? || u.role == role.value)
  }

  /** Position of the first account that matches, if any. */
  function FirstMatch(users: seq<User>, id: string, role: Option<Role>): (r: Option<nat>)
    ensures r.Some? ==> r.value < |users| && Matches(users[r.value], id, role)
    ensures r.Some? ==> forall j :: 0 <= j < r.value ==> !Matches(users[j], id, role)
    ensures r.None? ==> forall j :: 0 <= j < |users| ==> !Matches(users[j], id, role)
  {
    if |users| == 0 then None
    else if Matches(users[0], id, role) then Some(0)
    else
      match FirstMatch(users[1..], id, role)
      case None => None
      case Some(i) => Some(i + 1)
  }

  /** `User.find_one(...)`: the first matching account, or nothing. */
  function FindOne(users: seq<User>, id: string, role: Option<Role>): (r: Option<User>)
    ensures r.Some? <==> exists j :: 0 <= j < |users| && Matches(users[j], id, role)
    ensures r.Some? ==> r.value in users && r.value.employeeId == id
    ensures r.Some? && role.Some? ==> r.value.role == role.value
  {
    match FirstMatch(users, id, role)
    case None => None
    case Some(i) => Some(users[i])
  }

  /** An id that resolves under a role also resolves without one. */
  lemma RoleFilteredImpliesAnyRole(users: seq<User>, id: string, role: Role)
    requires FindOne(users, id, Some(role)).Some?
    ensures FindOne(users, id, None).Some?
  {
  }

  /** When the id-only lookup lands on an account of some role, the
      role-filtered lookup for that role lands on the same account: no
      account with that id comes earlier. */
  lemma AnyRoleFirstIsRoleFirst(users: seq<User>, id: string)
    requires FindOne(users, id, None).Some?
    ensures FindOne(users, id, Some(FindOne(users, id, None).value.role)) == FindOne(users, id, None)
  {
  }

  /** The id-only lookup can refuse an id that the role-filtered lookup
      accepts: when a manager account with the same id comes first, the id
      resolves to the manager even though an employee account exists. */
  lemma ManagerShadowsEmployee(users: seq<User>, id: string, m: nat, e: nat)
    requires m < e < |users|
    requires users[m].employeeId == id && users[m].role == Manager
    requires users[e].employeeId == id && users[e].role == Employee
    requires forall j :: 0 <= j < m ==> users[j].employeeId != id
    ensures FindOne(users, id, Some(Employee)).Some?
    ensures FindOne(users, id, None) == Some(users[m])
  {
  }
}
