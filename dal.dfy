/**
 * The data-access layer's authentication helpers: reading the session from
 * the `token` cookie, checking the caller's role, choosing the login page to
 * redirect to, and guarding per-user data. Token verification and the user
 * table are inputs: `verify` stands for the JWT check and `users` for the
 * rows the database would return.
 */
module Dal {
  import opened Wrappers

  datatype Role = UserRole | AdminRole | SuperAdminRole

  /** A verified token's payload. */
  datatype Payload = Payload(userId: int, role: Role)

  datatype Session = Session(user: Option<Payload>, session: Option<string>)

  /** JavaScript truthiness of the cookie value: a missing cookie and the empty string are both false. */
  predicate Truthy(token: Option<string>) {
    token.Some? && token.value != ""
  }

  /** `getSession`: the payload and the raw token when the token is present and verifies, both null otherwise. */
  function GetSession(token: Option<string>, verify: string -> Option<Payload>): (s: Session)
    ensures s.user.None? <==> !Truthy(token) || verify(token.value).None?
    ensures s.user.None? <==> s.session.None?
    ensures s.user.Some? ==> s.user == verify(token.value) && s.session == token
  {
    if !Truthy(token) then Session(None, None)
    else
      match verify(token.value)
      case None => Session(None, None)
      case Some(p) => Session(Some(p), token)
  }

  /** `verifyAuth(requiredRole?)`: the session's user, unless there is none or a required role differs. */
  function VerifyAuth(token: Option<string>, verify: string -> Option<Payload>, required: Option<Role>): (r: Option<Payload>)
    ensures r.Some? <==> GetSession(token, verify).user.Some? && (required.None? || GetSession(token, verify).user.value.role == required.value)
    ensures r.Some? ==> r == GetSession(token, verify).user
  {
    var user := GetSession(token, verify).user;
    if user.None? then None
    else if required.Some? && user.value.role != required.value then None
    else user
  }

  /** The login page that belongs to a role's area. */
  function LoginPathFor(role: Role): string {
    match role
    case AdminRole => "/admin/login"
    case SuperAdminRole => "/super-admin/login"
    case UserRole => "/login"
  }

  datatype AuthOrRedirect = Authenticated(user: Payload) | RedirectTo(path: string)

  /**
   * `getAuthOrRedirect(requiredRole?, redirectPath)`: the user, a redirect to
   * `redirectPath` when nobody is signed in, or to the required role's login
   * page when the role differs.
   */
  function GetAuthOrRedirect(token: Option<string>, verify: string -> Option<Payload>, required: Option<Role>, redirectPath: string): (r: AuthOrRedirect)
    ensures r.Authenticated? <==> VerifyAuth(token, verify, required).Some?
    ensures r.Authenticated? ==> Some(r.user) == VerifyAuth(token, verify, required)
    ensures GetSession(token, verify).user.None? ==> r == RedirectTo(redirectPath)
    ensures GetSession(token, verify).user.Some? && r.RedirectTo? ==> required.Some? && r.path == LoginPathFor(required.value)
  {
    var user := GetSession(token, verify).user;
    if user.None? then RedirectTo(redirectPath)
    else if required.Some? && user.value.role != required.value then RedirectTo(LoginPathFor(required.value))
    else Authenticated(user.value)
  }

  /** The columns `getUserData` selects. */
  datatype UserData = UserData(id: int, name: string, email: string, mobile: string, school: string, rollNo: string, branch: string)

  /**
   * `getUserData(userId)` as written: the caller is looked up with
   * `verifyAuth('user')`, so only a signed-in 'user' gets past the first
   * check, and the admin and superadmin exemptions that follow can never apply.
   */
  function GetUserData(token: Option<string>, verify: string -> Option<Payload>, userId: int, users: map<int, UserData>): (r: Option<UserData>)
    ensures r.Some? ==> userId in users && r.value == users[userId]
  {
    var user := VerifyAuth(token, verify, Some(UserRole));
    if user.None? || (user.value.userId != userId && user.value.role != AdminRole && user.value.role != SuperAdminRole) then None
    else if userId in users then Some(users[userId])
    else None
  }

  /** As written, only the 'user' whose own id is asked for ever gets data back. */
  lemma GetUserDataOnlyForOwner(token: Option<string>, verify: string -> Option<Payload>, userId: int, users: map<int, UserData>)
    ensures GetUserData(token, verify, userId, users).Some? <==>
      GetSession(token, verify).user == Some(Payload(userId, UserRole)) && userId in users
  {
    var s := GetSession(token, verify);
    if s.user.Some? && s.user.value.role == UserRole && s.user.value.userId == userId {
      assert s.user == Some(Payload(userId, UserRole));
    }
  }

  /** As written, an admin or a superadmin asking for someone's data always gets nothing. */
  lemma GetUserDataRefusesAdmins(token: Option<string>, verify: string -> Option<Payload>, userId: int, users: map<int, UserData>)
    requires GetSession(token, verify).user.Some? && GetSession(token, verify).user.value.role != UserRole
    ensures GetUserData(token, verify, userId, users).None?
  {
    GetUserDataOnlyForOwner(token, verify, userId, users);
  }

  /**
   * `getUserData` as its access rule reads: any signed-in caller is checked,
   * and the data goes to its owner or to an admin or superadmin.
   */
  function GetUserDataIntended(token: Option<string>, verify: string -> Option<Payload>, userId: int, users: map<int, UserData>): (r: Option<UserData>)
    ensures r.Some? ==> userId in users && r.value == users[userId]
  {
    var user := VerifyAuth(token, verify, None);
    if user.None? || (user.value.userId != userId && user.value.role != AdminRole && user.value.role != SuperAdminRole) then None
    else if userId in users then Some(users[userId])
    else None
  }

  /** The intended rule: data is returned exactly to its owner, an admin or a superadmin, when the row exists. */
  lemma GetUserDataIntendedAccess(token: Option<string>, verify: string -> Option<Payload>, userId: int, users: map<int, UserData>)
    ensures GetUserDataIntended(token, verify, userId, users).Some? <==>
      var u := GetSession(token, verify).user;
      u.Some? && (u.value.userId == userId || u.value.role == AdminRole || u.value.role == SuperAdminRole) && userId in users
  {
  }
}
