/**
 * The route guard that runs before every page: public pages pass, the three
 * areas (/user, /admin, /super-admin) send visitors without a token to their
 * login page with a `redirect` parameter, a token whose role does not match an
 * area sends its holder to that area's login page, and a token that fails to
 * verify on any other protected page is deleted. Token verification is the
 * input `verify`.
 */
module Middleware {
  import opened Wrappers
  import opened Text
  import opened Dal

  const PUBLIC_PATHS: seq<string> := ["/", "/login", "/register", "/admin/login", "/super-admin/login"]

  datatype Decision = Next | Redirect(url: string, deleteToken: bool)

  /** `payload?.role !== role`: true when there is no payload. */
  predicate RoleIsNot(payload: Option<Payload>, role: Role) {
    payload.None? || payload.value.role != role
  }

  /** The request's fate, decided from its path and its `token` cookie. */
  function Decide(path: string, token: Option<string>, verify: string -> Option<Payload>): (d: Decision)
    ensures d.Redirect? && d.deleteToken ==> Truthy(token) && verify(token.value).None? && d.url == "/login"
    ensures d.Redirect? && !Truthy(token) ==> path !in PUBLIC_PATHS && !d.deleteToken
  {
    var isPublic := path in PUBLIC_PATHS;
    if !Truthy(token) && !isPublic && StartsWith(path, "/user") then Redirect("/login?redirect=" + path, false)
    else if !Truthy(token) && !isPublic && StartsWith(path, "/admin") then Redirect("/admin/login?redirect=" + path, false)
    else if !Truthy(token) && !isPublic && StartsWith(path, "/super-admin") then Redirect("/super-admin/login?redirect=" + path, false)
    else if Truthy(token) then
      var payload := verify(token.value);
      if StartsWith(path, "/user") && RoleIsNot(payload, UserRole) && path != "/user/login" then Redirect("/login", false)
      else if StartsWith(path, "/admin") && RoleIsNot(payload, AdminRole) && path != "/admin/login" then Redirect("/admin/login", false)
      else if StartsWith(path, "/super-admin") && RoleIsNot(payload, SuperAdminRole) && path != "/super-admin/login" then Redirect("/super-admin/login", false)
      else if payload.None? && !isPublic then Redirect("/login", true)
      else Next
    else Next
  }

  /** A path inside one of the three areas, other than that area's own login page. */
  predicate InArea(path: string, role: Role) {
    match role
    case UserRole => StartsWith(path, "/user") && path != "/user/login"
    case AdminRole => StartsWith(path, "/admin") && path != "/admin/login"
    case SuperAdminRole => StartsWith(path, "/super-admin") && path != "/super-admin/login"
  }

  /** The three area prefixes exclude one another. */
  lemma AreasAreDisjoint(path: string)
    ensures !(StartsWith(path, "/user") && StartsWith(path, "/admin"))
    ensures !(StartsWith(path, "/user") && StartsWith(path, "/super-admin"))
    ensures !(StartsWith(path, "/admin") && StartsWith(path, "/super-admin"))
  {
    if StartsWith(path, "/user") { assert path[1] == "/user"[1]; }
    if StartsWith(path, "/admin") { assert path[1] == "/admin"[1]; }
    if StartsWith(path, "/super-admin") { assert path[1] == "/super-admin"[1]; }
  }

  /** No page inside an area is public: the only public area page is an area's login page. */
  lemma AreaPagesAreNotPublic(path: string, role: Role)
    requires InArea(path, role)
    ensures path !in PUBLIC_PATHS
  {
    match role
    case UserRole => assert path[1] == "/user"[1];
    case AdminRole => assert path[1] == "/admin"[1];
    case SuperAdminRole => assert path[1] == "/super-admin"[1];
  }

  /** Public pages are matched exactly and pass whenever there is no token. */
  lemma PublicPathsPassWithoutToken(path: string, token: Option<string>, verify: string -> Option<Payload>)
    requires path in PUBLIC_PATHS && !Truthy(token)
    ensures Decide(path, token, verify) == Next
  {
  }

  /** Without a token, a page of an area sends the visitor to that area's login, remembering the page. */
  lemma NoTokenRedirectsToAreaLogin(path: string, token: Option<string>, verify: string -> Option<Payload>)
    requires !Truthy(token) && path !in PUBLIC_PATHS
    ensures StartsWith(path, "/user") ==> Decide(path, token, verify) == Redirect("/login?redirect=" + path, false)
    ensures StartsWith(path, "/admin") ==> Decide(path, token, verify) == Redirect("/admin/login?redirect=" + path, false)
    ensures StartsWith(path, "/super-admin") ==> Decide(path, token, verify) == Redirect("/super-admin/login?redirect=" + path, false)
    ensures !StartsWith(path, "/user") && !StartsWith(path, "/admin") && !StartsWith(path, "/super-admin") ==> Decide(path, token, verify) == Next
  {
    AreasAreDisjoint(path);
  }

  /**
   * The guard's promise: a request reaches a page inside an area only with a
   * token that verifies to that area's role.
   */
  lemma AreaPagesNeedTheirRole(path: string, token: Option<string>, verify: string -> Option<Payload>, role: Role)
    requires InArea(path, role)
    requires Decide(path, token, verify) == Next
    ensures Truthy(token) && verify(token.value).Some? && verify(token.value).value.role == role
  {
    AreasAreDisjoint(path);
    AreaPagesAreNotPublic(path, role);
  }

  /** Conversely, a token that verifies to an area's role opens every page of that area. */
  lemma OwnRoleIsAdmitted(path: string, token: Option<string>, verify: string -> Option<Payload>, role: Role)
    requires InArea(path, role)
    requires Truthy(token) && verify(token.value).Some? && verify(token.value).value.role == role
    ensures Decide(path, token, verify) == Next
  {
    AreasAreDisjoint(path);
  }

  /** A token of another role on an area page is sent to that area's login page, and kept. */
  lemma WrongRoleRedirectsToAreaLogin(path: string, token: Option<string>, verify: string -> Option<Payload>, role: Role)
    requires InArea(path, role)
    requires Truthy(token) && RoleIsNot(verify(token.value), role)
    ensures Decide(path, token, verify) == Redirect(LoginPathFor(role), false)
  {
    AreasAreDisjoint(path);
  }

  /**
   * The cookie is deleted exactly when a token is present but does not
   * verify, on a non-public page outside the three areas (or on an area's own
   * login page that is not public, which is `/user/login`).
   */
  lemma TokenDeletedOnlyWhenInvalid(path: string, token: Option<string>, verify: string -> Option<Payload>)
    ensures Decide(path, token, verify) == Redirect("/login", true) <==>
      Truthy(token) && verify(token.value).None? && path !in PUBLIC_PATHS
      && !InArea(path, UserRole) && !InArea(path, AdminRole) && !InArea(path, SuperAdminRole)
    ensures Decide(path, token, verify).Redirect? && Decide(path, token, verify).deleteToken ==> Decide(path, token, verify).url == "/login"
  {
    AreasAreDisjoint(path);
    if InArea(path, UserRole) { AreaPagesAreNotPublic(path, UserRole); }
  }

  /** A token that does not verify never reaches a non-public page. */
  lemma InvalidTokenNeverPasses(path: string, token: Option<string>, verify: string -> Option<Payload>)
    requires Truthy(token) && verify(token.value).None? && path !in PUBLIC_PATHS
    ensures Decide(path, token, verify).Redirect?
  {
  }
}
