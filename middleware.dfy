/** The edge middleware guarding the admin pages. */
module Middleware {
  import opened Wrappers

  /** `NextResponse.next()` or a redirect to a path of the same site. */
  datatype Response = Next | Redirect(location: string)

  const LoginPath: string := "/login"
  const UnauthorizedPath: string := "/unauthorized"

  /** `pathname.startsWith('/admin')`: a plain prefix test, so "/administrator" counts too. */
  predicate IsAdminPath(path: string) {
    "/admin" <= path
  }

  /** A cookie value is truthy when it is present and not the empty string. */
  predicate Truthy(token: Option<string>) {
    token.Some? && token.value != ""
  }

  /**
   * `middleware`. `role` is the `role` field of the token's payload (None when the payload has
   * none); it is read only when the token is truthy.
   */
  function Route(token: Option<string>, role: Option<string>, path: string): (r: Response)
    ensures !IsAdminPath(path) ==> r == Next
    ensures IsAdminPath(path) && !Truthy(token) ==> r == Redirect(LoginPath)
    ensures IsAdminPath(path) && Truthy(token) && role != Some("Admin") ==> r == Redirect(UnauthorizedPath)
    ensures r == Next <==> !IsAdminPath(path) || (Truthy(token) && role == Some("Admin"))
  {
    if Truthy(token) && IsAdminPath(path) && role != Some("Admin") then Redirect(UnauthorizedPath)
    else if !Truthy(token) && IsAdminPath(path) then Redirect(LoginPath)
    else Next
  }

  /**
   * The paths the exported `matcher` hands to the middleware: "/admin" itself and everything
   * below "/admin/".
   */
  predicate Matched(path: string) {
    path == "/admin" || "/admin/" <= path
  }

  /** What a request gets: the middleware's answer on a matched path, and the page otherwise. */
  function Handle(token: Option<string>, role: Option<string>, path: string): (r: Response)
    ensures Matched(path) ==> r == Route(token, role, path)
    ensures !Matched(path) ==> r == Next
  {
    if Matched(path) then Route(token, role, path) else Next
  }

  /** Every matched path passes the prefix test, so on them only the token and role decide. */
  lemma MatchedPathsAreAdmin(path: string)
    requires Matched(path)
    ensures IsAdminPath(path)
  {
    if path != "/admin" {
      assert path[..7] == "/admin/";
      assert path[..6] == "/admin";
    }
  }

  /** An empty cookie is no token: it is sent to the login page like a missing one. */
  lemma EmptyTokenIsNoToken(role: Option<string>, path: string)
    requires IsAdminPath(path)
    ensures Route(Some(""), role, path) == Route(None, role, path) == Redirect(LoginPath)
  {
  }

  /**
   * The prefix test alone sends "/administrator" to the login page without a token, but the
   * matcher never routes that path to the middleware.
   */
  lemma AdministratorPath()
    ensures Route(None, None, "/administrator") == Redirect(LoginPath)
    ensures Handle(None, None, "/administrator") == Next
  {
    assert "/administrator"[..6] == "/admin";
    assert "/administrator"[6] == 'i';
    assert !("/admin/" <= "/administrator");
  }
}
