/** The route guard in front of the back office: which requests pass and which
    are sent to the login page. */
module Middleware {
  import opened Json
  import opened Text

  /** The NextAuth token, reduced to the role it carries (absent when the token has none). */
  datatype Token = Token(role: Option<string>)

  datatype Decision = Next | RedirectToLogin

  const LoginPath: string := "/admin/login"

  predicate IsLoginPage(path: string)
  {
    path == LoginPath
  }

  /** `startsWith('/admin') || startsWith('/api/admin')`. */
  predicate IsAdminPath(path: string)
  {
    StartsWith(path, "/admin") || StartsWith(path, "/api/admin")
  }

  predicate StaffToken(t: Token)
  {
    t.role == Some("ADMIN") || t.role == Some("EDITOR")
  }

  /** The `middleware` function, with its early returns in source order. */
  function Middleware(path: string, token: Option<Token>): Decision
  {
    if IsLoginPage(path) then Next
    else if IsAdminPath(path) && token.None? then RedirectToLogin
    else if IsAdminPath(path) && token.Some? && !StaffToken(token.value) then RedirectToLogin
    else Next
  }

  /** The `authorized` callback. */
  function Authorized(path: string, token: Option<Token>): bool
  {
    if IsLoginPage(path) then true
    else if IsAdminPath(path) then token.Some? && StaffToken(token.value)
    else true
  }

  /** `withAuth`: an unauthorized request goes to the sign-in page, which is the
      login page; an authorized one reaches `middleware`. */
  function WithAuth(path: string, token: Option<Token>): Decision
  {
    if !Authorized(path, token) then RedirectToLogin else Middleware(path, token)
  }

  /** `config.matcher`: `/admin/:path*` and `/api/admin/:path*`. */
  predicate Matched(path: string)
  {
    path == "/admin" || StartsWith(path, "/admin/") || path == "/api/admin" || StartsWith(path, "/api/admin/")
  }

  /** Every request as the framework sees it: unmatched paths bypass the guard. */
  function Guard(path: string, token: Option<Token>): Decision
  {
    if Matched(path) then WithAuth(path, token) else Next
  }

  /** The login page is allowed by both checks, before anything else is looked at. */
  lemma LoginAlwaysAllowed(token: Option<Token>)
    ensures Middleware(LoginPath, token) == Next && Authorized(LoginPath, token)
    ensures Guard(LoginPath, token) == Next
  {
  }

  /** On an admin path other than the login page, `middleware` redirects exactly
      when there is no token or its role is neither ADMIN nor EDITOR, and
      `authorized` holds exactly in the opposite case. */
  lemma AdminPathRule(path: string, token: Option<Token>)
    requires IsAdminPath(path) && !IsLoginPage(path)
    ensures token.None? ==> Middleware(path, token) == RedirectToLogin
    ensures token.Some? && !StaffToken(token.value) ==> Middleware(path, token) == RedirectToLogin
    ensures Authorized(path, token) <==> token.Some? && StaffToken(token.value)
  {
  }

  /** Paths outside the admin area are always allowed. */
  lemma NonAdminAllowed(path: string, token: Option<Token>)
    requires !IsAdminPath(path)
    ensures Middleware(path, token) == Next && Authorized(path, token) && Guard(path, token) == Next
  {
  }

  /** The two checks agree: `middleware` redirects exactly when `authorized` is
      false, so the guard's outcome is the middleware's. */
  lemma ChecksAgree(path: string, token: Option<Token>)
    ensures Middleware(path, token) == RedirectToLogin <==> !Authorized(path, token)
    ensures WithAuth(path, token) == Middleware(path, token)
  {
  }

  /** Every path the matcher selects is an admin path, so an unauthorized
      request there is sent to the login page unless it is the login page. */
  lemma MatchedIsAdmin(path: string, token: Option<Token>)
    requires Matched(path)
    ensures IsAdminPath(path)
    ensures Guard(path, token) == RedirectToLogin <==>
      !IsLoginPage(path) && !(token.Some? && StaffToken(token.value))
  {
    if StartsWith(path, "/admin/") {
      assert path[..6] == path[..7][..6];
    } else if StartsWith(path, "/api/admin/") {
      assert path[..10] == path[..11][..10];
    }
  }
}
