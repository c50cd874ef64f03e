/**
 * middleware.ts: the routing decision made for every request. The session
 * lookup through the auth client and its cookie callbacks are replaced by a
 * flag saying whether a session exists.
 */
module Middleware {
  import Text

  /** What the middleware answers: let the request through, redirect to the login page, or 401. */
  datatype Decision = Pass | RedirectLogin | Unauthorized

  const UnauthorizedMessage := "Unauthorized"

  /** Next.js assets, the login page and anything that looks like a file are public. */
  predicate IsPublic(pathname: string) {
    Text.StartsWith(pathname, "/_next") || Text.StartsWith(pathname, "/login") || '.' in pathname
  }

  predicate IsApi(pathname: string) {
    Text.StartsWith(pathname, "/api/")
  }

  /** `middleware(req)` as a decision on the pathname and whether a session exists. */
  function Decide(pathname: string, hasSession: bool): (r: Decision)
    ensures IsPublic(pathname) ==> r == Pass
    ensures hasSession ==> r == Pass
    ensures !IsPublic(pathname) && !hasSession && !IsApi(pathname) ==> r == RedirectLogin
    ensures !IsPublic(pathname) && !hasSession && IsApi(pathname) ==> r == Unauthorized
  {
    if IsPublic(pathname) then Pass
    else if !hasSession && !IsApi(pathname) then RedirectLogin
    else if !hasSession && IsApi(pathname) then Unauthorized
    else Pass
  }

  /** A request is stopped exactly when the path is not public and there is no session. */
  lemma StoppedIff(pathname: string, hasSession: bool)
    ensures Decide(pathname, hasSession) != Pass <==> !IsPublic(pathname) && !hasSession
  {
  }

  /** API paths are never redirected, and pages never get a 401. */
  lemma ApiNeverRedirected(pathname: string, hasSession: bool)
    ensures Decide(pathname, hasSession) == RedirectLogin ==> !IsApi(pathname)
    ensures Decide(pathname, hasSession) == Unauthorized ==> IsApi(pathname)
  {
  }

  /** An API path starts with '/', so it is public only when it contains a dot. */
  lemma ApiPublicOnlyWithDot(pathname: string)
    requires IsApi(pathname)
    ensures IsPublic(pathname) <==> '.' in pathname
  {
    assert pathname[1] == 'a';
  }
}
