/**
 * The route gate of src/middleware.ts: public and static paths pass,
 * everything else needs an `auth-token` cookie holding a token that
 * verifies against the JWT secret. Token verification is a parameter.
 */
module Middleware {
  import opened Wrappers
  import opened Strings

  /** `NextResponse.next()`, or a redirect to `/login` that may also delete the cookie. */
  datatype Decision = Next | RedirectToLogin(clearToken: bool)

  const PublicPaths: seq<string> := ["/login", "/api/auth/send-code", "/api/auth/verify-code"]

  const DevelopmentSecret := "development-secret-change-in-production"

  /** `process.env.JWT_SECRET || "development-secret-change-in-production"` */
  function JwtSecret(env: Option<string>): (r: string)
    ensures r != []
    ensures Present(env) ==> r == env.value
  {
    if Present(env) then env.value else DevelopmentSecret
  }

  /** `publicPaths.some((path) => pathname.startsWith(path))` */
  predicate IsPublic(pathname: string) {
    exists k :: 0 <= k < |PublicPaths| && StartsWith(pathname, PublicPaths[k])
  }

  /** Framework files, the favicon, and anything that looks like a file name. */
  predicate IsStatic(pathname: string) {
    StartsWith(pathname, "/_next") || StartsWith(pathname, "/favicon") || '.' in pathname
  }

  /**
   * `middleware`: `token` is the `auth-token` cookie's value (None when
   * absent) and `verify(token, secret)` whether `jwtVerify` accepts it.
   */
  function Gate(pathname: string, token: Option<string>, secretEnv: Option<string>,
                verify: (string, string) -> bool): (d: Decision)
    ensures d.RedirectToLogin? && d.clearToken ==> Present(token)
  {
    if IsPublic(pathname) then Next
    else if IsStatic(pathname) then Next
    else if !Present(token) then RedirectToLogin(false)
    else if verify(token.value, JwtSecret(secretEnv)) then Next
    else RedirectToLogin(true)
  }

  /** A request passes exactly when its path is public or static, or it carries a token that verifies. */
  lemma PassIff(pathname: string, token: Option<string>, secretEnv: Option<string>, verify: (string, string) -> bool)
    ensures Gate(pathname, token, secretEnv, verify) == Next
            <==> IsPublic(pathname) || IsStatic(pathname)
                 || (Present(token) && verify(token.value, JwtSecret(secretEnv)))
  {
  }

  /** Public and static paths pass whatever the cookie and the verifier: no token is looked at. */
  lemma OpenPathsIgnoreToken(pathname: string, t1: Option<string>, t2: Option<string>, secretEnv: Option<string>,
                             v1: (string, string) -> bool, v2: (string, string) -> bool)
    requires IsPublic(pathname) || IsStatic(pathname)
    ensures Gate(pathname, t1, secretEnv, v1) == Gate(pathname, t2, secretEnv, v2) == Next
  {
  }

  /** Matching is by prefix, so anything beginning with `/login` is public, `/loginx` included. */
  lemma LoginPrefixIsPublic(rest: string)
    ensures IsPublic("/login" + rest)
  {
    assert StartsWith("/login" + rest, PublicPaths[0]);
  }

  /** A protected path without a token is sent to `/login`; no cookie is deleted and the verifier is not consulted. */
  lemma MissingTokenRedirects(pathname: string, token: Option<string>, secretEnv: Option<string>,
                              verify: (string, string) -> bool)
    requires !IsPublic(pathname) && !IsStatic(pathname) && !Present(token)
    ensures Gate(pathname, token, secretEnv, verify) == RedirectToLogin(false)
  {
  }

  /** A protected path with a token passes if it verifies, else is redirected with the cookie deleted. */
  lemma TokenDecides(pathname: string, token: string, secretEnv: Option<string>, verify: (string, string) -> bool)
    requires !IsPublic(pathname) && !IsStatic(pathname) && token != []
    ensures Gate(pathname, Some(token), secretEnv, verify)
            == if verify(token, JwtSecret(secretEnv)) then Next else RedirectToLogin(true)
  {
  }

  /** The cookie is deleted only for a token that was present and failed verification. */
  lemma ClearOnlyRejectedToken(pathname: string, token: Option<string>, secretEnv: Option<string>,
                               verify: (string, string) -> bool)
    ensures Gate(pathname, token, secretEnv, verify) == RedirectToLogin(true)
            <==> !IsPublic(pathname) && !IsStatic(pathname) && Present(token)
                 && !verify(token.value, JwtSecret(secretEnv))
  {
  }
}
