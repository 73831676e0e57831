/** The Next.js middleware: which request paths it runs on, and for those, whether the request
    goes through or is sent to the login page. */
module Middleware {
  import opened JsValues
  import opened Strings
  import opened Http

  /** The paths served without any token check, compared with `includes` (exact equality). */
  const PublicRoutes: seq<string> := ["/login", "/api/auth/login"]

  /** `NextResponse.next()` or `NextResponse.redirect(location)`. */
  datatype Decision = Next | Redirect(location: string)

  /** The login page on the request's own origin. */
  function LoginLocation(url: Url): string
  {
    Href(ResolvePath("/login", url))
  }

  /** `middleware(request)`: `token` is the `auth_token` cookie, `verified` stands for
      `verifyToken` returning a payload. */
  function Decide(url: Url, token: Option<string>, verified: string -> bool): (d: Decision)
    ensures d.Redirect? ==> d.location == Origin(url) + "/login"
  {
    if url.pathname in PublicRoutes then Next
    else if !TruthyString(token) then Redirect(LoginLocation(url))
    else if !verified(token.value) then Redirect(LoginLocation(url))
    else Next
  }

  /** A request goes through exactly when its path is public or it carries a non-empty token
      that verifies; every other request is sent to the login page. */
  lemma DecideIff(url: Url, token: Option<string>, verified: string -> bool)
    ensures Decide(url, token, verified) == Next <==>
      url.pathname == "/login" || url.pathname == "/api/auth/login" ||
      (token.Some? && token.value != "" && verified(token.value))
    ensures Decide(url, token, verified) != Next ==>
      Decide(url, token, verified) == Redirect(Origin(url) + "/login")
  {
  }

  /** Only the two public paths, matched exactly: a trailing slash or a sub-path is not public. */
  lemma PublicRoutesExact(url: Url, verified: string -> bool)
    requires url.pathname == "/login/" || url.pathname == "/api/auth/login/x"
    ensures Decide(url, None, verified) == Redirect(Origin(url) + "/login")
  {
  }

  /** A JavaScript line terminator; the regular expression `.` matches any other character. */
  predicate LineTerminator(c: char)
  {
    c == '\n' || c == '\r' || c == '\U{2028}' || c == '\U{2029}'
  }

  /** `favicon.ico` as a pattern: the `.` is not escaped, so any one character stands there. */
  predicate FaviconPattern(s: string)
  {
    |s| >= 11 && s[..7] == "favicon" && !LineTerminator(s[7]) && s[8..11] == "ico"
  }

  /** The negative lookahead `(?!_next/static|_next/image|favicon.ico|public)`. */
  predicate Excluded(rest: string)
  {
    OccursAt(rest, "_next/static", 0) || OccursAt(rest, "_next/image", 0) ||
    FaviconPattern(rest) || OccursAt(rest, "public", 0)
  }

  /** `config.matcher`: `/((?!_next/static|_next/image|favicon.ico|public).*)` matched against
      the whole path. */
  predicate MatcherRuns(path: string)
  {
    |path| > 0 && path[0] == '/' && !Excluded(path[1..]) &&
    forall i :: 1 <= i < |path| ==> !LineTerminator(path[i])
  }

  /** What a request gets: the middleware's decision where the matcher selects the path,
      otherwise it is served untouched. */
  function Handle(url: Url, token: Option<string>, verified: string -> bool): (d: Decision)
  {
    if MatcherRuns(url.pathname) then Decide(url, token, verified) else Next
  }

  /** A path the matcher skips is never redirected, whatever the token. */
  lemma SkippedPathsPass(url: Url, token: Option<string>, verified: string -> bool)
    requires |url.pathname| > 0 && url.pathname[0] == '/' && Excluded(url.pathname[1..])
    ensures Handle(url, token, verified) == Next
  {
  }

  /** The lookahead has no boundary after `public` and a bare `.` in `favicon.ico`: any path
      that merely starts with those letters skips the login check. */
  lemma PrefixesSkipped(url: Url, token: Option<string>, verified: string -> bool)
    requires url.pathname == "/publications" || url.pathname == "/favicon-ico" ||
             url.pathname == "/_next/imagery"
    ensures !MatcherRuns(url.pathname)
    ensures Handle(url, token, verified) == Next
  {
    var rest := url.pathname[1..];
    if url.pathname == "/publications" {
      assert rest[..6] == "public";
    } else if url.pathname == "/favicon-ico" {
      assert rest[..7] == "favicon" && rest[8..11] == "ico";
    } else {
      assert rest[..11] == "_next/image";
    }
  }

  /** An ordinary admin page is checked: without a token it is sent to the login page. */
  lemma AdminPageChecked(url: Url, verified: string -> bool)
    requires url.pathname == "/courses"
    ensures MatcherRuns(url.pathname)
    ensures Handle(url, None, verified) == Redirect(Origin(url) + "/login")
  {
    var rest := url.pathname[1..];
    assert rest == "courses";
    assert rest[0] == 'c';
  }
}
