/** The handler of `/`: it only ever redirects, to the course list when an `auth_token`
    cookie is set and to the login page otherwise. */
module RootRoute {
  import opened JsValues
  import opened Http
  import Middleware

  /** `GET(request)`: the location of the redirect; the handler has no other outcome. */
  function RootRedirect(url: Url, token: Option<string>): (location: string)
    ensures TruthyString(token) ==> location == Origin(url) + "/courses"
    ensures !TruthyString(token) ==> location == Origin(url) + "/login"
  {
    var baseUrl := url.protocol + "//" + url.host;
    if TruthyString(token) then baseUrl + "/courses" else baseUrl + "/login"
  }

  /** The request's path and query never reach the location: only its origin does. */
  lemma RootRedirectIgnoresPath(url: Url, path: string, search: string, token: Option<string>)
    ensures RootRedirect(url.(pathname := path, search := search), token) == RootRedirect(url, token)
  {
  }

  /** The two targets differ, so the token alone decides where the user lands. */
  lemma RootRedirectTargetsDiffer(url: Url, token: Option<string>, other: Option<string>)
    ensures RootRedirect(url, token) == RootRedirect(url, other) <==>
            (TruthyString(token) <==> TruthyString(other))
  {
    var base := Origin(url);
    if TruthyString(token) && !TruthyString(other) {
      assert (base + "/courses")[|base| + 1] == 'c';
      assert (base + "/login")[|base| + 1] == 'l';
    }
    if !TruthyString(token) && TruthyString(other) {
      assert (base + "/courses")[|base| + 1] == 'c';
      assert (base + "/login")[|base| + 1] == 'l';
    }
  }

  /** Without a token the root sends the user to the same login page the middleware does. */
  lemma RootAgreesWithMiddleware(url: Url, token: Option<string>, verified: string -> bool)
    requires !TruthyString(token)
    requires url.pathname !in Middleware.PublicRoutes
    ensures Middleware.Decide(url, token, verified) == Middleware.Redirect(RootRedirect(url, token))
  {
  }
}
