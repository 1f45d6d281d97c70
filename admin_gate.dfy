/**
  The Next.js middleware that guards the admin pages: a request under
  `/admin` goes through only with the session cookie `admin_session` set to
  `authenticated`; otherwise it is redirected to the login page, which is
  told where to send the user back.
 */
module AdminGate {
  import opened Strings

  /** The parts of a request the gate reads. */
  datatype Request = Request(pathname: string, adminSession: Option<string>)

  datatype Decision =
    | Next
    /** A redirect to `target` with the query parameter `redirect` set. */
    | Redirect(target: string, redirectParam: string)

  const SessionValue := "authenticated"

  predicate Authenticated(req: Request) {
    req.adminSession.Some? && req.adminSession.value == SessionValue
  }

  /** proxy */
  function Proxy(req: Request): (d: Decision)
    ensures !StartsWith(req.pathname, "/admin") ==> d == Next
    ensures StartsWith(req.pathname, "/admin") ==> (d == Next <==> Authenticated(req))
    ensures d.Redirect? ==> d.target == "/login" && d.redirectParam == req.pathname
  {
    if StartsWith(req.pathname, "/admin") && !Authenticated(req) then
      Redirect("/login", req.pathname)
    else
      Next
  }

  /** The route matcher `/admin/:path*`: `/admin` itself or a path below it. */
  predicate MatcherApplies(pathname: string) {
    pathname == "/admin" || StartsWith(pathname, "/admin/")
  }

  /** The middleware as deployed: the gate runs only on matched paths. */
  function Middleware(req: Request): (d: Decision)
    ensures d.Redirect? <==> MatcherApplies(req.pathname) && !Authenticated(req)
    ensures d.Redirect? ==> d == Proxy(req)
  {
    if MatcherApplies(req.pathname) then Proxy(req) else Next
  }

  /** Every path the matcher admits starts with `/admin`, so the gate's own test applies to it. */
  lemma MatchedPathsAreGated(pathname: string)
    requires MatcherApplies(pathname)
    ensures StartsWith(pathname, "/admin")
  {
    if pathname != "/admin" {
      assert pathname[..6] == "/admin/"[..6];
    }
  }
}
