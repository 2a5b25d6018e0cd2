/**
 * The router's `beforeEach` guard and the route table it guards: bootstrap
 * the session when a token is known but the user is not, then let a route
 * that requires authentication through only for an authenticated user, or
 * for a guest on the feed.
 */
module Guard {
  import opened Common
  import opened AuthStore

  /** A matched route record and the two meta flags the table uses. */
  datatype RouteRecord = RouteRecord(path: string, requiresAuth: Option<bool>, guestOnly: bool)

  /** The route being navigated to: its name and the records it matched, outermost first. */
  datatype Location = Location(name: Option<string>, matched: seq<RouteRecord>)

  /** What the guard answers: `true`, or a redirect to a named route. */
  datatype Decision = Allow | RedirectTo(name: string)

  /** `to.matched.some(r => r.meta?.requiresAuth === true)`. */
  function RequiresAuth(matched: seq<RouteRecord>): (r: bool)
    ensures r <==> exists i | 0 <= i < |matched| :: matched[i].requiresAuth == Some(true)
  {
    if matched == [] then false
    else matched[0].requiresAuth == Some(true) || RequiresAuth(matched[1..])
  }

  /** The decision, once the session is settled. */
  function Decide(requiresAuth: bool, isAuthenticated: bool, isGuest: bool, name: Option<string>): (d: Decision)
    ensures d == Allow <==> !requiresAuth || isAuthenticated || (name == Some("feed") && isGuest)
    ensures d != Allow ==> d == RedirectTo("login")
  {
    if requiresAuth then
      if isAuthenticated then Allow
      else if name == Some("feed") && isGuest then Allow
      else RedirectTo("login")
    else Allow
  }

  /** Whether the guard bootstraps first: a truthy token, no user yet, no request in flight. */
  predicate ShouldBootstrap(token: Option<string>, me: Option<Me>, loading: bool) {
    Truthy(token) && me.None? && !loading
  }

  /**
   * The guard. `fetchMe` is the outcome of the `/me` call that the
   * bootstrap makes when it runs.
   */
  method BeforeEach(auth: AuthStore, to: Location, fetchMe: ApiOutcome<Me>) returns (d: Decision)
    requires auth.Valid()
    modifies auth
    ensures auth.Valid()
    ensures !ShouldBootstrap(old(auth.token), old(auth.me), old(auth.loading)) ==> unchanged(auth)
    ensures ShouldBootstrap(old(auth.token), old(auth.me), old(auth.loading)) ==>
      && !auth.guest && !auth.loading && auth.error == None
      && (fetchMe.Succeeded? ==>
            && auth.token == old(auth.token) && auth.me == Some(fetchMe.value)
            && auth.storage == WithGuest(old(auth.storage), false))
      && (fetchMe.Failed? ==>
            && auth.token == None && auth.me == None
            && auth.storage == WithToken(WithGuest(old(auth.storage), false), None))
    ensures d == Decide(RequiresAuth(to.matched), auth.IsAuthenticated(), auth.IsGuest(), to.name)
    ensures old(auth.IsAuthenticated()) ==> d == Allow
    ensures ShouldBootstrap(old(auth.token), old(auth.me), old(auth.loading)) && fetchMe.Succeeded? ==> d == Allow
  {
    if Truthy(auth.token) && auth.me.None? && !auth.loading {
      auth.Bootstrap(fetchMe);
    }
    var requiresAuth := RequiresAuth(to.matched);
    if requiresAuth {
      if auth.IsAuthenticated() {
        return Allow;
      }
      if to.name == Some("feed") && auth.IsGuest() {
        return Allow;
      }
      return RedirectTo("login");
    }
    return Allow;
  }

  // -----------------------------------------------------------------------
  // The route table

  const AuthLayout := RouteRecord("/auth", None, true)
  const AppLayout := RouteRecord("/app", Some(true), false)

  const AuthPages: seq<string> := ["login", "mediaschool-login", "register", "terms"]
  const AppPages: seq<string> := ["feed", "challenges", "profile"]

  /** The location of a named route: its layout record, then the page's own record. */
  function NamedRoute(name: string): (r: Option<Location>)
    ensures r.Some? <==> name in AuthPages || name in AppPages
    ensures r.Some? ==> r.value.name == Some(name) && |r.value.matched| == 2
    ensures name in AppPages ==> r.Some? && r.value.matched[0] == AppLayout
    ensures name in AuthPages ==> r.Some? && r.value.matched[0] == AuthLayout
  {
    if name in AuthPages then Some(Location(Some(name), [AuthLayout, RouteRecord(name, None, false)]))
    else if name in AppPages then Some(Location(Some(name), [AppLayout, RouteRecord(name, None, false)]))
    else None
  }

  /** Every page under `/app` requires authentication; no page under `/auth` does. */
  lemma PagesRequiringAuth(name: string)
    requires name in AuthPages || name in AppPages
    ensures RequiresAuth(NamedRoute(name).value.matched) <==> name in AppPages
  {
    var m := NamedRoute(name).value.matched;
    if name in AppPages {
      assert m[0].requiresAuth == Some(true);
    } else {
      assert name !in AppPages by {
        assert AuthPages[0] != AppPages[0] && AuthPages[0] != AppPages[1] && AuthPages[0] != AppPages[2];
      }
      assert m[0].requiresAuth == None && m[1].requiresAuth == None;
    }
  }

  /** An unauthenticated guest reaches the feed and no other `/app` page. */
  lemma GuestReachesOnlyFeed(name: string)
    requires name in AppPages
    ensures Decide(RequiresAuth(NamedRoute(name).value.matched), false, true, Some(name)) == Allow <==> name == "feed"
  {
    PagesRequiringAuth(name);
  }

  /** An unauthenticated visitor that is not a guest is sent to the login page from every `/app` page. */
  lemma VisitorRedirected(name: string)
    requires name in AppPages
    ensures Decide(RequiresAuth(NamedRoute(name).value.matched), false, false, Some(name)) == RedirectTo("login")
  {
    PagesRequiringAuth(name);
  }

  /** `guestOnly` is never consulted: an authenticated user may still open the `/auth` pages. */
  lemma AuthPagesOpenToEveryone(name: string, isAuthenticated: bool, isGuest: bool)
    requires name in AuthPages
    ensures NamedRoute(name).value.matched[0].guestOnly
    ensures Decide(RequiresAuth(NamedRoute(name).value.matched), isAuthenticated, isGuest, Some(name)) == Allow
  {
    PagesRequiringAuth(name);
  }
}
