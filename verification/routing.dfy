/** The application shell (src/App.tsx): affiliate-link tracking, the route
    guards and the header and bottom navigation. */
module Routing {
  import opened Wrappers
  import opened Text
  import opened Entities

  // ---- affiliate tracking -----------------------------------------------------

  /** The query string, as URLSearchParams holds it: key/value pairs in
      order. */
  type Query = seq<(string, string)>

  /** `params.get(key)`: the first value under the key. */
  function Get(q: Query, key: string): (v: Option<string>)
    ensures v.Some? ==> exists i :: 0 <= i < |q| && q[i] == (key, v.value)
    ensures v.None? <==> forall i :: 0 <= i < |q| ==> q[i].0 != key
  {
    if q == [] then None
    else if q[0].0 == key then Some(q[0].1)
    else
      var v := Get(q[1..], key);
      assert forall i :: 0 <= i < |q| - 1 ==> q[1..][i] == q[i + 1];
      v
  }

  /** The window location the tracking effect reads. */
  datatype Location = Location(pathname: string, query: Query, hash: string)

  /** The effect's outcome: the referrer id stored in the session and the
      location after the query string is dropped. */
  datatype Tracking = Tracking(affiliateId: Option<string>, location: Location)

  /** A `ref` parameter, when non-empty, is stored as the session's
      affiliate id and the URL loses its query string; otherwise nothing
      changes. */
  function TrackRef(loc: Location, stored: Option<string>): (r: Tracking)
    ensures Truthy(Get(loc.query, "ref")) ==> r == Tracking(Get(loc.query, "ref"), Location(loc.pathname, [], loc.hash))
    ensures !Truthy(Get(loc.query, "ref")) ==> r == Tracking(stored, loc)
  {
    var ref := Get(loc.query, "ref");
    if Truthy(ref) then Tracking(ref, Location(loc.pathname, [], loc.hash)) else Tracking(stored, loc)
  }

  /** The rewritten URL carries no `ref`, so the effect does not fire again:
      the stored id and the location stay. */
  lemma TrackRefOnce(loc: Location, stored: Option<string>)
    ensures var t := TrackRef(loc, stored);
            TrackRef(t.location, t.affiliateId) == t
    ensures Truthy(Get(loc.query, "ref")) ==> Truthy(TrackRef(loc, stored).affiliateId)
  {
  }

  // ---- routes -----------------------------------------------------------------

  /** The routes of the router, already matched from the path. */
  datatype Route =
    | AuthRoute | HomeRoute | ProductRoute(productId: string) | StoreRoute(sellerId: string) | SearchRoute
    | MessagesRoute | ChatRoute(conversationId: string) | OrdersRoute | PaymentSuccessRoute
    | ProfileRoute | AccountSettingsRoute | TransactionsRoute
    | AdminRoute
    | SellerDashboardRoute | AddProductRoute | EditProductRoute(editedId: string) | EditStoreRoute
    | AffiliateRoute

  /** The routes reached without signing in. */
  predicate Public(r: Route) {
    r.HomeRoute? || r.ProductRoute? || r.StoreRoute? || r.SearchRoute?
  }

  /** The routes that send a signed-out visitor to /auth. */
  predicate Protected(r: Route) {
    || r.MessagesRoute? || r.ChatRoute? || r.OrdersRoute? || r.PaymentSuccessRoute?
    || r.ProfileRoute? || r.AccountSettingsRoute? || r.TransactionsRoute?
    || r.SellerDashboardRoute? || r.AddProductRoute? || r.EditProductRoute? || r.EditStoreRoute?
  }

  /** What is on screen for a route: the spinner while the session loads,
      the route's page, a redirect, or nothing while the affiliate route
      waits for the profile. */
  datatype Screen = Spinner | Page(route: Route) | Redirect(to: Route, replace: bool) | Empty

  /** The signed-in session: the user, and the profile's role once it is
      loaded. */
  datatype Session = Session(loading: bool, signedIn: bool, role: Option<Role>)

  function Render(r: Route, s: Session): (v: Screen)
    ensures s.loading <==> v == Spinner
    ensures !s.loading && Public(r) && !r.SearchRoute? ==> v == Page(r)
    ensures !s.loading && Protected(r) ==> v == if s.signedIn then Page(r) else Redirect(AuthRoute, false)
    ensures !s.loading && r == AuthRoute ==> v == if s.signedIn then Redirect(HomeRoute, false) else Page(AuthRoute)
    ensures !s.loading && r == AdminRoute ==>
              v == if s.signedIn && s.role == Some(Admin) then Page(AdminRoute) else Redirect(HomeRoute, false)
    ensures !s.loading && r == AffiliateRoute ==>
              v == if !s.signedIn then Redirect(AuthRoute, false)
                   else if s.role == Some(Affiliate) then Page(AffiliateRoute)
                   else if s.role.Some? then Redirect(HomeRoute, false)
                   else Empty
  {
    if s.loading then Spinner
    else match r
      case AuthRoute => if s.signedIn then Redirect(HomeRoute, false) else Page(AuthRoute)
      case SearchRoute => Redirect(HomeRoute, true)
      case AdminRoute => if s.signedIn && s.role == Some(Admin) then Page(AdminRoute) else Redirect(HomeRoute, false)
      case AffiliateRoute =>
        if !s.signedIn then Redirect(AuthRoute, false)
        else if s.role == Some(Affiliate) then Page(AffiliateRoute)
        else if s.role.Some? then Redirect(HomeRoute, false)
        else Empty
      case _ => if Protected(r) && !s.signedIn then Redirect(AuthRoute, false) else Page(r)
  }

  /** Every route is public, protected, or one of the four with a guard of
      its own. */
  lemma RoutesClassified(r: Route)
    ensures Public(r) || Protected(r) || r == AuthRoute || r == AdminRoute || r == AffiliateRoute
    ensures !(Public(r) && Protected(r))
  {
  }

  /** A redirect lands on a page: following it with the same session shows
      the target, so no route redirects in a loop. */
  lemma RedirectsSettle(r: Route, s: Session)
    requires Render(r, s).Redirect?
    ensures Render(Render(r, s).to, s) == Page(Render(r, s).to)
  {
  }

  /** A signed-out visitor sees the home page, the product and store pages
      and the sign-in page, and nothing else. */
  lemma SignedOutSees(r: Route, role: Option<Role>)
    ensures Render(r, Session(false, false, role)).Page? <==> (Public(r) && !r.SearchRoute?) || r == AuthRoute
  {
  }

  /** The header: for a signed-in user. The bottom navigation: on every
      path that does not start with "/admin". */
  datatype Chrome = Chrome(header: bool, bottomNav: bool, bottomPadding: int)

  function ChromeOf(pathname: string, s: Session): (c: Chrome)
    requires !s.loading
    ensures c.header <==> s.signedIn
    ensures c.bottomNav <==> !StartsWith(pathname, "/admin")
    ensures c.bottomPadding == (if c.bottomNav then 90 else 0)
  {
    var admin := StartsWith(pathname, "/admin");
    Chrome(s.signedIn, !admin, if admin then 0 else 90)
  }

  /** Every path under /admin hides the navigation, whatever follows. */
  lemma AdminPathsHideNav(tail: string, s: Session)
    requires !s.loading
    ensures !ChromeOf("/admin" + tail, s).bottomNav
    ensures ChromeOf("/", s).bottomNav
  {
    assert ("/admin" + tail)[..6] == "/admin";
  }
}
