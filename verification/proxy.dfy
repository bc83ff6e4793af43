/**
  The middleware's redirect rule: signed-in users are sent from the home
  page to the dashboard, signed-out users from every other page to home.
*/
module Proxy {
  import opened Wrappers

  const Home: string := "/"
  const DashboardPath: string := "/dashboard"

  /** The auth provider reports a user id; an empty id is falsy and counts as signed out. */
  predicate SignedIn(userId: Option<string>) {
    userId.Some? && userId.value != ""
  }

  /** The path to redirect to, or `None` to let the request through. */
  function Redirect(userId: Option<string>, pathname: string): (r: Option<string>)
    ensures SignedIn(userId) && pathname == Home ==> r == Some(DashboardPath)
    ensures !SignedIn(userId) && pathname != Home ==> r == Some(Home)
    ensures SignedIn(userId) && pathname != Home ==> r == None
    ensures !SignedIn(userId) && pathname == Home ==> r == None
    ensures r.Some? ==> r.value != pathname
  {
    if SignedIn(userId) && pathname == Home then Some(DashboardPath)
    else if !SignedIn(userId) && pathname != Home then Some(Home)
    else None
  }

  /** For a fixed auth state, following a redirect lands on a page that is let through. */
  lemma NoRedirectLoop(userId: Option<string>, pathname: string)
    ensures Redirect(userId, pathname).Some? ==> Redirect(userId, Redirect(userId, pathname).value) == None
  {
    if Redirect(userId, pathname).Some? && SignedIn(userId) {
      assert DashboardPath != Home by { assert DashboardPath[1] == 'd'; }
    }
  }
}
