/** The route guard (src/components/ProtectedRoute.tsx): one read of the
    stored flag decides between rendering the protected page and redirecting
    to the login page. */
module RouteGuard {
  import opened WebStorage
  import Auth
  import opened Wrappers

  /** The parts of a router location the guard passes on. */
  datatype Location = Location(pathname: string, search: string, hash: string)

  /** What the guard renders: its children, or `<Navigate to state replace>`. */
  datatype Rendered = Children | Redirect(to: string, from: Location, replace: bool)

  /** The guard's decision for the stored values and the requested location. */
  function ProtectedRoute(storage: Storage, location: Location): (r: Rendered)
    ensures r.Children? <==> Auth.AuthKey in storage && storage[Auth.AuthKey] == "true"
    ensures r.Redirect? ==> r.to == "/" && r.replace && r.from == location
  {
    if GetItem(storage, Auth.AuthKey) == Some("true") then Children
    else Redirect("/", location, true)
  }

  /** Rendering the guard inside a browser: it reads local storage and
      changes nothing (the method may not modify anything). */
  method Render(browser: Browser, location: Location) returns (r: Rendered)
    ensures r == ProtectedRoute(browser.storage, location)
  {
    r := ProtectedRoute(browser.storage, location);
  }

  /** The guard admits exactly the sessions that the provider's mount read
      would call authenticated. */
  lemma GuardAgreesWithMount(storage: Storage, location: Location)
    ensures ProtectedRoute(storage, location).Children? <==> Auth.StoredFlag(storage)
  {
  }

  /** After a completed login every protected page renders; after logout
      every one redirects to "/" and remembers where it was going. */
  lemma GuardAfterLoginAndLogout(storage: Storage, location: Location)
    ensures ProtectedRoute(SetItem(storage, Auth.AuthKey, "true"), location) == Children
    ensures ProtectedRoute(RemoveItem(storage, Auth.AuthKey), location) == Redirect("/", location, true)
  {
  }
}
