// The admin portal's `ProtectedRoute` (`routes/ProtectedRoute.tsx`): the
// gate in front of every page that needs a signed-in user. It reads the
// provider's `AuthState` and the optional list of roles the page admits, and
// renders a spinner, a redirect, or the page itself.
module ProtectedRoute {
  import opened Common
  import opened PortalSession

  /** What the route renders: the spinner, `<Navigate to="/login">` carrying
      the location the user came from, `<Navigate to="/unauthorized">`, or
      the nested page (`<Outlet />`). */
  datatype View = Loading | RedirectToLogin(from: string) | RedirectUnauthorized | Outlet

  /** `roles` is None when the prop is absent; an array, even an empty one,
      is truthy. */
  function Decide(s: AuthState, roles: Option<seq<string>>, location: string): (v: View)
    ensures !s.isInitialized ==> v == Loading
    ensures s.isInitialized && !IsAuthenticated(s) ==> v == RedirectToLogin(location)
    ensures v == Outlet <==>
              s.isInitialized && IsAuthenticated(s) && (roles.None? || s.user.value.role in roles.value)
    ensures v == RedirectUnauthorized <==>
              s.isInitialized && IsAuthenticated(s) && roles.Some? && s.user.value.role !in roles.value
  {
    if !s.isInitialized then Loading
    else if !IsAuthenticated(s) then RedirectToLogin(location)
    else if roles.Some? && s.user.Some? && s.user.value.role !in roles.value then RedirectUnauthorized
    else Outlet
  }

  /** The page is shown only to an initialized, authenticated user. */
  lemma OutletNeedsSession(s: AuthState, roles: Option<seq<string>>, location: string)
    requires Decide(s, roles, location) == Outlet
    ensures s.isInitialized && s.user.Some? && s.accessToken.Some? && s.accessToken.value != ""
  {
    AuthenticatedNeedsBoth(s);
  }

  /** After a logout every protected page sends the user to /login, and
      remembers where they were. */
  lemma LoggedOutGoesToLogin(roles: Option<seq<string>>, location: string)
    ensures Decide(LoggedOut, roles, location) == RedirectToLogin(location)
  {
    AuthenticatedNeedsBoth(LoggedOut);
  }

  /** An empty `roles` array is truthy and includes nothing, so it turns every
      signed-in user away; leaving the prop out admits them all. */
  lemma EmptyRolesAdmitNobody(s: AuthState, location: string)
    requires s.isInitialized && IsAuthenticated(s)
    ensures Decide(s, Some([]), location) == RedirectUnauthorized
    ensures Decide(s, None, location) == Outlet
  {
  }

  /** Widening a page's role list never turns away a user it admitted. */
  lemma WiderRolesAdmitMore(s: AuthState, narrow: seq<string>, wide: seq<string>, location: string)
    requires forall r :: r in narrow ==> r in wide
    requires Decide(s, Some(narrow), location) == Outlet
    ensures Decide(s, Some(wide), location) == Outlet
  {
  }
}
