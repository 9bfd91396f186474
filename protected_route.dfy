/** The route guard (ProtectedRoute.tsx:10-37): what a protected page shows
    for a state of the authentication context. */
module RouteGuard {
  import opened Wrappers
  import opened Users
  import opened Auth

  /** The spinner, a replacing redirect to `to` that remembers the location
      it came from, or the protected page itself. */
  datatype View = Spinner | Redirect(to: string, from: string) | Children

  /** The decision, in the order of the source: loading first, then a visitor
      with neither a user nor a trial left. location is what useLocation
      returns. */
  function Decide(isLoading: bool, user: Option<User>, trialCount: int, location: string): (v: View)
    ensures v.Spinner? <==> isLoading
    ensures v.Redirect? <==> !isLoading && user.None? && trialCount <= 0
    ensures v.Redirect? ==> v.to == "/login" && v.from == location
  {
    if isLoading then Spinner
    else if user.None? && trialCount <= 0 then Redirect("/login", location)
    else Children
  }

  /** The page is shown exactly when loading is over and there is a user or a
      trial left; a visitor with trials left gets in without using one. */
  lemma ChildrenIff(isLoading: bool, user: Option<User>, trialCount: int, location: string)
    ensures Decide(isLoading, user, trialCount, location) == Children <==> !isLoading && (user.Some? || trialCount > 0)
  {
  }

  /** The decision does not depend on the location except through the
      redirect's memory of it. */
  lemma LocationOnlyRemembered(isLoading: bool, user: Option<User>, trialCount: int, a: string, b: string)
    ensures Decide(isLoading, user, trialCount, a).Redirect? == Decide(isLoading, user, trialCount, b).Redirect?
    ensures !Decide(isLoading, user, trialCount, a).Redirect? ==> Decide(isLoading, user, trialCount, a) == Decide(isLoading, user, trialCount, b)
  {
  }

  /** After a trial has started, the protected page is shown once loading is
      over. */
  method GuardAfterTrial(auth: AuthState, location: string) returns (v: View)
    requires !auth.isLoading && auth.trialCount > 0
    modifies auth
    ensures v == Children
    ensures auth.user == Some(TrialUser(auth.locale))
  {
    auth.StartTrialMode();
    v := Decide(auth.isLoading, auth.user, auth.trialCount, location);
  }

  /** Signing out with no trial left sends the visitor to /login, remembering
      where they were. */
  method GuardAfterLogout(auth: AuthState, location: string) returns (v: View)
    requires auth.trialCount <= 0
    modifies auth
    ensures v == Redirect("/login", location)
  {
    var _ := auth.Logout(Pass);
    v := Decide(auth.isLoading, auth.user, auth.trialCount, location);
  }
}
