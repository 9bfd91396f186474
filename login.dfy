/** The sign-in page (Login.tsx:18-50): the submit handler, the trial button
    and its gate. It drives the authentication context it is given. */
module LoginView {
  import opened Wrappers
  import opened Users
  import opened Auth
  import opened RouteGuard

  /** translations[locale].loginFailed and .trialExpired. */
  datatype LoginMessage = LoginFailed | TrialExpired

  /** A field of the form. */
  datatype Field = Email | Password

  class LoginPage {
    const auth: AuthState
    var email: string
    var password: string
    var error: Option<LoginMessage>
    var isLoading: bool
    /** Every path handed to navigate, oldest first. */
    var navigations: seq<string>

    constructor(auth: AuthState)
      ensures this.auth == auth
      ensures email == "" && password == "" && error == None && !isLoading && navigations == []
    {
      this.auth := auth;
      email, password := "", "";
      error := None;
      isLoading := false;
      navigations := [];
    }

    /** The trial button's disabled flag (Login.tsx:122). */
    predicate TrialButtonDisabled()
      reads this, auth
    {
      auth.trialCount <= 0
    }

    /** For a visitor without a user, once loading is over, the trial button is
        disabled exactly when the route guard sends them back to /login. */
    lemma TrialButtonMatchesGuard(location: string)
      requires auth.user.None? && !auth.isLoading
      ensures TrialButtonDisabled() <==> Decide(auth.isLoading, auth.user, auth.trialCount, location).Redirect?
    {
    }

    /** The onChange handler of one field. */
    method Enter(field: Field, value: string)
      modifies this
      ensures email == (if field == Email then value else old(email))
      ensures password == (if field == Password then value else old(password))
      ensures error == old(error) && isLoading == old(isLoading) && navigations == old(navigations)
    {
      if field == Email {
        email := value;
      } else {
        password := value;
      }
    }

    /** handleSubmit (Login.tsx:27-41): the error is cleared; a successful
        login goes to '/'; any failure shows loginFailed, whatever message the
        context raised. Loading has ended at the end. reply is what the server
        answers to the credentials. */
    method HandleSubmit(reply: Result<User, string>)
      modifies this, auth
      ensures error == if reply.Err? then Some(LoginFailed) else None
      ensures navigations == old(navigations) + (if reply.Ok? then ["/"] else [])
      ensures !isLoading
      ensures email == old(email) && password == old(password)
      ensures auth.user == if reply.Ok? then Some(reply.value) else old(auth.user)
      ensures auth.error == if reply.Err? then Some(reply.error) else None
      ensures !auth.isLoading && auth.trialCount == old(auth.trialCount) && auth.locale == old(auth.locale)
    {
      error := None;
      isLoading := true;
      var thrown := auth.Login(Credentials(email, password), reply);
      if thrown.None? {
        navigations := navigations + ["/"];
      } else {
        error := Some(LoginFailed);
      }
      isLoading := false;
    }

    /** handleTrialMode (Login.tsx:43-50): with a trial left, one trial is
        started and the page goes to '/'; otherwise trialExpired is shown and
        nothing else happens. A trial starts exactly when the button is
        enabled. */
    method HandleTrialMode()
      modifies this, auth
      ensures !old(TrialButtonDisabled()) ==>
        && auth.trialCount == old(auth.trialCount) - 1
        && auth.user == Some(TrialUser(auth.locale))
        && navigations == old(navigations) + ["/"]
        && error == old(error)
      ensures old(TrialButtonDisabled()) ==>
        && auth.trialCount == old(auth.trialCount)
        && auth.user == old(auth.user)
        && navigations == old(navigations)
        && error == Some(TrialExpired)
      ensures email == old(email) && password == old(password) && isLoading == old(isLoading)
      ensures auth.locale == old(auth.locale) && auth.isLoading == old(auth.isLoading) && auth.error == old(auth.error)
    {
      if auth.trialCount > 0 {
        auth.StartTrialMode();
        navigations := navigations + ["/"];
      } else {
        error := Some(TrialExpired);
      }
    }
  }
}
