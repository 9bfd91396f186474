/** The authentication context (AuthContext.tsx:34-160): the signed-in user,
    the interface language, the busy flag, the last error and the number of
    trials left, and the operations that change them. Each remote call is an
    input: the user it resolves to, or the message it is rejected with. */
module Auth {
  import opened Wrappers
  import opened Locales
  import opened Users

  /** The trial count when none is saved (AuthContext.tsx:44). */
  const DefaultTrials := 5

  /** The temporary user of trial mode (AuthContext.tsx:81-90). */
  function TrialUser(locale: Locale): (u: User)
    ensures u.id == "trial-user" && u.preferences == Preferences(Light, locale)
    ensures u.createdAt == None
  {
    User("trial-user", "trial", "trial@example.com", "Trial User", None, Preferences(Light, locale))
  }

  /** Trial users for different locales differ only in their preferences. */
  lemma TrialUserLocale(a: Locale, b: Locale)
    ensures TrialUser(a) == TrialUser(b) <==> a == b
    ensures TrialUser(a).(preferences := TrialUser(b).preferences) == TrialUser(b)
  {
  }

  class AuthState {
    var user: Option<User>
    var locale: Locale
    var isLoading: bool
    var error: Option<string>
    var trialCount: int

    /** The provider's first state: no user, loading until the saved session
        has been looked at, the saved locale or 'en', the saved trial count or
        5. savedLocale and savedTrials are what local storage holds. */
    constructor(savedLocale: Option<Locale>, savedTrials: Option<int>)
      ensures user == None && isLoading && error == None
      ensures locale == if savedLocale.Some? then savedLocale.value else En
      ensures trialCount == if savedTrials.Some? then savedTrials.value else DefaultTrials
    {
      user := None;
      locale := if savedLocale.Some? then savedLocale.value else En;
      isLoading := true;
      error := None;
      trialCount := if savedTrials.Some? then savedTrials.value else DefaultTrials;
    }

    /** loadUser (AuthContext.tsx:53-70): with a saved token the current user
        is fetched; a failure only drops the token. Loading ends either way. */
    method LoadUser(hasToken: bool, current: Result<User, string>)
      modifies this
      ensures user == if hasToken && current.Ok? then Some(current.value) else old(user)
      ensures !isLoading
      ensures error == old(error) && locale == old(locale) && trialCount == old(trialCount)
    {
      if hasToken && current.Ok? {
        user := Some(current.value);
      }
      isLoading := false;
    }

    /** startTrialMode (AuthContext.tsx:77-92): with a trial left, one less
        trial and the trial user in the current locale; otherwise nothing. A
        count that is not negative never becomes negative. */
    method StartTrialMode()
      modifies this
      ensures old(trialCount) > 0 ==> trialCount == old(trialCount) - 1 && user == Some(TrialUser(locale))
      ensures old(trialCount) <= 0 ==> trialCount == old(trialCount) && user == old(user)
      ensures old(trialCount) >= 0 ==> trialCount >= 0
      ensures locale == old(locale) && isLoading == old(isLoading) && error == old(error)
    {
      if trialCount > 0 {
        trialCount := trialCount - 1;
        user := Some(TrialUser(locale));
      }
    }

    /** The shared shape of login and register (AuthContext.tsx:94-120): the
        error is cleared, the user is the one the call resolves to, or on a
        rejection the user stays, the error is its message and the message is
        raised again. Loading has ended at the end. */
    method SignIn(reply: Result<User, string>) returns (thrown: Option<string>)
      modifies this
      ensures reply.Ok? ==> user == Some(reply.value) && error == None && thrown == None
      ensures reply.Err? ==> user == old(user) && error == Some(reply.error) && thrown == Some(reply.error)
      ensures !isLoading
      ensures locale == old(locale) && trialCount == old(trialCount)
    {
      isLoading := true;
      error := None;
      if reply.Ok? {
        user := Some(reply.value);
        thrown := None;
      } else {
        error := Some(reply.error);
        thrown := Some(reply.error);
      }
      isLoading := false;
    }

    /** login: authApi.login(credentials) resolves to reply. */
    method Login(credentials: Credentials, reply: Result<User, string>) returns (thrown: Option<string>)
      modifies this
      ensures reply.Ok? ==> user == Some(reply.value) && error == None && thrown == None
      ensures reply.Err? ==> user == old(user) && error == Some(reply.error) && thrown == Some(reply.error)
      ensures !isLoading
      ensures locale == old(locale) && trialCount == old(trialCount)
    {
      thrown := SignIn(reply);
    }

    /** register: authApi.register(data) resolves to reply. */
    method Register(data: RegisterData, reply: Result<User, string>) returns (thrown: Option<string>)
      modifies this
      ensures reply.Ok? ==> user == Some(reply.value) && error == None && thrown == None
      ensures reply.Err? ==> user == old(user) && error == Some(reply.error) && thrown == Some(reply.error)
      ensures !isLoading
      ensures locale == old(locale) && trialCount == old(trialCount)
    {
      thrown := SignIn(reply);
    }

    /** logout (AuthContext.tsx:122-134): on success no user is left; on a
        rejection the user stays and the error is its message, raised again. */
    method Logout(reply: Outcome<string>) returns (thrown: Option<string>)
      modifies this
      ensures reply.Pass? ==> user == None && error == None && thrown == None
      ensures reply.Fail? ==> user == old(user) && error == Some(reply.error) && thrown == Some(reply.error)
      ensures !isLoading
      ensures locale == old(locale) && trialCount == old(trialCount)
    {
      isLoading := true;
      error := None;
      if reply.Pass? {
        user := None;
        thrown := None;
      } else {
        error := Some(reply.error);
        thrown := Some(reply.error);
      }
      isLoading := false;
    }

    /** setLocale. */
    method SetLocale(l: Locale)
      modifies this
      ensures locale == l
      ensures user == old(user) && isLoading == old(isLoading) && error == old(error) && trialCount == old(trialCount)
    {
      locale := l;
    }

    /** updateUserPreferences (AuthContext.tsx:136-146): without a user nothing
        happens and nothing is asked of the server; otherwise the user becomes
        the updated record, or on a rejection the error is set and raised
        again. The error is not cleared first and loading is not touched. */
    method UpdateUserPreferences(preferences: Preferences, reply: Result<User, string>)
      returns (asked: bool, thrown: Option<string>)
      modifies this
      ensures asked <==> old(user).Some?
      ensures !asked ==> user == old(user) && error == old(error) && thrown == None
      ensures asked && reply.Ok? ==> user == Some(reply.value) && error == old(error) && thrown == None
      ensures asked && reply.Err? ==> user == old(user) && error == Some(reply.error) && thrown == Some(reply.error)
      ensures locale == old(locale) && isLoading == old(isLoading) && trialCount == old(trialCount)
    {
      if user.None? {
        return false, None;
      }
      asked := true;
      if reply.Ok? {
        user := Some(reply.value);
        thrown := None;
      } else {
        error := Some(reply.error);
        thrown := Some(reply.error);
      }
    }
  }

  /** From nothing saved, the provider starts in English with five trials, and
      the trials run out after five starts: the count stays at 0 and the
      sixth start changes nothing. */
  method FreshTrials() returns (counts: seq<int>)
    ensures counts == [5, 4, 3, 2, 1, 0, 0]
  {
    var auth := new AuthState(None, None);
    counts := [auth.trialCount];
    auth.StartTrialMode();
    counts := counts + [auth.trialCount];
    auth.StartTrialMode();
    counts := counts + [auth.trialCount];
    auth.StartTrialMode();
    counts := counts + [auth.trialCount];
    auth.StartTrialMode();
    counts := counts + [auth.trialCount];
    auth.StartTrialMode();
    counts := counts + [auth.trialCount];
    auth.StartTrialMode();
    counts := counts + [auth.trialCount];
  }
}
