/** The user records the authentication code passes around (types/user.ts). */
module Users {
  import opened Wrappers
  import opened Locales

  datatype Theme = Light | Dark

  /** User['preferences']. */
  datatype Preferences = Preferences(theme: Theme, defaultLocale: Locale)

  datatype User = User(
    id: string,
    username: string,
    email: string,
    name: string,
    createdAt: Option<string>,
    preferences: Preferences)

  /** LoginCredentials. */
  datatype Credentials = Credentials(email: string, password: string)

  /** The registration payload. The declared type requires a name, but the
      registration form leaves the key out when the name is empty; None stands
      for the missing key. */
  datatype RegisterData = RegisterData(username: string, email: string, password: string, name: Option<string>)
}
