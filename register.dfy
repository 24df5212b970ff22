/**
 * The registration form: four checks in a fixed order, the first that fails
 * giving its message, and on success a new user appended to the stored user
 * list and signed in. The browser's key/value storage is the fields of a
 * `RegisterPage` object, with the `users` list already parsed.
 */
module Register {
  import opened Wrappers

  /** A stored user. */
  datatype User = User(username: string, password: string, profilePicture: string, quote: string)

  /** The profile settings written on sign-in. */
  datatype ProfileSettings = ProfileSettings(
    username: string, profilePicture: string, quote: string, backgroundImage: string, theme: string)

  const MissingFields: string := "Fyll i användarnamn och lösenord"
  const PasswordMismatch: string := "Lösenorden matchar inte"
  const PasswordTooShort: string := "Lösenordet måste vara minst 3 tecken"
  const UsernameTaken: string := "Användarnamnet är redan taget"
  const MinPassword: int := 3

  predicate NameTaken(users: seq<User>, username: string) {
    exists u | u in users :: u.username == username
  }

  /**
   * The message `handleRegister` shows, or none when every check passes. The
   * checks run in order and only the first that fails is reported.
   */
  function RegisterError(users: seq<User>, username: string, password: string, confirm: string): (r: Option<string>)
    ensures r == Some(MissingFields) <==> username == "" || password == ""
    ensures r == Some(PasswordMismatch) <==> username != "" && password != "" && password != confirm
    ensures r == Some(PasswordTooShort) <==>
      username != "" && password != "" && password == confirm && |password| < MinPassword
    ensures r == Some(UsernameTaken) <==>
      username != "" && |password| >= MinPassword && password == confirm && NameTaken(users, username)
    ensures r.None? <==>
      username != "" && |password| >= MinPassword && password == confirm && !NameTaken(users, username)
  {
    if username == "" || password == "" then Some(MissingFields)
    else if password != confirm then Some(PasswordMismatch)
    else if |password| < MinPassword then Some(PasswordTooShort)
    else if NameTaken(users, username) then Some(UsernameTaken)
    else None
  }

  /** The form and the storage it writes. */
  class RegisterPage {
    var users: seq<User>
    var currentUser: Option<string>
    var storedUsername: Option<string>
    var profileSettings: Option<ProfileSettings>
    var error: string
    var navigatedTo: Option<string>

    constructor(stored: seq<User>)
      ensures users == stored && currentUser == None && storedUsername == None
      ensures profileSettings == None && error == "" && navigatedTo == None
    {
      users := stored;
      currentUser := None;
      storedUsername := None;
      profileSettings := None;
      error := "";
      navigatedTo := None;
    }

    /**
     * `handleRegister`: on a failed check only the message changes; otherwise
     * exactly one user, with an empty quote, is added at the end, the user is
     * signed in with dark-theme profile settings, and the page moves on to
     * the profile.
     */
    method HandleRegister(username: string, password: string, confirm: string, profilePicture: string)
      modifies this
      ensures var r := RegisterError(old(users), username, password, confirm);
        error == (if r.Some? then r.value else "")
      ensures RegisterError(old(users), username, password, confirm).Some? ==>
        users == old(users) && currentUser == old(currentUser) && storedUsername == old(storedUsername) &&
        profileSettings == old(profileSettings) && navigatedTo == old(navigatedTo)
      ensures RegisterError(old(users), username, password, confirm).None? ==>
        users == old(users) + [User(username, password, profilePicture, "")] &&
        currentUser == Some(username) && storedUsername == Some(username) &&
        profileSettings == Some(ProfileSettings(username, profilePicture, "", "", "dark")) &&
        navigatedTo == Some("/profile")
    {
      error := "";
      if username == "" || password == "" {
        error := MissingFields;
        return;
      }
      if password != confirm {
        error := PasswordMismatch;
        return;
      }
      if |password| < MinPassword {
        error := PasswordTooShort;
        return;
      }
      if NameTaken(users, username) {
        error := UsernameTaken;
        return;
      }
      var newUser := User(username, password, profilePicture, "");
      users := users + [newUser];
      currentUser := Some(username);
      storedUsername := Some(username);
      profileSettings := Some(ProfileSettings(username, profilePicture, "", "", "dark"));
      navigatedTo := Some("/profile");
    }
  }

  /** No two stored users share a username. */
  predicate UniqueNames(users: seq<User>) {
    forall a, b | 0 <= a < b < |users| :: users[a].username != users[b].username
  }

  /** A successful registration keeps usernames unique. */
  lemma RegisterKeepsNamesUnique(users: seq<User>, username: string, password: string, confirm: string, picture: string)
    requires UniqueNames(users)
    requires RegisterError(users, username, password, confirm).None?
    ensures UniqueNames(users + [User(username, password, picture, "")])
  {
    var after := users + [User(username, password, picture, "")];
    forall a, b | 0 <= a < b < |after| ensures after[a].username != after[b].username {
      if b == |users| {
        assert after[a] == users[a] && after[a] in users;
      }
    }
  }

  /** Registering a username a second time, with any password, is refused as taken. */
  lemma SecondRegistrationRefused(users: seq<User>, username: string, password: string, picture: string, password2: string)
    requires RegisterError(users, username, password, password).None?
    requires |password2| >= MinPassword
    ensures RegisterError(users + [User(username, password, picture, "")], username, password2, password2) == Some(UsernameTaken)
  {
    var added := User(username, password, picture, "");
    assert added in users + [added];
  }
}
