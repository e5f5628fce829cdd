/**
 * Accounts and the login session (auth.js). The user list that the source
 * reads from and writes back to browser storage on every call is held here
 * as a field; the session marker (`currentUser` in storage) is an optional
 * username. The username and email fields arrive already trimmed (the
 * source trims them); passwords are taken as typed. Time stamps arrive as
 * strings.
 */
module Auth {
  import opened Wrappers

  /** A stored account; `email` and `lastLogin` are `null` until set. */
  datatype User = User(username: string, password: string, email: Option<string>, createdAt: string, lastLogin: Option<string>)

  /** `users.find(u => u.username === name)`, as the index of the first match. */
  function FindUser(users: seq<User>, name: string): (r: Option<nat>)
    ensures r.Some? ==> r.value < |users| && users[r.value].username == name
    ensures r.Some? ==> forall j :: 0 <= j < r.value ==> users[j].username != name
    ensures r.None? <==> forall j :: 0 <= j < |users| ==> users[j].username != name
    decreases |users|
  {
    if users == [] then None
    else if users[0].username == name then Some(0)
    else match FindUser(users[1..], name)
      case None => None
      case Some(k) => Some(k + 1)
  }

  /** No two accounts share a username. */
  ghost predicate UniqueUsernames(users: seq<User>)
  {
    forall i, j :: 0 <= i < j < |users| ==> users[i].username != users[j].username
  }

  /** The outcomes of `register`, one per error message, in the order they are checked. */
  datatype RegisterResult =
    | MissingFields
    | UsernameTooShort
    | PasswordTooShort
    | PasswordMismatch
    | UsernameTaken
    | Registered

  /** The validation chain of `register`: the first failing rule decides. */
  function CheckRegistration(users: seq<User>, username: string, password: string, confirm: string): (r: RegisterResult)
    ensures r == MissingFields <==> username == "" || password == "" || confirm == ""
    ensures r == UsernameTooShort <==>
      username != "" && password != "" && confirm != "" && |username| < 3
    ensures r == PasswordTooShort <==>
      username != "" && password != "" && confirm != "" && |username| >= 3 && |password| < 4
    ensures r == PasswordMismatch <==>
      username != "" && confirm != "" && |username| >= 3 && |password| >= 4 && password != confirm
    ensures r == UsernameTaken <==>
      |username| >= 3 && |password| >= 4 && password == confirm && FindUser(users, username).Some?
    ensures r == Registered <==>
      |username| >= 3 && |password| >= 4 && password == confirm &&
      forall j :: 0 <= j < |users| ==> users[j].username != username
  {
    if username == "" || password == "" || confirm == "" then MissingFields
    else if |username| < 3 then UsernameTooShort
    else if |password| < 4 then PasswordTooShort
    else if password != confirm then PasswordMismatch
    else if FindUser(users, username).Some? then UsernameTaken
    else Registered
  }

  /** The record `register` appends; an empty email is stored as `null`. */
  function NewUser(username: string, password: string, email: string, now: string): (u: User)
    ensures u.username == username && u.password == password && u.createdAt == now
    ensures u.email.None? <==> email == ""
    ensures u.email.Some? ==> u.email.value == email
    ensures u.lastLogin.None?
  {
    User(username, password, if email == "" then None else Some(email), now, None)
  }

  /** The outcomes of `login`. */
  datatype LoginResult = MissingCredentials | UnknownUser | WrongPassword | LoggedIn

  /** The decision of `login`: missing input, then unknown username, then the password of the first match. */
  function CheckLogin(users: seq<User>, username: string, password: string): (r: LoginResult)
    ensures r == MissingCredentials <==> username == "" || password == ""
    ensures r == UnknownUser <==>
      username != "" && password != "" && forall j :: 0 <= j < |users| ==> users[j].username != username
    ensures r == WrongPassword <==>
      username != "" && password != "" && FindUser(users, username).Some? && users[FindUser(users, username).value].password != password
    ensures r == LoggedIn <==>
      username != "" && password != "" && FindUser(users, username).Some? && users[FindUser(users, username).value].password == password
  {
    if username == "" || password == "" then MissingCredentials
    else match FindUser(users, username)
      case None => UnknownUser
      case Some(i) => if users[i].password != password then WrongPassword else LoggedIn
  }

  /** With unique usernames, login succeeds exactly for a stored username and its password. */
  lemma LoginSucceedsForStoredPair(users: seq<User>, username: string, password: string)
    requires UniqueUsernames(users) && username != "" && password != ""
    ensures CheckLogin(users, username, password) == LoggedIn <==>
      exists i :: 0 <= i < |users| && users[i].username == username && users[i].password == password
  {
    var f := FindUser(users, username);
    if f.Some? {
      forall i | 0 <= i < |users| && users[i].username == username
        ensures i == f.value
      {
      }
    }
  }

  class Accounts {
    var users: seq<User>
    var currentUser: Option<string>

    /** The state read from storage: the stored user list and session marker. */
    constructor (stored: seq<User>, session: Option<string>)
      ensures users == stored && currentUser == session
    {
      users := stored;
      currentUser := session;
    }

    /** `isLoggedIn()`: a session marker is stored. */
    predicate IsLoggedIn()
      reads this
      ensures IsLoggedIn() <==> currentUser != None
    {
      currentUser.Some?
    }

    /** The `find` loop over the user list. */
    method FindUserIndex(name: string) returns (r: Option<nat>)
      ensures r == FindUser(users, name)
    {
      var i := 0;
      while i < |users|
        invariant 0 <= i <= |users|
        invariant forall j :: 0 <= j < i ==> users[j].username != name
      {
        if users[i].username == name {
          assert FindUser(users, name) != None;
          return Some(i);
        }
        i := i + 1;
      }
      r := None;
    }

    /** `register()`: on success one record is appended; on any rejection nothing changes. */
    method Register(username: string, password: string, confirm: string, email: string, now: string)
      returns (r: RegisterResult)
      modifies this
      ensures r == CheckRegistration(old(users), username, password, confirm)
      ensures users == if r == Registered then old(users) + [NewUser(username, password, email, now)] else old(users)
      ensures currentUser == old(currentUser)
      ensures UniqueUsernames(old(users)) ==> UniqueUsernames(users)
    {
      if username == "" || password == "" || confirm == "" {
        return MissingFields;
      }
      if |username| < 3 {
        return UsernameTooShort;
      }
      if |password| < 4 {
        return PasswordTooShort;
      }
      if password != confirm {
        return PasswordMismatch;
      }
      var existing := FindUserIndex(username);
      if existing.Some? {
        return UsernameTaken;
      }
      users := users + [NewUser(username, password, email, now)];
      r := Registered;
    }

    /**
     * `login()`: on success the session is set and only the first record with
     * that username gets its `lastLogin` stamped; on failure nothing changes.
     */
    method Login(username: string, password: string, now: string) returns (r: LoginResult)
      modifies this
      ensures r == CheckLogin(old(users), username, password)
      ensures r != LoggedIn ==> users == old(users) && currentUser == old(currentUser)
      ensures r == LoggedIn ==>
        IsLoggedIn() && currentUser == Some(username) &&
        var i := FindUser(old(users), username).value;
        users == old(users)[i := old(users)[i].(lastLogin := Some(now))]
      ensures UniqueUsernames(old(users)) ==> UniqueUsernames(users)
    {
      if username == "" || password == "" {
        return MissingCredentials;
      }
      var found := FindUserIndex(username);
      if found.None? {
        return UnknownUser;
      }
      var i := found.value;
      if users[i].password != password {
        return WrongPassword;
      }
      SetCurrentUser(Some(username));
      users := users[i := users[i].(lastLogin := Some(now))];
      r := LoggedIn;
    }

    /** `setCurrentUser(name)`: a non-empty name is stored; `null` or `""` clears the marker. */
    method SetCurrentUser(name: Option<string>)
      modifies this
      ensures currentUser == if name.Some? && name.value != "" then name else None
      ensures IsLoggedIn() <==> name.Some? && name.value != ""
      ensures users == old(users)
    {
      if name.Some? && name.value != "" {
        currentUser := name;
      } else {
        currentUser := None;
      }
    }

    /** `logout()`: clears the session marker (the redirect is not modelled). */
    method Logout()
      modifies this
      ensures !IsLoggedIn() && users == old(users)
    {
      SetCurrentUser(None);
    }

    /**
     * `getCurrentUserInfo()`: `None` without a (non-empty) session marker,
     * otherwise the first record with that username, `None` if there is none.
     */
    function CurrentUserInfo(): (r: Option<User>)
      reads this
      ensures !(currentUser.Some? && currentUser.value != "") ==> r.None?
      ensures r.Some? ==> r.value in users && Some(r.value.username) == currentUser
      ensures r.Some? ==> FindUser(users, currentUser.value).Some? && r.value == users[FindUser(users, currentUser.value).value]
      ensures r.None? && IsLoggedIn() && currentUser.value != "" ==>
        forall j :: 0 <= j < |users| ==> users[j].username != currentUser.value
    {
      if currentUser.None? || currentUser.value == "" then None
      else match FindUser(users, currentUser.value)
        case None => None
        case Some(i) => Some(users[i])
    }
  }
}
