/** The credential check of the sign-in screen (components/Login.tsx): the
    first account whose username equals the typed one ignoring case and whose
    PIN equals the typed one exactly. */
module Login {
  import opened Collections
  import opened Types
  import opened Text
  import Users

  const BadCredentials: string := "Identifiant ou mot de passe incorrect."

  datatype LoginOutcome = SignedIn(user: User) | Refused(message: string)

  predicate Matches(u: User, username: string, pin: string)
  {
    SameIgnoringCase(u.username, username) && u.pin == pin
  }

  /** `handleSubmit`: signs in the first matching account, or reports the
      error without signing anybody in. */
  function Authenticate(users: seq<User>, username: string, pin: string): (r: LoginOutcome)
    ensures r.SignedIn? ==> SameIgnoringCase(r.user.username, username) && r.user.pin == pin
    ensures r.SignedIn? ==> exists i :: 0 <= i < |users| && users[i] == r.user &&
                                        forall j :: 0 <= j < i ==> !Matches(users[j], username, pin)
    ensures r.Refused? <==> forall i :: 0 <= i < |users| ==> !Matches(users[i], username, pin)
    ensures r.Refused? ==> r.message == BadCredentials
  {
    match FindFirst(users, (u: User) => Matches(u, username, pin))
    case Some(k) => SignedIn(users[k])
    case None => Refused(BadCredentials)
  }

  /** While usernames are unique ignoring case — the rule the user screen
      keeps — a successful sign-in can only be the one account whose
      username matches. */
  lemma SignInIsUnambiguous(users: seq<User>, username: string, pin: string, i: int)
    requires Users.UniqueUsernames(users)
    requires 0 <= i < |users| && Matches(users[i], username, pin)
    ensures Authenticate(users, username, pin) == SignedIn(users[i])
  {
    var r := Authenticate(users, username, pin);
    var k :| 0 <= k < |users| && users[k] == r.user && forall j :: 0 <= j < k ==> !Matches(users[j], username, pin);
    if k < i {
      assert SameIgnoringCase(users[k].username, users[i].username);
    }
  }
}
