/** The account rules of the user-management screen
    (components/UserManagement.tsx): adding, deleting and editing employee
    accounts. Usernames are compared ignoring case; the signed-in user cannot
    delete their own account and the last account cannot be deleted. */
module Users {
  import opened Collections
  import opened Types
  import opened Text

  /** Why a request was refused. The source returns silently on a missing
      field and raises an alert for the others. */
  datatype UserError = MissingField | UsernameTaken | OwnAccount | LastAccount | NotConfirmed

  datatype Outcome = Accepted(users: seq<User>) | Rejected(error: UserError)

  /** Some account in the list has this username, ignoring case. */
  predicate UsernameInUse(users: seq<User>, username: string)
  {
    exists i :: 0 <= i < |users| && SameIgnoringCase(users[i].username, username)
  }

  /** No two accounts share a username, ignoring case. */
  predicate UniqueUsernames(users: seq<User>)
  {
    forall i, j :: 0 <= i < j < |users| ==> !SameIgnoringCase(users[i].username, users[j].username)
  }

  predicate UniqueIds(users: seq<User>)
  {
    forall i, j :: 0 <= i < j < |users| ==> users[i].id != users[j].id
  }

  /** `handleAddUser`: all three text fields are required and the username
      must be new ignoring case; the account is appended. */
  function AddUser(users: seq<User>, name: string, username: string, pin: string, role: Role, newId: string): (r: Outcome)
    ensures r == Rejected(MissingField) <==> name == "" || username == "" || pin == ""
    ensures r == Rejected(UsernameTaken) <==> name != "" && username != "" && pin != "" && UsernameInUse(users, username)
    ensures r.Accepted? ==> r.users == users + [User(newId, username, pin, role, name)]
    ensures r.Accepted? || r.Rejected?
  {
    if name == "" || username == "" || pin == "" then Rejected(MissingField)
    else if UsernameInUse(users, username) then Rejected(UsernameTaken)
    else Accepted(users + [User(newId, username, pin, role, name)])
  }

  lemma AddUserKeepsUsernamesUnique(users: seq<User>, name: string, username: string, pin: string, role: Role, newId: string)
    requires UniqueUsernames(users)
    ensures AddUser(users, name, username, pin, role, newId).Accepted? ==>
      UniqueUsernames(AddUser(users, name, username, pin, role, newId).users)
  {
    var r := AddUser(users, name, username, pin, role, newId);
    if r.Accepted? {
      forall i, j | 0 <= i < j < |r.users|
        ensures !SameIgnoringCase(r.users[i].username, r.users[j].username)
      {
        if j == |users| {
          assert !SameIgnoringCase(users[i].username, username);
        }
      }
    }
  }

  /** The accounts whose id differs, in their order. */
  function AccountsWithout(users: seq<User>, id: string): (r: seq<User>)
    ensures forall i :: 0 <= i < |r| ==> r[i].id != id && r[i] in users
    ensures forall i :: 0 <= i < |users| && users[i].id != id ==> users[i] in r
  {
    Filter(users, (u: User) => u.id != id)
  }

  /** Removal works piece by piece, so the surviving accounts keep their order. */
  lemma AccountsWithoutKeepsOrder(front: seq<User>, back: seq<User>, id: string)
    ensures AccountsWithout(front + back, id) == AccountsWithout(front, id) + AccountsWithout(back, id)
  {
    FilterAppend(front, back, (u: User) => u.id != id);
  }

  /** A single account is dropped exactly when it carries the id. */
  lemma AccountsWithoutOne(u: User, id: string)
    ensures AccountsWithout([u], id) == if u.id == id then [] else [u]
  {
    FilterOne(u, (u: User) => u.id != id);
  }

  /** `handleDeleteUser`: refused for the signed-in user's own id, refused
      when at most one account is left, cancelled unless the confirmation
      dialog was accepted; otherwise every account with the id is removed. */
  function DeleteUser(users: seq<User>, current: User, id: string, confirmed: bool): (r: Outcome)
    ensures id == current.id ==> r == Rejected(OwnAccount)
    ensures id != current.id && |users| <= 1 ==> r == Rejected(LastAccount)
    ensures r.Accepted? <==> id != current.id && |users| > 1 && confirmed
    ensures r.Accepted? ==>
      && (forall i :: 0 <= i < |r.users| ==> r.users[i].id != id && r.users[i] in users)
      && (forall i :: 0 <= i < |users| && users[i].id != id ==> users[i] in r.users)
      && r.users == AccountsWithout(users, id)
  {
    if id == current.id then Rejected(OwnAccount)
    else if |users| <= 1 then Rejected(LastAccount)
    else if !confirmed then Rejected(NotConfirmed)
    else Accepted(AccountsWithout(users, id))
  }

  /** The signed-in user's account survives any accepted deletion, so the
      list of accounts never becomes empty. The signed-in record is matched
      by id only: after editing their own account it may differ from the
      stored one in every other field. */
  lemma DeleteUserNeverEmpties(users: seq<User>, current: User, id: string, confirmed: bool)
    requires exists j :: 0 <= j < |users| && users[j].id == current.id
    ensures DeleteUser(users, current, id, confirmed).Accepted? ==>
      var kept := DeleteUser(users, current, id, confirmed).users;
      && (exists j :: 0 <= j < |kept| && kept[j].id == current.id)
      && (current in users ==> current in kept)
      && |kept| > 0
  {
    var r := DeleteUser(users, current, id, confirmed);
    if r.Accepted? {
      var j :| 0 <= j < |users| && users[j].id == current.id;
      assert users[j] in r.users;
    }
  }

  /** The edited fields applied to one account; id and position stay. */
  function WithEdits(u: User, name: string, username: string, pin: string, role: Role): User
  {
    u.(name := name, username := username, pin := pin, role := role)
  }

  /** `handleSaveEdit`: an account must be selected and all three text fields
      filled; the username must not clash, ignoring case, with any account
      of another id; then every account with the edited id takes the new
      name, username, PIN and role. */
  function SaveEdit(users: seq<User>, editing: Option<User>, name: string, username: string, pin: string, role: Role): (r: Outcome)
    ensures r == Rejected(MissingField) <==> editing.None? || name == "" || username == "" || pin == ""
    ensures r == Rejected(UsernameTaken) <==>
      && editing.Some? && name != "" && username != "" && pin != ""
      && exists i :: 0 <= i < |users| && users[i].id != editing.value.id && SameIgnoringCase(users[i].username, username)
    ensures r.Accepted? ==> |r.users| == |users|
    ensures r.Accepted? ==> forall i :: 0 <= i < |users| && users[i].id != editing.value.id ==> r.users[i] == users[i]
    ensures r.Accepted? ==> forall i :: 0 <= i < |users| && users[i].id == editing.value.id ==>
      && r.users[i].id == users[i].id
      && r.users[i].name == name && r.users[i].username == username
      && r.users[i].pin == pin && r.users[i].role == role
  {
    if editing.None? || name == "" || username == "" || pin == "" then Rejected(MissingField)
    else
      var others := Filter(users, (u: User) => u.id != editing.value.id);
      if UsernameInUse(others, username) then Rejected(UsernameTaken)
      else
        Accepted(MapWhere(users, (u: User) => u.id == editing.value.id,
                          (u: User) => WithEdits(u, name, username, pin, role)))
  }

  /** With distinct ids, an accepted edit keeps usernames unique. */
  lemma SaveEditKeepsUsernamesUnique(users: seq<User>, editing: Option<User>, name: string, username: string, pin: string, role: Role)
    requires UniqueIds(users) && UniqueUsernames(users)
    ensures SaveEdit(users, editing, name, username, pin, role).Accepted? ==>
      UniqueUsernames(SaveEdit(users, editing, name, username, pin, role).users)
  {
    var r := SaveEdit(users, editing, name, username, pin, role);
    if r.Accepted? {
      var eid := editing.value.id;
      forall i, j | 0 <= i < j < |r.users|
        ensures !SameIgnoringCase(r.users[i].username, r.users[j].username)
      {
        if users[i].id == eid {
          assert users[j].id != eid;
          assert !SameIgnoringCase(users[j].username, username);
        } else if users[j].id == eid {
          assert !SameIgnoringCase(users[i].username, username);
        }
      }
    }
  }
}
