/** The user administration service: look-ups, removal and the active
    switch. */
module UserServices {
  import opened Base
  import opened Text
  import opened Accounts

  /** The text of the error for an unknown user id. */
  function UserNotFoundWithId(id: Id): (r: string)
    ensures |r| > 24 && r[..24] == "User not found with id: " && DenotesInt(r[24..], id)
  {
    var prefix := "User not found with id: ";
    var r := prefix + IntToDecimal(id);
    assert r[24..] == IntToDecimal(id);
    r
  }

  /** The text of the error for an unknown e-mail address. */
  function UserNotFoundWithEmail(email: string): (r: string)
    ensures |r| == 27 + |email| && r[..27] == "User not found with email: " && r[27..] == email
  {
    "User not found with email: " + email
  }

  class UserService {
    /** The user table, keyed by id. */
    var users: map<Id, User>

    /** Users are stored under their own ids, and no two share an e-mail
        address. */
    ghost predicate Valid()
      reads this, users.Values
    {
      (forall id :: id in users ==> users[id].id == id) &&
      (forall a, b :: a in users && b in users && users[a].email == users[b].email ==> a == b)
    }

    constructor (users: map<Id, User>)
      requires forall id :: id in users ==> users[id].id == id
      requires forall a, b :: a in users && b in users && users[a].email == users[b].email ==> a == b
      ensures Valid() && this.users == users
    {
      this.users := users;
    }

    /** The stored user with this id, as a frame. */
    function UserAt(id: Id): set<User>
      reads this
    {
      if id in users then {users[id]} else {}
    }

    /** `getUserById`. */
    function UserById(id: Id): (r: Result<User>)
      reads this
      ensures r.Failure? <==> id !in users
      ensures r.Failure? ==> r.error == NotFound(UserNotFoundWithId(id))
      ensures r.Success? ==> r.value == users[id]
    {
      if id in users then Success(users[id]) else Failure(NotFound(UserNotFoundWithId(id)))
    }

    /** `getUserByEmail`: the one user with that address. */
    method UserByEmail(email: string) returns (r: Result<User>)
      requires Valid()
      ensures r.Failure? <==> forall id :: id in users ==> users[id].email != email
      ensures r.Failure? ==> r.error == NotFound(UserNotFoundWithEmail(email))
      ensures r.Success? ==>
                r.value.email == email && r.value.id in users && users[r.value.id] == r.value
    {
      if id :| id in users && users[id].email == email {
        r := Success(users[id]);
      } else {
        r := Failure(NotFound(UserNotFoundWithEmail(email)));
      }
    }

    /** `deleteUser`: only the addressed user goes. */
    method DeleteUser(id: Id) returns (r: Result<()>)
      requires Valid()
      modifies this`users
      ensures Valid()
      ensures r.Failure? <==> id !in old(users)
      ensures r.Failure? ==> r == Failure(old(UserById(id)).error) && users == old(users)
      ensures r.Success? ==> users == old(users) - {id}
    {
      var found := UserById(id);
      if found.Failure? {
        return Failure(found.error);
      }
      users := users - {id};
      r := Success(());
    }

    /** `deactivateUser`: the account is switched off and nothing else
        changes; an inactive account is left as it was. */
    method DeactivateUser(id: Id) returns (r: Result<User>)
      requires Valid()
      modifies UserAt(id)`isActive
      ensures Valid()
      ensures r.Failure? <==> id !in users
      ensures r.Failure? ==> r == UserById(id)
      ensures r.Success? ==> r.value == users[id] && !r.value.isActive
      ensures r.Success? && !old(users[id].isActive) ==> unchanged(users[id])
    {
      var found := UserById(id);
      if found.Failure? {
        return found;
      }
      var user := found.value;
      user.isActive := false;
      r := Success(user);
    }

    /** `activateUser`: the account is switched on and nothing else
        changes; an active account is left as it was. */
    method ActivateUser(id: Id) returns (r: Result<User>)
      requires Valid()
      modifies UserAt(id)`isActive
      ensures Valid()
      ensures r.Failure? <==> id !in users
      ensures r.Failure? ==> r == UserById(id)
      ensures r.Success? ==> r.value == users[id] && r.value.isActive
      ensures r.Success? && old(users[id].isActive) ==> unchanged(users[id])
    {
      var found := UserById(id);
      if found.Failure? {
        return found;
      }
      var user := found.value;
      user.isActive := true;
      r := Success(user);
    }

    /** Deactivating and then activating gives an account that was active
        back unchanged. */
    method DeactivateThenActivate(id: Id) returns (r: Result<User>)
      requires Valid()
      modifies UserAt(id)`isActive
      ensures Valid()
      ensures r.Failure? <==> id !in users
      ensures r.Success? && old(users[id].isActive) ==> unchanged(users[id])
    {
      r := DeactivateUser(id);
      if r.Success? {
        r := ActivateUser(id);
      }
    }

    /** `countActiveUsers`. */
    function CountActiveUsers(): (r: nat)
      reads this, users.Values
      ensures r == |ActiveUsers()|
    {
      |set id | id in users && users[id].isActive|
    }

    /** The active users' ids. */
    function ActiveUsers(): (r: set<Id>)
      reads this, users.Values
      ensures forall id :: id in r <==> id in users && users[id].isActive
    {
      set id | id in users && users[id].isActive
    }
  }
}
