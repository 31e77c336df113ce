/** The user service: registration as a check-then-insert on the user
    table, and the two lookups by username and by id. */
module UserService {
  import opened Common
  import opened Entities

  /** The message of the error a taken username raises. */
  const UsernameTaken := "Username Already Existed"

  /** findByUsername: the first user with that username, or null. */
  function FindByUsername(users: seq<User>, username: string): (r: Option<User>)
    ensures r.Some? ==> r.value in users && r.value.username == username
    ensures r.None? <==> forall u :: u in users ==> u.username != username
  {
    if users == [] then None
    else if users[0].username == username then Some(users[0])
    else FindByUsername(users[1..], username)
  }

  /** findById: the first user with that id, or null. */
  function FindById(users: seq<User>, id: string): (r: Option<User>)
    ensures r.Some? ==> r.value in users && r.value.id == id
    ensures r.None? <==> forall u :: u in users ==> u.id != id
  {
    if users == [] then None
    else if users[0].id == id then Some(users[0])
    else FindById(users[1..], id)
  }

  predicate UniqueUsernames(users: seq<User>) {
    forall i, j :: 0 <= i < j < |users| ==> users[i].username != users[j].username
  }

  predicate UniqueIds(users: seq<User>) {
    forall i, j :: 0 <= i < j < |users| ==> users[i].id != users[j].id
  }

  /** Where usernames are unique, looking up a stored user's username finds
      that very user. */
  lemma {:induction false} FindStoredUser(users: seq<User>, k: nat)
    requires UniqueUsernames(users)
    requires k < |users|
    ensures FindByUsername(users, users[k].username) == Some(users[k])
    decreases |users|
  {
    if k > 0 {
      assert users[0].username != users[k].username;
      FindStoredUser(users[1..], k - 1);
    }
  }

  /** Appending a user with a new username makes the lookup of that
      username find it, and leaves every other lookup as it was. */
  lemma {:induction false} FindAfterAppend(users: seq<User>, u: User, username: string)
    requires FindByUsername(users, u.username).None?
    ensures FindByUsername(users + [u], username) ==
      if username == u.username then Some(u) else FindByUsername(users, username)
    decreases |users|
  {
    if users == [] {
      assert users + [u] == [u];
    } else {
      assert (users + [u])[1..] == users[1..] + [u];
      FindAfterAppend(users[1..], u, username);
    }
  }

  /** The user table. */
  class UserStore {
    var users: seq<User>

    /** Usernames and ids are unique across the table. */
    ghost predicate Valid()
      reads this
    {
      UniqueUsernames(users) && UniqueIds(users)
    }

    constructor ()
      ensures Valid() && users == []
    {
      users := [];
    }

    /** register: rejects a username that is already taken, leaving the
        table as it was; otherwise saves one new user whose `pwdHash` is the
        password as given. `id` is the key the store generates. */
    method Register(username: string, password: string, id: string) returns (r: Result<User, string>)
      requires Valid()
      requires FindById(users, id).None?
      modifies this
      ensures Valid()
      ensures FindByUsername(old(users), username).Some? ==>
                r == Failure(UsernameTaken) && users == old(users)
      ensures FindByUsername(old(users), username).None? ==>
                r == Success(User(id, username, password)) && users == old(users) + [r.value]
    {
      var existing := FindByUsername(users, username);
      if existing.Some? {
        return Failure(UsernameTaken);
      }
      var newUser := User(id, username, password);
      users := users + [newUser];
      r := Success(newUser);
    }
  }

  /** Registering the same username twice: the first call saves the user,
      the second is rejected, and the table holds exactly the one user. */
  method RegisterTwice(store: UserStore, username: string, p1: string, p2: string, id1: string, id2: string)
    returns (first: Result<User, string>, second: Result<User, string>)
    requires store.Valid()
    requires FindByUsername(store.users, username).None?
    requires FindById(store.users, id1).None? && FindById(store.users, id2).None? && id1 != id2
    modifies store
    ensures store.Valid()
    ensures first == Success(User(id1, username, p1))
    ensures second == Failure(UsernameTaken)
    ensures store.users == old(store.users) + [User(id1, username, p1)]
  {
    first := store.Register(username, p1, id1);
    FindAfterAppend(old(store.users), first.value, username);
    assert FindById(store.users, id2).None? by {
      assert forall u :: u in store.users ==> u in old(store.users) || u == first.value;
    }
    second := store.Register(username, p2, id2);
  }
}
