/** The user registry of `src/services/userService.ts` over browser
    storage. Storage is a map from key to the value whose JSON text the
    service writes there; three kinds of key are used: the user list, the
    current user, and one data slot per user id. */
module UserService {

  import opened Collections
  import opened Domain

  datatype User = User(id: string, username: string, password: string, displayName: string, createdAt: string)

  /** A user's persisted data; `settings` is optional in the stored shape. */
  datatype UserData = UserData(transactions: seq<Transaction>, budgets: seq<Budget>, settings: Option<FinancialSettings>)

  /** The value stored under a key. */
  datatype Stored = UsersBlob(users: seq<User>) | UserBlob(user: User) | DataBlob(data: UserData)

  type Storage = map<string, Stored>

  const UsersKey: string := "finance_app_users"
  const CurrentUserKey: string := "finance_app_current_user"
  const UserDataPrefix: string := "finance_app_user_data_"

  /** The message `createUser` throws for a taken username ("username
      already exists"). */
  const DuplicateUsername: string := "שם משתמש כבר קיים"

  const EmptyUserData: UserData := UserData([], [], None)

  function DataKey(id: string): string
  {
    UserDataPrefix + id
  }

  /** The three kinds of key never collide, and data slots of different
      users are different keys. */
  lemma KeysDistinct(id: string, id': string)
    ensures DataKey(id) != UsersKey && DataKey(id) != CurrentUserKey && UsersKey != CurrentUserKey
    ensures DataKey(id) == DataKey(id') <==> id == id'
  {
    assert DataKey(id)[16] == '_' && UsersKey[16] == 's';
    assert DataKey(id)[12] == 'u' && CurrentUserKey[12] == 'c';
    if DataKey(id) == DataKey(id') {
      assert id == DataKey(id)[|UserDataPrefix|..];
      assert id' == DataKey(id')[|UserDataPrefix|..];
    }
  }

  // ---- the user list ----

  /** `getUsers`: the stored list, or none. */
  function GetUsers(s: Storage): (us: seq<User>)
    ensures UsersKey !in s ==> us == []
  {
    if UsersKey in s && s[UsersKey].UsersBlob? then s[UsersKey].users else []
  }

  /** `saveUsers`. */
  function SaveUsers(s: Storage, us: seq<User>): (r: Storage)
    ensures GetUsers(r) == us
    ensures forall k :: k != UsersKey ==> (k in r <==> k in s) && (k in s ==> r[k] == s[k])
  {
    s[UsersKey := UsersBlob(us)]
  }

  predicate UsernameTaken(us: seq<User>, name: string)
  {
    exists i :: 0 <= i < |us| && us[i].username == name
  }

  predicate UniqueUsernames(us: seq<User>)
  {
    forall i, j :: 0 <= i < j < |us| ==> us[i].username != us[j].username
  }

  // ---- the current user and the data slots ----

  /** `getCurrentUser`. */
  function GetCurrentUser(s: Storage): (r: Option<User>)
    ensures CurrentUserKey !in s ==> r == None
  {
    if CurrentUserKey in s && s[CurrentUserKey].UserBlob? then Some(s[CurrentUserKey].user) else None
  }

  /** `logout`: forgets the current user and nothing else. */
  function Logout(s: Storage): (r: Storage)
    ensures GetCurrentUser(r) == None
    ensures forall k :: k != CurrentUserKey ==> (k in r <==> k in s) && (k in s ==> r[k] == s[k])
  {
    s - {CurrentUserKey}
  }

  /** `getUserData`: the data saved for the user, or empty data when there
      is no slot. */
  function GetUserData(s: Storage, id: string): (d: UserData)
    ensures DataKey(id) !in s ==> d == EmptyUserData
  {
    var k := DataKey(id);
    if k in s && s[k].DataBlob? then s[k].data else EmptyUserData
  }

  /** `saveUserData`: replaces the user's slot and nothing else. */
  function SaveUserData(s: Storage, id: string, d: UserData): (r: Storage)
    ensures GetUserData(r, id) == d
    ensures GetUsers(r) == GetUsers(s)
    ensures GetCurrentUser(r) == GetCurrentUser(s)
    ensures forall id' :: id' != id ==> GetUserData(r, id') == GetUserData(s, id')
  {
    KeysDistinct(id, id);
    assert forall id' :: id' != id ==> DataKey(id') != DataKey(id) by {
      forall id' | id' != id ensures DataKey(id') != DataKey(id) {
        KeysDistinct(id', id);
      }
    }
    s[DataKey(id) := DataBlob(d)]
  }

  // ---- registration and login ----

  /** `createUser`: throws for a taken username; otherwise appends the new
      user and gives them an empty data slot. `newId` and `now` stand for
      the generated id and the creation time. */
  function CreateUser(s: Storage, username: string, password: string, displayName: string,
                      newId: string, now: string): (r: Result<(Storage, User)>)
    ensures r.Err? <==> UsernameTaken(GetUsers(s), username)
    ensures r.Err? ==> r.error == DuplicateUsername
    ensures r.Ok? ==>
              var (s', u) := r.value;
              && u == User(newId, username, password, displayName, now)
              && GetUsers(s') == GetUsers(s) + [u]
              && GetUserData(s', newId) == EmptyUserData
              && GetCurrentUser(s') == GetCurrentUser(s)
              && forall id' :: id' != newId ==> GetUserData(s', id') == GetUserData(s, id')
  {
    var users := GetUsers(s);
    if exists i :: 0 <= i < |users| && users[i].username == username then Err(DuplicateUsername)
    else
      var u := User(newId, username, password, displayName, now);
      var s1 := SaveUsers(s, users + [u]);
      KeysDistinct(newId, newId);
      assert GetCurrentUser(s1) == GetCurrentUser(s);
      assert forall id' :: GetUserData(s1, id') == GetUserData(s, id') by {
        forall id' ensures GetUserData(s1, id') == GetUserData(s, id') {
          KeysDistinct(id', id');
        }
      }
      Ok((SaveUserData(s1, newId, EmptyUserData), u))
  }

  /** Registration keeps usernames unique. */
  lemma CreateUserKeepsUnique(s: Storage, username: string, password: string, displayName: string,
                              newId: string, now: string)
    requires UniqueUsernames(GetUsers(s))
    ensures var r := CreateUser(s, username, password, displayName, newId, now);
            r.Ok? ==> UniqueUsernames(GetUsers(r.value.0))
  {
    var r := CreateUser(s, username, password, displayName, newId, now);
    if r.Ok? {
      var us := GetUsers(s);
      var us' := GetUsers(r.value.0);
      forall i, j | 0 <= i < j < |us'| ensures us'[i].username != us'[j].username {
        if j == |us| {
          assert us'[i] == us[i];
          assert !UsernameTaken(us, username);
        } else {
          assert us'[i] == us[i] && us'[j] == us[j];
        }
      }
    }
  }

  /** The first user with the given username and password. */
  function FindLogin(us: seq<User>, username: string, password: string): (r: Option<nat>)
    ensures r.None? <==> forall i :: 0 <= i < |us| ==> !(us[i].username == username && us[i].password == password)
    ensures r.Some? ==> r.value < |us| && us[r.value].username == username && us[r.value].password == password
                        && forall j :: 0 <= j < r.value ==> !(us[j].username == username && us[j].password == password)
  {
    if |us| == 0 then None
    else if us[0].username == username && us[0].password == password then Some(0)
    else
      match FindLogin(us[1..], username, password)
      case None => None
      case Some(i) =>
        assert forall j :: 1 <= j <= i ==> us[j] == us[1..][j - 1];
        Some(i + 1)
  }

  /** `login`: the first user matching both credentials becomes current;
      when there is none, storage is unchanged and the result is null. */
  function Login(s: Storage, username: string, password: string): (r: (Storage, Option<User>))
    ensures r.1.None? ==> r.0 == s
    ensures r.1.None? <==> forall i :: 0 <= i < |GetUsers(s)| ==>
              !(GetUsers(s)[i].username == username && GetUsers(s)[i].password == password)
    ensures r.1.Some? ==>
              && r.1.value.username == username && r.1.value.password == password
              && r.1.value in GetUsers(s)
              && GetCurrentUser(r.0) == r.1
              && GetUsers(r.0) == GetUsers(s)
              && forall id :: GetUserData(r.0, id) == GetUserData(s, id)
    ensures r.1.Some? ==> var k := FindLogin(GetUsers(s), username, password);
                          k.Some? && r.1.value == GetUsers(s)[k.value]
  {
    var users := GetUsers(s);
    match FindLogin(users, username, password)
    case None => (s, None)
    case Some(i) =>
      var s' := s[CurrentUserKey := UserBlob(users[i])];
      assert forall id :: GetUserData(s', id) == GetUserData(s, id) by {
        forall id ensures GetUserData(s', id) == GetUserData(s, id) {
          KeysDistinct(id, id);
        }
      }
      (s', Some(users[i]))
  }

  /** A freshly registered user can log in with the same credentials and is
      the one who becomes current. */
  lemma LoginAfterCreate(s: Storage, username: string, password: string, displayName: string,
                         newId: string, now: string)
    requires UniqueUsernames(GetUsers(s))
    requires CreateUser(s, username, password, displayName, newId, now).Ok?
    ensures var (s', u) := CreateUser(s, username, password, displayName, newId, now).value;
            Login(s', username, password).1 == Some(u)
  {
    var (s', u) := CreateUser(s, username, password, displayName, newId, now).value;
    var us := GetUsers(s);
    var us' := GetUsers(s');
    assert us'[|us|] == u;
    forall i | 0 <= i < |us| ensures us'[i].username != username {
      assert us'[i] == us[i];
      assert !UsernameTaken(us, username);
    }
  }

  // ---- deletion ----

  function NotId(id: string): User -> bool
  {
    (u: User) => u.id != id
  }

  /** `deleteUser`: drops the user from the list and their data slot, and
      logs out when they were the current user. */
  function DeleteUser(s: Storage, id: string): (r: Storage)
    ensures GetUsers(r) == Filter(GetUsers(s), NotId(id))
    ensures forall i :: 0 <= i < |GetUsers(r)| ==> GetUsers(r)[i].id != id
    ensures GetUserData(r, id) == EmptyUserData
    ensures forall id' :: id' != id ==> GetUserData(r, id') == GetUserData(s, id')
    ensures GetCurrentUser(s).Some? && GetCurrentUser(s).value.id == id ==> GetCurrentUser(r) == None
    ensures !(GetCurrentUser(s).Some? && GetCurrentUser(s).value.id == id) ==> GetCurrentUser(r) == GetCurrentUser(s)
  {
    var s2 := SaveUsers(s, Filter(GetUsers(s), NotId(id))) - {DataKey(id)};
    DropUserAndSlot(s, id);
    LogoutKeepsLists(s2);
    var cur := GetCurrentUser(s2);
    if cur.Some? && cur.value.id == id then Logout(s2) else s2
  }

  /** The first two steps of `deleteUser`: the filtered list is saved and
      the user's slot removed; the current user and the other slots stay. */
  lemma DropUserAndSlot(s: Storage, id: string)
    ensures var s2 := SaveUsers(s, Filter(GetUsers(s), NotId(id))) - {DataKey(id)};
            && GetUsers(s2) == Filter(GetUsers(s), NotId(id))
            && GetCurrentUser(s2) == GetCurrentUser(s)
            && GetUserData(s2, id) == EmptyUserData
            && forall id' :: id' != id ==> GetUserData(s2, id') == GetUserData(s, id')
  {
    var s1 := SaveUsers(s, Filter(GetUsers(s), NotId(id)));
    var s2 := s1 - {DataKey(id)};
    KeysDistinct(id, id);
    assert GetUsers(s2) == GetUsers(s1);
    assert GetCurrentUser(s2) == GetCurrentUser(s);
    forall id' | id' != id ensures GetUserData(s2, id') == GetUserData(s, id') {
      KeysDistinct(id', id);
    }
  }

  /** Logging out leaves the user list and every data slot as they were. */
  lemma LogoutKeepsLists(s: Storage)
    ensures GetUsers(Logout(s)) == GetUsers(s)
    ensures forall id :: GetUserData(Logout(s), id) == GetUserData(s, id)
  {
    forall id ensures GetUserData(Logout(s), id) == GetUserData(s, id) {
      KeysDistinct(id, id);
    }
  }

  /** Deleting a user keeps the remaining usernames unique. */
  lemma DeleteUserKeepsUnique(s: Storage, id: string)
    requires UniqueUsernames(GetUsers(s))
    ensures UniqueUsernames(GetUsers(DeleteUser(s, id)))
  {
    SubseqUnique(Filter(GetUsers(s), NotId(id)), GetUsers(s));
  }

  lemma {:induction false} SubseqUnique(a: seq<User>, b: seq<User>)
    requires SubseqOf(a, b) && UniqueUsernames(b)
    ensures UniqueUsernames(a)
    decreases |b|
  {
    if |a| > 0 && |b| > 0 {
      var b' := b[..|b|-1];
      assert UniqueUsernames(b') by {
        forall i, j | 0 <= i < j < |b'| ensures b'[i].username != b'[j].username {
          assert b'[i] == b[i] && b'[j] == b[j];
        }
      }
      if a[|a|-1] == b[|b|-1] && SubseqOf(a[..|a|-1], b') {
        var a' := a[..|a|-1];
        SubseqUnique(a', b');
        SubseqMembers(a', b');
        forall i, j | 0 <= i < j < |a| ensures a[i].username != a[j].username {
          if j == |a| - 1 {
            assert a[i] == a'[i];
            var k :| 0 <= k < |b'| && b'[k] == a'[i];
            assert b[k] == a[i] && b[|b|-1] == a[j];
          } else {
            assert a[i] == a'[i] && a[j] == a'[j];
          }
        }
      } else {
        SubseqUnique(a, b');
      }
    }
  }
}
