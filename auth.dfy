/**
 * The user directory and the session (src/lib/auth.ts): a seeded list of users under
 * the `users` key and a snapshot of the signed-in user under `currentUser`.
 */
module Auth {
  import opened Types
  import opened Storage

  /** The account `getUsers` seeds when no directory is stored. */
  const AdminUser: User := User("admin", "Admin User", "admin@example.com", Some("admin"), true)

  /** The messages the source shows with `alert`. */
  datatype Notice = DuplicateEmail | InvalidCredentials | UserNotFound | AccessDenied

  /** What `getUsers` returns for a storage state. */
  function Directory(m: map<string, Entry>): seq<User>
    requires WellFormed(m)
  {
    if UsersKey in m then m[UsersKey].users else [AdminUser]
  }

  /** The storage state after `getUsers`: the seed is written only when no directory is stored. */
  function Seeded(m: map<string, Entry>): map<string, Entry>
    requires WellFormed(m)
  {
    if UsersKey in m then m else m[UsersKey := UserList([AdminUser])]
  }

  /** `getCurrentUser()`: the stored session snapshot, if any. */
  function Session(m: map<string, Entry>): (r: Option<User>)
    requires WellFormed(m)
    ensures r.None? <==> CurrentUserKey !in m
    ensures r.Some? ==> m[CurrentUserKey] == UserRecord(r.value)
  {
    if CurrentUserKey in m then Some(m[CurrentUserKey].user) else None
  }

  /** The three lookups the source performs with `find` and `findIndex`. */
  datatype Criterion = ByEmail(email: string) | ByCredentials(email: string, password: string) | ById(id: string)

  predicate Meets(u: User, c: Criterion) {
    match c
    case ByEmail(e) => u.email == e
    case ByCredentials(e, p) => u.email == e && u.password == Some(p)
    case ById(id) => u.id == id
  }

  /** `users.findIndex(...)`: the first index that meets c, or -1. */
  function FindIndex(users: seq<User>, c: Criterion): (i: int)
    ensures -1 <= i < |users|
    ensures i == -1 <==> forall j :: 0 <= j < |users| ==> !Meets(users[j], c)
    ensures 0 <= i ==> Meets(users[i], c) && forall j :: 0 <= j < i ==> !Meets(users[j], c)
  {
    if users == [] then -1
    else if Meets(users[0], c) then 0
    else
      var j := FindIndex(users[1..], c);
      if j == -1 then -1 else j + 1
  }

  /** `users.find(...)`: the first user that meets c. */
  function Find(users: seq<User>, c: Criterion): (r: Option<User>)
    ensures r.None? <==> forall j :: 0 <= j < |users| ==> !Meets(users[j], c)
    ensures r.Some? ==> r.value == users[FindIndex(users, c)]
  {
    var i := FindIndex(users, c);
    if i < 0 then None else Some(users[i])
  }

  predicate EmailTaken(users: seq<User>, email: string) {
    exists j :: 0 <= j < |users| && users[j].email == email
  }

  predicate UniqueEmails(users: seq<User>) {
    forall i, j :: 0 <= i < j < |users| ==> users[i].email != users[j].email
  }

  predicate IdFresh(users: seq<User>, id: string) {
    forall j :: 0 <= j < |users| ==> users[j].id != id
  }

  /** `getUsers()`: read the directory, seeding the default admin if none is stored. */
  method GetUsers(store: Store) returns (users: seq<User>)
    requires store.Valid()
    modifies store
    ensures store.Valid()
    ensures users == Directory(old(store.entries))
    ensures store.entries == Seeded(old(store.entries))
    ensures UsersKey in old(store.entries) ==> store.entries == old(store.entries)
    ensures UsersKey !in old(store.entries) ==> users == [AdminUser]
  {
    if UsersKey in store.entries {
      users := store.entries[UsersKey].users;
    } else {
      users := [AdminUser];
      store.SetItem(UsersKey, UserList(users));
    }
  }

  /** `saveUsers(users)`: overwrite the whole directory. */
  method SaveUsers(store: Store, users: seq<User>)
    requires store.Valid()
    modifies store
    ensures store.Valid()
    ensures store.entries == old(store.entries)[UsersKey := UserList(users)]
    ensures Directory(store.entries) == users
  {
    store.SetItem(UsersKey, UserList(users));
  }

  /**
   * `signup`: refuse a registered email, otherwise append a fresh non-admin user.
   * The id comes from `crypto.randomUUID()`, modelled as an unused id given by the caller.
   * No session is established.
   */
  method Signup(store: Store, name: string, email: string, password: string, freshId: string)
    returns (r: Option<User>, notice: Option<Notice>)
    requires store.Valid()
    requires IdFresh(Directory(store.entries), freshId)
    modifies store
    ensures store.Valid()
    ensures notice.Some? <==> r.None?
    ensures Session(store.entries) == Session(old(store.entries))
    ensures EmailTaken(Directory(old(store.entries)), email) ==>
      r == None && notice == Some(DuplicateEmail) && store.entries == Seeded(old(store.entries))
    ensures !EmailTaken(Directory(old(store.entries)), email) ==>
      && r == Some(User(freshId, name, email, Some(password), false))
      && store.entries == old(store.entries)[UsersKey := UserList(Directory(old(store.entries)) + [r.value])]
  {
    var users := GetUsers(store);
    var existing := Find(users, ByEmail(email));
    if existing.Some? {
      return None, Some(DuplicateEmail);
    }
    var newUser := User(freshId, name, email, Some(password), false);
    users := users + [newUser];
    SaveUsers(store, users);
    r, notice := Some(newUser), None;
  }

  /** `login`: the first user with exactly this email and password becomes the session. */
  method Login(store: Store, email: string, password: string) returns (r: Option<User>, notice: Option<Notice>)
    requires store.Valid()
    modifies store
    ensures store.Valid()
    ensures notice.Some? <==> r.None?
    ensures r.Some? <==>
      exists j :: 0 <= j < |Directory(old(store.entries))| && Meets(Directory(old(store.entries))[j], ByCredentials(email, password))
    ensures r == Find(Directory(old(store.entries)), ByCredentials(email, password))
    ensures r.Some? ==> store.entries == Seeded(old(store.entries))[CurrentUserKey := UserRecord(r.value)]
    ensures r.None? ==> notice == Some(InvalidCredentials) && store.entries == Seeded(old(store.entries))
  {
    var users := GetUsers(store);
    r := Find(users, ByCredentials(email, password));
    if r.Some? {
      FixedKeysOutsideFamilies();
      store.SetItem(CurrentUserKey, UserRecord(r.value));
      notice := None;
    } else {
      notice := Some(InvalidCredentials);
    }
  }

  /** `logout`: drop the session and send the browser to the login page. */
  method Logout(store: Store) returns (redirect: string)
    requires store.Valid()
    modifies store
    ensures store.Valid()
    ensures store.entries == old(store.entries) - {CurrentUserKey}
    ensures Session(store.entries) == None
    ensures Directory(store.entries) == Directory(old(store.entries))
    ensures redirect == "/login"
  {
    store.RemoveItem(CurrentUserKey);
    redirect := "/login";
  }

  /** The fields a profile update may carry; `None` means the field is absent. */
  datatype Patch = Patch(name: Option<string>, email: Option<string>, password: Option<string>)

  /** `{ ...user, ...data }`: the fields present in the patch win; id and isAdmin are kept. */
  function Merge(u: User, p: Patch): (r: User)
    ensures r.id == u.id && r.isAdmin == u.isAdmin
    ensures r.name == (if p.name.Some? then p.name.value else u.name)
    ensures r.email == (if p.email.Some? then p.email.value else u.email)
    ensures r.password == (if p.password.Some? then p.password else u.password)
    ensures p == Patch(None, None, None) ==> r == u
  {
    User(u.id, p.name.GetOr(u.name), p.email.GetOr(u.email),
         if p.password.Some? then p.password else u.password, u.isAdmin)
  }

  /**
   * `updateUser`: merge the patch into the user with this id, store the directory, and
   * refresh the session snapshot when it belongs to that user.
   */
  method UpdateUser(store: Store, userId: string, patch: Patch) returns (r: Option<User>, notice: Option<Notice>)
    requires store.Valid()
    modifies store
    ensures store.Valid()
    ensures notice.Some? <==> r.None?
    ensures FindIndex(Directory(old(store.entries)), ById(userId)) == -1 ==>
      r == None && notice == Some(UserNotFound) && store.entries == Seeded(old(store.entries))
    ensures
      var before := Directory(old(store.entries));
      var i := FindIndex(before, ById(userId));
      var session := Session(old(store.entries));
      0 <= i ==>
        && r == Some(Merge(before[i], patch))
        && Directory(store.entries) == before[i := r.value]
        && Session(store.entries) == (if session.Some? && session.value.id == userId then r else session)
        && store.entries ==
             (var m := old(store.entries)[UsersKey := UserList(before[i := r.value])];
              if session.Some? && session.value.id == userId then m[CurrentUserKey := UserRecord(r.value)] else m)
  {
    ghost var m0 := store.entries;
    var users := GetUsers(store);
    var i := FindIndex(users, ById(userId));
    if i == -1 {
      return None, Some(UserNotFound);
    }
    var updated := Merge(users[i], patch);
    users := users[i := updated];
    SaveUsers(store, users);
    assert store.entries == m0[UsersKey := UserList(users)];
    var current := Session(store.entries);
    assert current == Session(m0);
    if current.Some? && current.value.id == userId {
      FixedKeysOutsideFamilies();
      store.SetItem(CurrentUserKey, UserRecord(updated));
    }
    r, notice := Some(updated), None;
  }

  /** Seeding happens once: a second `getUsers` finds the stored list and writes nothing. */
  lemma SeedOnce(m: map<string, Entry>)
    requires WellFormed(m)
    ensures WellFormed(Seeded(m))
    ensures Seeded(Seeded(m)) == Seeded(m)
    ensures Directory(Seeded(m)) == Directory(m)
    ensures UsersKey !in m ==> Directory(m) == [AdminUser]
  {
  }

  /** Signing up with an unused email keeps the emails of the directory distinct. */
  lemma {:induction false} SignupKeepsEmailsUnique(users: seq<User>, u: User)
    requires UniqueEmails(users)
    requires !EmailTaken(users, u.email)
    ensures UniqueEmails(users + [u])
  {
    var r := users + [u];
    forall i, j | 0 <= i < j < |r|
      ensures r[i].email != r[j].email
    {
      if j == |users| {
        assert r[i] == users[i];
      }
    }
  }

  /** The account a sign-up appends can log in with the password it was created with. */
  lemma {:induction false} LoginAfterSignup(users: seq<User>, u: User, password: string)
    requires !EmailTaken(users, u.email)
    requires u.password == Some(password)
    ensures Find(users + [u], ByCredentials(u.email, password)) == Some(u)
  {
    var r := users + [u];
    var i := FindIndex(r, ByCredentials(u.email, password));
    assert Meets(r[|users|], ByCredentials(u.email, password));
    assert forall j :: 0 <= j < |users| ==> r[j] == users[j];
  }

  /**
   * In a directory with distinct emails, a profile update that sets a password makes that
   * password the one `login` accepts for the account.
   */
  lemma {:induction false} LoginAfterPasswordChange(users: seq<User>, i: int, p: Patch)
    requires UniqueEmails(users)
    requires 0 <= i < |users|
    requires p.email.None? && p.password.Some?
    ensures var after := users[i := Merge(users[i], p)];
      Find(after, ByCredentials(users[i].email, p.password.value)) == Some(after[i])
  {
    var after := users[i := Merge(users[i], p)];
    var c := ByCredentials(users[i].email, p.password.value);
    assert Meets(after[i], c);
    assert forall j :: 0 <= j < |after| && j != i ==> after[j] == users[j];
  }

  /** An update that leaves the email alone keeps the emails of the directory distinct. */
  lemma {:induction false} UpdateKeepsEmailsUnique(users: seq<User>, i: int, p: Patch)
    requires UniqueEmails(users)
    requires 0 <= i < |users|
    requires p.email.None?
    ensures UniqueEmails(users[i := Merge(users[i], p)])
  {
    var after := users[i := Merge(users[i], p)];
    forall a, b | 0 <= a < b < |after|
      ensures after[a].email != after[b].email
    {
      assert after[a].email == users[a].email && after[b].email == users[b].email;
    }
  }

  /** What `useRequireAuth` settles on: the user it holds, or where it sends the browser. */
  datatype AuthGate = AuthGate(user: Option<User>, redirect: Option<string>)

  /** `useRequireAuth(redirectTo)`: redirect exactly when nobody is signed in. */
  function RequireAuth(current: Option<User>, redirectTo: string): (g: AuthGate)
    ensures g.redirect.Some? <==> current.None?
    ensures g.redirect.Some? ==> g.redirect.value == redirectTo
    ensures g.user == current
  {
    if current.None? then AuthGate(None, Some(redirectTo)) else AuthGate(current, None)
  }

  /** What `useRequireAdmin` settles on. */
  datatype AdminGate = AdminGate(user: Option<User>, denied: bool, redirect: Option<string>)

  /**
   * `useRequireAdmin(redirectTo)`: built on `useRequireAuth()` (which sends a visitor to
   * "/login"); a signed-in non-admin gets the "Admins only" alert and is sent to
   * redirectTo. The hook still returns that user.
   */
  function RequireAdmin(current: Option<User>, redirectTo: string): (g: AdminGate)
    ensures g.denied <==> current.Some? && !current.value.isAdmin
    ensures current.None? ==> g.redirect == Some("/login")
    ensures g.denied ==> g.redirect == Some(redirectTo)
    ensures g.redirect.None? <==> current.Some? && current.value.isAdmin
    ensures g.user == current
  {
    var auth := RequireAuth(current, "/login");
    if auth.user.Some? && !auth.user.value.isAdmin then AdminGate(auth.user, true, Some(redirectTo))
    else AdminGate(auth.user, false, auth.redirect)
  }
}
