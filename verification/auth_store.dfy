/** The browser-local user store (src/pages/AuthContext.tsx): seeding, login,
    registration, profile updates and logout over the stored user list. */
module AuthStore {
  import opened Wrappers
  import opened Common

  datatype Academic = Academic(class10Percentage: string, class12Percentage: string, board: string,
                               branch: string, college: string, degree: string)

  /** A user record of the local store; `createdAt` is a timestamp. */
  datatype LocalUser = LocalUser(id: string, name: string, email: string, password: string,
                                 role: string, premium: bool, createdAt: int, academic: Academic)

  /** The provider's state: the stored 'users' list (empty when absent), the list held
      in memory, and the signed-in user. */
  datatype AuthState = AuthState(storage: seq<LocalUser>, allUsers: seq<LocalUser>, user: Option<LocalUser>)

  const ADMIN_EMAIL: string := "admin@example.com"
  const TEST_EMAIL: string := "user@example.com"

  function AdminUser(now: int): LocalUser {
    LocalUser("admin_001", "Admin", ADMIN_EMAIL, "admin123", ADMIN, true, now,
              Academic("0", "0", "Other", "Other", "Admin College", "Other"))
  }

  function TestUser(now: int): LocalUser {
    LocalUser("user_001", "Test User", TEST_EMAIL, "userpass", USER, false, now,
              Academic("85", "78", "CBSE", "Science", "Test University", "B.Tech"))
  }

  predicate HasAdmin(users: seq<LocalUser>) {
    exists i :: 0 <= i < |users| && users[i].role == ADMIN
  }

  predicate HasEmail(users: seq<LocalUser>, email: string) {
    exists i :: 0 <= i < |users| && users[i].email == email
  }

  /** initializeUsers: the default administrator is added when no user is an
      administrator, then the test user when no user has its email. */
  function Initialise(stored: seq<LocalUser>, now: int): (r: seq<LocalUser>)
    ensures HasAdmin(r) && HasEmail(r, TEST_EMAIL)
    ensures |stored| <= |r| <= |stored| + 2 && r[..|stored|] == stored
    ensures HasAdmin(stored) && HasEmail(stored, TEST_EMAIL) <==> r == stored
    ensures !HasAdmin(stored) ==> r[|stored|] == AdminUser(now)
    ensures |r| == |stored| + (if HasAdmin(stored) then 0 else 1) + (if HasEmail(stored, TEST_EMAIL) then 0 else 1)
    ensures !HasEmail(stored, TEST_EMAIL) ==> r[|r| - 1] == TestUser(now)
  {
    var withAdmin := if HasAdmin(stored) then stored else stored + [AdminUser(now)];
    assert withAdmin[..|stored|] == stored;
    assert !HasAdmin(stored) ==> withAdmin[|stored|].role == ADMIN;
    assert HasEmail(withAdmin, TEST_EMAIL) ==> HasEmail(stored, TEST_EMAIL) by {
      if HasEmail(withAdmin, TEST_EMAIL) {
        var i :| 0 <= i < |withAdmin| && withAdmin[i].email == TEST_EMAIL;
        assert ADMIN_EMAIL[0] != TEST_EMAIL[0];
        assert i < |stored| && stored[i] == withAdmin[i];
      }
    }
    var r := if HasEmail(withAdmin, TEST_EMAIL) then withAdmin else withAdmin + [TestUser(now)];
    assert r[..|withAdmin|] == withAdmin;
    assert !HasEmail(withAdmin, TEST_EMAIL) ==> r[|withAdmin|].email == TEST_EMAIL;
    assert HasEmail(withAdmin, TEST_EMAIL) && !HasEmail(stored, TEST_EMAIL) ==> withAdmin != stored;
    r
  }

  /** The state after the mount effect: storage and memory hold the seeded list. */
  function Mount(stored: seq<LocalUser>, now: int): (st: AuthState)
    ensures st.storage == st.allUsers == Initialise(stored, now) && st.user.None?
  {
    var users := Initialise(stored, now);
    AuthState(users, users, None)
  }

  /** Seeding twice adds nothing the second time. */
  lemma InitialiseIdempotent(stored: seq<LocalUser>, now: int, later: int)
    ensures Initialise(Initialise(stored, now), later) == Initialise(stored, now)
  {
  }

  /** Seeding checks roles, not emails, for the administrator: a stored ordinary user
      with the administrator's email gets a second account with the same email. */
  lemma SeedingCanDuplicateEmail(u: LocalUser, now: int)
    requires u.email == ADMIN_EMAIL && u.role == USER
    ensures var r := Initialise([u], now);
      r[0].email == r[1].email == ADMIN_EMAIL && r[0].role == USER && r[1].role == ADMIN
  {
  }

  /** `users.find(u => u.email === email)`: the first user with that email. */
  function FindByEmail(users: seq<LocalUser>, email: string): (r: Option<LocalUser>)
    ensures r.None? <==> !HasEmail(users, email)
    ensures r.Some? ==> r.value.email == email && r.value in users
    ensures r.Some? ==>
      exists i :: (0 <= i < |users| && users[i] == r.value && forall j :: 0 <= j < i ==> users[j].email != email)
  {
    if |users| == 0 then None
    else if users[0].email == email then Some(users[0])
    else
      var r := FindByEmail(users[1..], email);
      assert HasEmail(users[1..], email) ==> HasEmail(users, email) by {
        if HasEmail(users[1..], email) {
          var i :| 0 <= i < |users[1..]| && users[1..][i].email == email;
          assert users[i + 1].email == email;
        }
      }
      assert r.Some? ==>
        exists i :: (0 <= i < |users| && users[i] == r.value && forall j :: 0 <= j < i ==> users[j].email != email)
      by {
        if r.Some? {
          var i :| 0 <= i < |users[1..]| && users[1..][i] == r.value &&
            forall j :: 0 <= j < i ==> users[1..][j].email != email;
          assert users[i + 1] == r.value;
          forall j | 0 <= j < i + 1 ensures users[j].email != email {
            if j > 0 { assert users[j] == users[1..][j - 1]; }
          }
        }
      }
      r
  }

  /** With at most one user per email, the user found is the one with that email. */
  lemma FindUnique(users: seq<LocalUser>, k: nat)
    requires k < |users| && EmailsUnique(users)
    ensures FindByEmail(users, users[k].email) == Some(users[k])
  {
    var r := FindByEmail(users, users[k].email);
    var j :| 0 <= j < |users| && users[j] == r.value;
    assert j == k;
  }

  /** No two stored users share an email. */
  ghost predicate EmailsUnique(users: seq<LocalUser>) {
    forall i, j :: 0 <= i < j < |users| ==> users[i].email != users[j].email
  }

  /** login: an unknown email and a wrong password are refused with their messages;
      otherwise the stored user signs in. */
  function Login(st: AuthState, email: string, password: string): (r: Result<AuthState, string>)
    ensures !HasEmail(st.storage, email) ==> r == Err("User not found - please register first")
    ensures HasEmail(st.storage, email) && FindByEmail(st.storage, email).value.password != password ==>
      r == Err("Invalid credentials")
    ensures r.Ok? <==> HasEmail(st.storage, email) && FindByEmail(st.storage, email).value.password == password
    ensures r.Ok? ==>
      && r.value == st.(user := Some(FindByEmail(st.storage, email).value))
      && r.value.user.value.email == email && r.value.user.value.password == password
  {
    match FindByEmail(st.storage, email)
    case None => Err("User not found - please register first")
    case Some(found) =>
      if found.password != password then Err("Invalid credentials")
      else Ok(st.(user := Some(found)))
  }

  /** register: a taken email is refused and nothing changes; otherwise one ordinary,
      non-premium user is appended to the stored list and signed in. `newId` is the
      `user_<timestamp>` id. */
  function Register(st: AuthState, name: string, email: string, password: string, academic: Academic,
                    newId: string, now: int): (r: Result<AuthState, string>)
    ensures HasEmail(st.storage, email) <==> r == Err("Email already registered")
    ensures r.Ok? <==> !HasEmail(st.storage, email)
    ensures r.Ok? ==>
      var u := LocalUser(newId, name, email, password, USER, false, now, academic);
      r.value.storage == st.storage + [u] && r.value.allUsers == r.value.storage
      && r.value.user == Some(u)
  {
    if HasEmail(st.storage, email) then Err("Email already registered")
    else
      var u := LocalUser(newId, name, email, password, USER, false, now, academic);
      var users := st.storage + [u];
      Ok(AuthState(users, users, Some(u)))
  }

  /** Registration keeps emails unique. */
  lemma RegisterKeepsEmailsUnique(st: AuthState, name: string, email: string, password: string,
                                  academic: Academic, newId: string, now: int)
    requires EmailsUnique(st.storage)
    ensures var r := Register(st, name, email, password, academic, newId, now);
      r.Ok? ==> EmailsUnique(r.value.storage)
  {
  }

  /** Whoever registers can log in again with the same email and password. */
  lemma RegisterThenLogin(st: AuthState, name: string, email: string, password: string,
                          academic: Academic, newId: string, now: int)
    requires !HasEmail(st.storage, email)
    ensures var r := Register(st, name, email, password, academic, newId, now);
      r.Ok? && Login(r.value.(user := None), email, password).Ok?
      && Login(r.value.(user := None), email, password).value.user == r.value.user
  {
    var r := Register(st, name, email, password, academic, newId, now);
    var users := r.value.storage;
    assert users[|st.storage|].email == email;
    assert FindByEmail(users, email).Some?;
    FindLast(st.storage, users[|st.storage|]);
  }

  /** Appending a user with a fresh email makes it the one found by that email. */
  lemma {:induction false} FindLast(users: seq<LocalUser>, u: LocalUser)
    requires !HasEmail(users, u.email)
    ensures FindByEmail(users + [u], u.email) == Some(u)
  {
    if |users| == 0 {
      assert users + [u] == [u];
    } else {
      assert (users + [u])[1..] == users[1..] + [u];
      assert users[0].email != u.email;
      assert forall i :: 0 <= i < |users[1..]| ==> users[1..][i] == users[i + 1];
      FindLast(users[1..], u);
    }
  }

  /** updateUserData: the in-memory list is written to storage with the matching
      user replaced; the signed-in user changes only when it is that user. */
  function UpdateUserData(st: AuthState, updated: LocalUser): (r: AuthState)
    ensures |r.allUsers| == |st.allUsers| && r.storage == r.allUsers
    ensures forall i :: 0 <= i < |r.allUsers| ==>
      r.allUsers[i] == if st.allUsers[i].id == updated.id then updated else st.allUsers[i]
    ensures st.user.Some? && st.user.value.id == updated.id ==> r.user == Some(updated)
    ensures st.user.None? || st.user.value.id != updated.id ==> r.user == st.user
  {
    var users := seq(|st.allUsers|, i requires 0 <= i < |st.allUsers| =>
      if st.allUsers[i].id == updated.id then updated else st.allUsers[i]);
    var u := if st.user.Some? && st.user.value.id == updated.id then Some(updated) else st.user;
    AuthState(users, users, u)
  }

  /** Applying the same update twice has the effect of applying it once. */
  lemma UpdateUserDataIdempotent(st: AuthState, updated: LocalUser)
    ensures UpdateUserData(UpdateUserData(st, updated), updated) == UpdateUserData(st, updated)
  {
  }

  /** logout: only the signed-in user is cleared. */
  function Logout(st: AuthState): (r: AuthState)
    ensures r.user.None? && r.storage == st.storage && r.allUsers == st.allUsers
  {
    st.(user := None)
  }

  /** Logging out and back in with the stored credentials restores the session. */
  lemma LogoutThenLogin(st: AuthState, k: nat)
    requires k < |st.storage| && EmailsUnique(st.storage)
    ensures var r := Login(Logout(st), st.storage[k].email, st.storage[k].password);
      r.Ok? && r.value.user == Some(st.storage[k])
  {
    FindUnique(st.storage, k);
  }
}
