/** Authentication and the user registry (providers/auth-provider.tsx).
    The two storage entries the provider uses, "auth_user" (the signed-in
    user) and "registered_users" (the users created on this device), are the
    fields `storedUser` and `registered`; a missing entry is None. Clock
    readings (the creation timestamp, the millisecond count in new ids) are
    parameters. */
module Auth {
  import opened Options
  import opened CarTypes
  import opened Seqs

  /** The one password every account accepts. */
  const DemoPassword: string := "123456"

  /** The two built-in accounts; their creation time is the moment the
      module is loaded. */
  function DemoUsers(createdAt: string): (users: seq<User>)
    ensures |users| == 2 && users[0].role == Admin && users[1].role == Client
    ensures forall u :: u in users ==> IsDemoId(u.id)
    ensures UniqueEmails(users)
  {
    assert StartsWith("admin-1", "admin-") && StartsWith("client-1", "client-");
    [ User("admin-1", "Administrador VIP", "admin@viprentals.pt", "+351 912 345 678", Admin, createdAt, None),
      User("client-1", "João Silva", "joao@example.pt", "+351 963 789 012", Client, createdAt, None) ]
  }

  /** A user record without its id and creation time, as register and
      createUser receive it. */
  datatype UserData = UserData(
    name: string,
    email: string,
    phone: string,
    role: Role,
    paymentInfo: Option<PaymentInfo>)

  /** The fields updateUser is given; None is a field left out. */
  datatype UserPatch = UserPatch(
    id: Option<string>,
    name: Option<string>,
    email: Option<string>,
    phone: Option<string>,
    role: Option<Role>,
    createdAt: Option<string>,
    paymentInfo: Option<PaymentInfo>)

  function EmailIs(email: string): User -> bool
  {
    (u: User) => u.email == email
  }

  function UserIdIs(id: string): User -> bool
  {
    (u: User) => u.id == id
  }

  function UserIdIsNot(id: string): User -> bool
  {
    (u: User) => u.id != id
  }

  predicate EmailTaken(users: seq<User>, email: string)
  {
    exists u :: u in users && u.email == email
  }

  predicate UniqueEmails(users: seq<User>)
  {
    forall i, j :: 0 <= i < j < |users| ==> users[i].email != users[j].email
  }

  predicate StartsWith(s: string, prefix: string)
  {
    |prefix| <= |s| && s[..|prefix|] == prefix
  }

  /** The ids updateUser and deleteUser refuse: those of the built-in
      accounts' kind. */
  predicate IsDemoId(id: string)
  {
    StartsWith(id, "admin-") || StartsWith(id, "client-")
  }

  function DigitChar(d: int): char
    requires 0 <= d < 10
  {
    (('0' as int) + d) as char
  }

  /** The decimal numeral of n, as a template literal prints it. */
  function Decimal(n: nat): (s: string)
    ensures 1 <= |s|
    ensures |s| == 1 <==> n < 10
    ensures forall i :: 0 <= i < |s| ==> '0' <= s[i] <= '9'
    decreases n
  {
    if n < 10 then [DigitChar(n)] else Decimal(n / 10) + [DigitChar(n % 10)]
  }

  /** `user-${Date.now()}`: never the id of a built-in account's kind. */
  function NewUserId(now: nat): (id: string)
    ensures StartsWith(id, "user-")
    ensures !IsDemoId(id)
  {
    var id := "user-" + Decimal(now);
    assert id[0] == 'u';
    assert !StartsWith(id, "admin-") by { assert "admin-"[0] == 'a'; }
    assert !StartsWith(id, "client-") by { assert "client-"[0] == 'c'; }
    id
  }

  function NewUser(data: UserData, id: string, createdAt: string): User
  {
    User(id, data.name, data.email, data.phone, data.role, createdAt, data.paymentInfo)
  }

  /** `{ ...user, ...patch }`: each field given in the patch replaces the
      user's. */
  function Overlay(u: User, patch: UserPatch): (r: User)
    ensures patch.id.None? ==> r.id == u.id
    ensures patch.email.None? ==> r.email == u.email
    ensures patch.role.None? ==> r.role == u.role
    ensures patch.email.Some? ==> r.email == patch.email.value
  {
    User(
      patch.id.GetOr(u.id),
      patch.name.GetOr(u.name),
      patch.email.GetOr(u.email),
      patch.phone.GetOr(u.phone),
      patch.role.GetOr(u.role),
      patch.createdAt.GetOr(u.createdAt),
      if patch.paymentInfo.Some? then patch.paymentInfo else u.paymentInfo)
  }

  /** The account login signs in with: the first built-in account with the
      email, and only when there is none, the first registered one. */
  function LookupForLogin(demo: seq<User>, registered: Option<seq<User>>, email: string): (r: Option<User>)
    ensures r.Some? ==> r.value.email == email
    ensures r.Some? ==> r.value in demo || r.value in registered.GetOr([])
    ensures r.None? <==> !EmailTaken(demo, email) && !EmailTaken(registered.GetOr([]), email)
    ensures EmailTaken(demo, email) ==>
      r.Some? && exists k :: 0 <= k < |demo| && demo[k] == r.value && forall j :: 0 <= j < k ==> demo[j].email != email
    ensures !EmailTaken(demo, email) && r.Some? ==>
      var users := registered.GetOr([]);
      exists k :: 0 <= k < |users| && users[k] == r.value && forall j :: 0 <= j < k ==> users[j].email != email
  {
    var d := Find(demo, EmailIs(email));
    if d.Some? then d
    else if registered.Some? then Find(registered.value, EmailIs(email))
    else None
  }

  /** `registeredUsers.filter(u => u.id !== userId)`. */
  function RemoveUsers(users: seq<User>, userId: string): (r: seq<User>)
    ensures forall u :: u in r <==> u in users && u.id != userId
    ensures |r| <= |users|
  {
    FilterSound(users, UserIdIsNot(userId));
    Filter(users, UserIdIsNot(userId))
  }

  // ----------------------------------------------------------------- guards

  function IsAdmin(state: AuthState): bool
  {
    state.user.Some? && state.user.value.role == Admin
  }

  function IsClient(state: AuthState): bool
  {
    state.user.Some? && state.user.value.role == Client
  }

  datatype Guard = Guard(isAuthenticated: bool, isLoading: bool)

  function AdminGuard(state: AuthState): (g: Guard)
    ensures g.isAuthenticated <==> state.isAuthenticated && state.user.Some? && state.user.value.role == Admin
    ensures g.isLoading == state.isLoading
  {
    Guard(state.isAuthenticated && IsAdmin(state), state.isLoading)
  }

  function ClientGuard(state: AuthState): (g: Guard)
    ensures g.isAuthenticated <==> state.isAuthenticated && state.user.Some? && state.user.value.role == Client
    ensures g.isLoading == state.isLoading
  {
    Guard(state.isAuthenticated && IsClient(state), state.isLoading)
  }

  /** Card number, holder, expiry date and security code all non-empty; the
      bank fields play no part. */
  predicate HasPaymentMethod(info: Option<PaymentInfo>)
  {
    && info.Some?
    && info.value.cardNumber != ""
    && info.value.cardHolderName != ""
    && info.value.expiryDate != ""
    && info.value.cvv != ""
  }

  datatype PaymentGuard = PaymentGuard(
    isAuthenticated: bool,
    isClient: bool,
    hasPaymentMethod: bool,
    isLoading: bool,
    canRentCars: bool)

  function PaymentGuardOf(state: AuthState): (g: PaymentGuard)
    ensures g.canRentCars <==>
      && state.isAuthenticated
      && state.user.Some? && state.user.value.role == Client
      && HasPaymentMethod(state.user.value.paymentInfo)
    ensures g.hasPaymentMethod <==> state.user.Some? && HasPaymentMethod(state.user.value.paymentInfo)
    ensures g.hasPaymentMethod ==> state.user.value.paymentInfo.Some?
    ensures g.isClient <==> state.user.Some? && state.user.value.role == Client
    ensures g.isAuthenticated == state.isAuthenticated && g.isLoading == state.isLoading
    ensures g.canRentCars ==> ClientGuard(state).isAuthenticated && !AdminGuard(state).isAuthenticated
  {
    var has := state.user.Some? && HasPaymentMethod(state.user.value.paymentInfo);
    PaymentGuard(state.isAuthenticated, IsClient(state), has, state.isLoading,
                 state.isAuthenticated && IsClient(state) && has)
  }

  // ----------------------------------------------------------------- lemmas

  /** Ids made from different clock readings differ. */
  lemma {:induction false} DecimalInjective(n: nat, m: nat)
    requires Decimal(n) == Decimal(m)
    ensures n == m
    decreases n
  {
    var s := Decimal(n);
    assert (n < 10) == (m < 10);
    if 10 <= n {
      assert Decimal(n / 10) == s[..|s| - 1] == Decimal(m / 10);
      DecimalInjective(n / 10, m / 10);
      assert DigitChar(n % 10) == s[|s| - 1] == DigitChar(m % 10);
    } else {
      assert DigitChar(n) == s[0] == DigitChar(m);
    }
  }

  lemma NewUserIdInjective(now: nat, now': nat)
    requires NewUserId(now) == NewUserId(now')
    ensures now == now'
  {
    var a, b := NewUserId(now), NewUserId(now');
    assert Decimal(now) == a[5..] == b[5..] == Decimal(now');
    DecimalInjective(now, now');
  }

  /** The two built-in emails always sign in to the built-in accounts,
      whatever has been registered. */
  lemma DemoEmailsResolveToDemoUsers(createdAt: string, registered: Option<seq<User>>)
    ensures LookupForLogin(DemoUsers(createdAt), registered, "admin@viprentals.pt") == Some(DemoUsers(createdAt)[0])
    ensures LookupForLogin(DemoUsers(createdAt), registered, "joao@example.pt") == Some(DemoUsers(createdAt)[1])
  {
    var demo := DemoUsers(createdAt);
    assert IndexWhere(demo, EmailIs("admin@viprentals.pt")) == 0;
    assert demo[0].email != "joao@example.pt";
    assert IndexWhere(demo, EmailIs("joao@example.pt")) == 1;
  }

  /** A user appended under an email nobody had is the one login finds. */
  lemma RegisteredUserCanLogin(demo: seq<User>, registered: seq<User>, u: User)
    requires !EmailTaken(demo, u.email)
    requires !EmailTaken(registered, u.email)
    ensures LookupForLogin(demo, Some(registered + [u]), u.email) == Some(u)
  {
    var all := registered + [u];
    forall j | 0 <= j < |registered| ensures !EmailIs(u.email)(all[j]) {
      assert all[j] == registered[j];
    }
    assert all[|registered|] == u;
    assert IndexWhere(all, EmailIs(u.email)) == |registered|;
  }

  /** Appending a user under an unused email keeps emails unique. */
  lemma AppendKeepsUniqueEmails(users: seq<User>, u: User)
    requires UniqueEmails(users)
    requires !EmailTaken(users, u.email)
    ensures UniqueEmails(users + [u])
  {
    var all := users + [u];
    forall i, j | 0 <= i < j < |all| ensures all[i].email != all[j].email {
      assert all[i] == users[i];
      if j < |users| {
        assert all[j] == users[j];
      } else {
        assert all[i] in users;
      }
    }
  }

  lemma {:induction false} RemoveUsersIdempotent(users: seq<User>, userId: string)
    ensures RemoveUsers(RemoveUsers(users, userId), userId) == RemoveUsers(users, userId)
  {
    var once := RemoveUsers(users, userId);
    forall i | 0 <= i < |once| ensures UserIdIsNot(userId)(once[i]) {
      assert once[i] in once;
    }
    FilterKeepsAll(once, UserIdIsNot(userId));
  }

  lemma {:induction false} RemoveAbsentUser(users: seq<User>, userId: string)
    requires forall i :: 0 <= i < |users| ==> users[i].id != userId
    ensures RemoveUsers(users, userId) == users
  {
    FilterKeepsAll(users, UserIdIsNot(userId));
  }

  lemma OverlayIdempotent(u: User, patch: UserPatch)
    ensures Overlay(Overlay(u, patch), patch) == Overlay(u, patch)
  {
  }

  /** Saving a complete card for a signed-in client is what lets them rent;
      an administrator never can. */
  lemma CompleteCardEnablesRenting(state: AuthState, info: PaymentInfo)
    requires state.isAuthenticated && state.user.Some? && state.user.value.role == Client
    requires info.cardNumber != "" && info.cardHolderName != "" && info.expiryDate != "" && info.cvv != ""
    ensures PaymentGuardOf(state.(user := Some(state.user.value.(paymentInfo := Some(info))))).canRentCars
  {
  }

  lemma AdminCannotRent(state: AuthState)
    requires IsAdmin(state)
    ensures !PaymentGuardOf(state).canRentCars
    ensures !ClientGuard(state).isAuthenticated
  {
  }

  // ---------------------------------------------------------------- provider

  class AuthProvider {
    /** When the module was loaded: the built-in accounts' creation time. */
    const demoCreatedAt: string
    var authState: AuthState
    /** The "auth_user" entry. */
    var storedUser: Option<User>
    /** The "registered_users" entry. */
    var registered: Option<seq<User>>

    /** The session shown is the session stored, once loading is over. */
    ghost predicate Valid()
      reads this
    {
      && (authState.isAuthenticated <==> authState.user.Some?)
      && (authState.isLoading ==> authState.user.None?)
      && (!authState.isLoading ==> authState.user == storedUser)
    }

    /** No two known accounts share an email. */
    ghost predicate EmailsUnique()
      reads this
    {
      UniqueEmails(DemoUsers(demoCreatedAt) + registered.GetOr([]))
    }

    constructor (demoCreatedAt: string, storedUser: Option<User>, registered: Option<seq<User>>)
      ensures this.demoCreatedAt == demoCreatedAt
      ensures this.storedUser == storedUser && this.registered == registered
      ensures authState == AuthState(None, false, true)
      ensures Valid()
    {
      this.demoCreatedAt := demoCreatedAt;
      this.storedUser := storedUser;
      this.registered := registered;
      authState := AuthState(None, false, true);
    }

    method LoadStoredUser()
      modifies this`authState
      ensures storedUser.Some? ==> authState == AuthState(storedUser, true, false)
      ensures storedUser.None? ==> authState == old(authState).(isLoading := false)
      ensures old(Valid()) ==> Valid()
    {
      if storedUser.Some? {
        authState := AuthState(storedUser, true, false);
      } else {
        authState := authState.(isLoading := false);
      }
    }

    method Login(email: string, password: string) returns (ok: bool)
      modifies this`authState, this`storedUser
      ensures var found := LookupForLogin(DemoUsers(demoCreatedAt), registered, email);
        && (ok <==> found.Some? && password == DemoPassword)
        && (ok ==> authState == AuthState(found, true, false) && storedUser == found)
        && (!ok ==> authState == old(authState) && storedUser == old(storedUser))
      ensures old(Valid()) ==> Valid()
    {
      var user := Find(DemoUsers(demoCreatedAt), EmailIs(email));
      if user.None? && registered.Some? {
        user := Find(registered.value, EmailIs(email));
      }
      if user.Some? && password == DemoPassword {
        storedUser := user;
        authState := AuthState(user, true, false);
        ok := true;
      } else {
        ok := false;
      }
    }

    method Logout()
      modifies this`authState, this`storedUser
      ensures authState == AuthState(None, false, false) && storedUser == None
      ensures Valid()
    {
      storedUser := None;
      authState := AuthState(None, false, false);
    }

    /** Stores the card on the signed-in user, and on their registry entry
        when there is one (the first with their id). */
    method UpdatePaymentInfo(paymentInfo: PaymentInfo) returns (ok: bool)
      modifies this`authState, this`storedUser, this`registered
      ensures ok <==> old(authState.user).Some?
      ensures !ok ==> authState == old(authState) && storedUser == old(storedUser) && registered == old(registered)
      ensures ok ==>
        var updated := old(authState.user).value.(paymentInfo := Some(paymentInfo));
        && authState == old(authState).(user := Some(updated))
        && storedUser == Some(updated)
        && registered == (
             if old(registered).Some? && IndexWhere(old(registered).value, UserIdIs(updated.id)) != -1
             then Some(old(registered).value[IndexWhere(old(registered).value, UserIdIs(updated.id)) := updated])
             else old(registered))
      ensures old(Valid()) ==> Valid()
    {
      if authState.user.None? {
        return false;
      }
      var updated := authState.user.value.(paymentInfo := Some(paymentInfo));
      storedUser := Some(updated);
      if registered.Some? {
        var users := registered.value;
        var index := IndexWhere(users, UserIdIs(updated.id));
        if index != -1 {
          registered := Some(users[index := updated]);
        }
      }
      authState := authState.(user := Some(updated));
      ok := true;
    }

    /** Refuses an email any built-in or registered account has; otherwise
        signs the new user in and appends them to the registry. */
    method Register(data: UserData, now: nat, createdAt: string) returns (ok: bool)
      modifies this`authState, this`storedUser, this`registered
      ensures ok <==> !EmailTaken(DemoUsers(demoCreatedAt), data.email) && !EmailTaken(old(registered).GetOr([]), data.email)
      ensures !ok ==> authState == old(authState) && storedUser == old(storedUser) && registered == old(registered)
      ensures ok ==>
        var u := NewUser(data, NewUserId(now), createdAt);
        && registered == Some(old(registered).GetOr([]) + [u])
        && storedUser == Some(u)
        && authState == AuthState(Some(u), true, false)
      ensures old(Valid()) ==> Valid()
      ensures old(EmailsUnique()) ==> EmailsUnique()
    {
      var existingDemoUser := Find(DemoUsers(demoCreatedAt), EmailIs(data.email));
      if existingDemoUser.Some? {
        return false;
      }
      if registered.Some? {
        var existingRegisteredUser := Find(registered.value, EmailIs(data.email));
        if existingRegisteredUser.Some? {
          return false;
        }
      }
      var newUser := NewUser(data, NewUserId(now), createdAt);
      storedUser := Some(newUser);
      AppendUnique(DemoUsers(demoCreatedAt), registered.GetOr([]), newUser);
      registered := Some(registered.GetOr([]) + [newUser]);
      authState := AuthState(Some(newUser), true, false);
      ok := true;
    }

    /** getAllUsers: fresh copies of the built-in accounts, stamped `now`,
        then the registry. */
    function GetAllUsers(now: string): (users: seq<User>)
      reads this
      ensures forall u :: u in users <==> u in DemoUsers(now) || u in registered.GetOr([])
      ensures |users| == 2 + |registered.GetOr([])|
      ensures users[..2] == DemoUsers(now) && users[2..] == registered.GetOr([])
    {
      DemoUsers(now) + registered.GetOr([])
    }

    /** Like Register, but against getAllUsers and without touching the
        session. */
    method CreateUser(data: UserData, now: nat, createdAt: string, listedAt: string) returns (ok: bool)
      modifies this`registered
      ensures ok <==> !EmailTaken(old(GetAllUsers(listedAt)), data.email)
      ensures !ok ==> registered == old(registered)
      ensures ok ==> registered == Some(old(registered).GetOr([]) + [NewUser(data, NewUserId(now), createdAt)])
      ensures old(EmailsUnique()) ==> EmailsUnique()
    {
      var allUsers := GetAllUsers(listedAt);
      var existingUser := Find(allUsers, EmailIs(data.email));
      if existingUser.Some? {
        return false;
      }
      var newUser := NewUser(data, NewUserId(now), createdAt);
      DemoEmailsIgnoreTime(demoCreatedAt, listedAt, data.email);
      forall u | u in DemoUsers(demoCreatedAt) ensures u.email != data.email {
        assert u in DemoUsers(demoCreatedAt) + registered.GetOr([]);
      }
      AppendUnique(DemoUsers(demoCreatedAt), registered.GetOr([]), newUser);
      registered := Some(registered.GetOr([]) + [newUser]);
      ok := true;
    }

    /** Refuses the built-in kinds of id and unknown ids; otherwise overlays
        the patch on the first registry entry with the id. */
    method UpdateUser(userId: string, patch: UserPatch) returns (ok: bool)
      modifies this`registered
      ensures var users := old(registered).GetOr([]);
        var index := IndexWhere(users, UserIdIs(userId));
        && (ok <==> !IsDemoId(userId) && index != -1)
        && (!ok ==> registered == old(registered))
        && (ok ==> registered == Some(users[index := Overlay(users[index], patch)]))
    {
      if IsDemoId(userId) {
        return false;
      }
      var users := registered.GetOr([]);
      var index := IndexWhere(users, UserIdIs(userId));
      if index == -1 {
        return false;
      }
      registered := Some(users[index := Overlay(users[index], patch)]);
      ok := true;
    }

    /** Refuses the built-in kinds of id; otherwise writes back the registry
        without every entry with the id (even when none had it). */
    method DeleteUser(userId: string) returns (ok: bool)
      modifies this`registered
      ensures ok <==> !IsDemoId(userId)
      ensures !ok ==> registered == old(registered)
      ensures ok ==> registered == Some(RemoveUsers(old(registered).GetOr([]), userId))
      ensures ok ==> forall u :: u in registered.value ==> u.id != userId
    {
      if IsDemoId(userId) {
        return false;
      }
      var users := registered.GetOr([]);
      registered := Some(RemoveUsers(users, userId));
      ok := true;
    }
  }

  /** The built-in emails do not depend on when the list is made. */
  lemma DemoEmailsIgnoreTime(t: string, now: string, email: string)
    ensures EmailTaken(DemoUsers(now), email) <==> EmailTaken(DemoUsers(t), email)
  {
    var demo := DemoUsers(t);
    assert DemoUsers(now)[0].email == demo[0].email;
    assert DemoUsers(now)[1].email == demo[1].email;
  }

  lemma AppendUnique(demo: seq<User>, registered: seq<User>, u: User)
    requires !EmailTaken(demo, u.email) && !EmailTaken(registered, u.email)
    ensures UniqueEmails(demo + registered) ==> UniqueEmails(demo + (registered + [u]))
  {
    assert demo + (registered + [u]) == (demo + registered) + [u];
    if UniqueEmails(demo + registered) {
      AppendKeepsUniqueEmails(demo + registered, u);
    }
  }
}
