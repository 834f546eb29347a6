/**
  The user service: sign-up, the New-to-Verified lifecycle, log-in checking and the
  default admin account. The user table is an in-memory map from user name to row that
  may be down; the role table, the clock, the ULID, the random source and bcrypt are
  oracles gathered in `Env`. A service call that fills or changes the caller's `*User`
  returns that user value alongside the new table.
 */
module Users {
  import opened Wrappers
  import opened UserUtil

  datatype User = User(
    id: string, userName: string, firstName: string, lastName: string, password: string, salt: string,
    email: string, status: string, mobile: string, role: string, createdAt: int, modifiedAt: int)

  /** `&User{UserName: name}`: every other field is its zero value. */
  function Named(name: string): (u: User)
    ensures u.userName == name && u.status == "" && u.password == "" && u.id == ""
  {
    User("", name, "", "", "", "", "", "", "", "", 0, 0)
  }

  const StatusNew: string := "New"
  const StatusVerified: string := "Verified"

  const RecordNotFound: string := "record not found"
  const SignupRefused: string := "cannot complete signup process"
  const UsernameRequired: string := "username is required"
  const ErrPasswordNotMatch: string := "password not valid"
  const ErrUserAlreadyVerified: string := "user already verified"
  const ErrUserNotVerified: string := "user is not verified yet"

  /** The user table by user name; `down` is a failure of the database itself. */
  datatype Store = Store(users: map<string, User>, down: Option<string>)

  /** What a lookup by user name finds. */
  datatype Row = Found(user: User) | NotFound | DbFailed(error: string)

  function Lookup(s: Store, name: string): (r: Row)
    ensures s.down.Some? ==> r == DbFailed(s.down.value)
    ensures s.down.None? && name !in s.users ==> r == NotFound
    ensures s.down.None? && name in s.users ==> r == Found(s.users[name])
  {
    if s.down.Some? then DbFailed(s.down.value)
    else if name !in s.users then NotFound
    else Found(s.users[name])
  }

  function RowError(r: Row): string
    requires !r.Found?
  {
    if r.NotFound? then RecordNotFound else r.error
  }

  /** `repo.AddUser`, a save keyed by user name. */
  function Save(s: Store, u: User): (r: Result<Store, string>)
    ensures s.down.Some? ==> r == Err(s.down.value)
    ensures s.down.None? ==> r == Ok(s.(users := s.users[u.userName := u]))
  {
    if s.down.Some? then Err(s.down.value) else Ok(s.(users := s.users[u.userName := u]))
  }

  /**
    The service's collaborators: the role table, the clock, the ULID minted for `now`,
    the 16 random bytes of a salt (None when the source fails) and bcrypt.
   */
  datatype Env = Env(
    roles: string -> Result<string, string>, now: int, ulid: string,
    random: Option<seq<uint8>>, bcrypt: string -> Option<string>)

  predicate ValidEnv(env: Env) {
    env.random.Some? ==> |env.random.value| == 16
  }

  /** The service's answer: the caller's user as left by the call, the table, the error. */
  datatype Reply = Reply(user: User, store: Store, err: Option<string>)

  /**
    `AddUser`: an existing user name is refused, the caller's user being filled from the
    stored row. Otherwise the user becomes New with the viewer role, a fresh id and salt,
    and the hash of the salted password in place of the password, and is saved. A hash
    failure empties the password before the error returns.
   */
  function AddUser(u: User, s: Store, env: Env): (r: Reply)
    requires ValidEnv(env)
    ensures r.err.None? <==> (s.down.None? && u.userName !in s.users && env.roles("viewer").Ok?
                              && env.random.Some? && env.bcrypt(u.password + Encode(env.random.value)).Some?)
    ensures s.down.None? && u.userName !in s.users && env.roles("viewer").Ok? && env.random.Some?
            && env.bcrypt(u.password + Encode(env.random.value)).None?
            ==> r.err == Some(HashError) && r.user.password == "" && r.store == s
  {
    var row := Lookup(s, u.userName);
    if row.Found? then Reply(row.user, s, Some(SignupRefused))
    else
      var u1 := u.(createdAt := env.now, modifiedAt := env.now, status := StatusNew);
      var role := env.roles("viewer");
      if role.Err? then Reply(u1, s, Some(role.error))
      else
        var u2 := u1.(role := role.value, id := env.ulid);
        var salt := GenerateSalt(env.random);
        if salt.Err? then Reply(u2, s, Some(salt.error))
        else
          var u3 := u2.(salt := salt.value);
          var hashed := HashPassword(u3.password, salt.value, env.bcrypt);
          var u4 := u3.(password := if hashed.Ok? then hashed.value else "");
          if hashed.Err? then Reply(u4, s, Some(hashed.error))
          else
            match Save(s, u4)
            case Err(e) => Reply(u4, s, Some(e))
            case Ok(s1) => Reply(u4, s1, None)
  }

  /** An existing user name is refused and nothing is stored. */
  lemma AddExistingRefused(u: User, s: Store, env: Env)
    requires ValidEnv(env) && s.down.None? && u.userName in s.users
    ensures AddUser(u, s, env) == Reply(s.users[u.userName], s, Some(SignupRefused))
  {
  }

  /** A failed sign-up stores nothing. */
  lemma AddFailureStoresNothing(u: User, s: Store, env: Env)
    requires ValidEnv(env) && AddUser(u, s, env).err.Some?
    ensures AddUser(u, s, env).store == s
  {
  }

  /**
    A successful sign-up stores exactly one new row under the user name: New, created and
    modified at the same instant, with the viewer role, the salt's Base64 and bcrypt of
    the password followed by the salt; the other fields are the caller's.
   */
  lemma AddCreatesNewUser(u: User, s: Store, env: Env)
    requires ValidEnv(env) && AddUser(u, s, env).err.None?
    ensures var r := AddUser(u, s, env);
      var n := r.user;
      u.userName !in s.users && s.down.None?
      && r.store == Store(s.users[u.userName := n], None)
      && n.status == StatusNew && n.createdAt == n.modifiedAt == env.now
      && env.roles("viewer").Ok? && n.role == env.roles("viewer").value && n.id == env.ulid
      && n.salt == Encode(env.random.value) && |n.salt| == 24
      && env.bcrypt(u.password + n.salt).Some? && n.password == env.bcrypt(u.password + n.salt).value
      && n.userName == u.userName && n.firstName == u.firstName && n.lastName == u.lastName
      && n.email == u.email && n.mobile == u.mobile
  {
    SaltShape(env.random.value);
  }

  /**
    `ValidateUser`: the stored row replaces the caller's user; a New user is refused
    before any password check; otherwise bcrypt compares the stored hash with the entered
    password followed by the stored salt.
   */
  function ValidateUser(u: User, s: Store, compare: (string, string) -> bool): (r: (User, Option<string>))
    ensures r.1.None? <==> (Lookup(s, u.userName).Found? && Lookup(s, u.userName).user.status != StatusNew
                            && compare(Lookup(s, u.userName).user.password, u.password + Lookup(s, u.userName).user.salt))
    ensures Lookup(s, u.userName).Found? && Lookup(s, u.userName).user.status != StatusNew
            && !compare(Lookup(s, u.userName).user.password, u.password + Lookup(s, u.userName).user.salt)
            ==> r.1 == Some(ErrPasswordNotMatch)
    ensures Lookup(s, u.userName).Found? ==> r.0 == Lookup(s, u.userName).user
    ensures !Lookup(s, u.userName).Found? ==> r == (u, Some(RowError(Lookup(s, u.userName))))
  {
    var entered := u.password;
    match Lookup(s, u.userName)
    case NotFound => (u, Some(RecordNotFound))
    case DbFailed(e) => (u, Some(e))
    case Found(stored) =>
      if stored.status == StatusNew then (stored, Some(ErrUserNotVerified))
      else if !compare(stored.password, entered + stored.salt) then (stored, Some(ErrPasswordNotMatch))
      else (stored, None)
  }

  /** A New user cannot log in, whatever the password. */
  lemma NewUserCannotLogIn(u: User, s: Store, compare: (string, string) -> bool)
    requires Lookup(s, u.userName).Found? && Lookup(s, u.userName).user.status == StatusNew
    ensures ValidateUser(u, s, compare).1 == Some(ErrUserNotVerified)
  {
  }

  /**
    `VerifyUser`: a Verified user is refused; otherwise the caller's user becomes Verified
    and the row with its user name is updated, if there is one.
   */
  function VerifyUser(u: User, s: Store): (r: Reply)
    ensures u.status == StatusVerified ==> r == Reply(u, s, Some(ErrUserAlreadyVerified))
    ensures u.status != StatusVerified ==> r.user == u.(status := StatusVerified)
    ensures r.err.None? <==> u.status != StatusVerified && s.down.None?
    ensures r.err.None? ==> (r.store.users.Keys == s.users.Keys
      && forall k :: k in s.users ==> r.store.users[k] == (if k == u.userName then s.users[k].(status := StatusVerified) else s.users[k]))
    ensures r.err.Some? ==> r.store == s
  {
    if u.status == StatusVerified then Reply(u, s, Some(ErrUserAlreadyVerified))
    else
      var v := u.(status := StatusVerified);
      if s.down.Some? then Reply(v, s, s.down)
      else if u.userName in s.users then
        Reply(v, s.(users := s.users[u.userName := s.users[u.userName].(status := StatusVerified)]), None)
      else Reply(v, s, None)
  }

  /**
    The lifecycle: a user signed up with a password cannot log in until verified, and can
    then log in with that password when bcrypt's comparison accepts its own hashes.
   */
  lemma SignUpVerifyLogIn(u: User, s: Store, env: Env, compare: (string, string) -> bool)
    requires ValidEnv(env) && AddUser(u, s, env).err.None?
    requires forall x :: env.bcrypt(x).Some? ==> compare(env.bcrypt(x).value, x)
    ensures var added := AddUser(u, s, env);
      ValidateUser(u, added.store, compare).1 == Some(ErrUserNotVerified)
      && var verified := VerifyUser(added.user, added.store);
      verified.err.None? && ValidateUser(u, verified.store, compare).1.None?
      && VerifyUser(verified.user, verified.store).err == Some(ErrUserAlreadyVerified)
  {
    AddCreatesNewUser(u, s, env);
    var added := AddUser(u, s, env);
    var verified := VerifyUser(added.user, added.store);
    assert verified.store.users[u.userName] == added.user.(status := StatusVerified);
  }

  /** `GetByUserName`: an empty name is refused without a lookup; otherwise the stored row. */
  function GetByUserName(name: string, s: Store): (r: Result<User, string>)
    ensures name == "" ==> r == Err(UsernameRequired)
    ensures name != "" && s.down.None? ==> (r.Ok? <==> name in s.users)
    ensures r.Ok? ==> name in s.users && r.value == s.users[name]
  {
    if name == "" then Err(UsernameRequired)
    else
      match Lookup(s, name)
      case Found(stored) => Ok(stored)
      case NotFound => Err(RecordNotFound)
      case DbFailed(e) => Err(e)
  }

  // ---------------------------------------------------------------------------
  // CreateDefaultAdminUser

  /** The regular expression `[^a-zA-Z0-9]` matches somewhere in `p`. */
  predicate HasSpecial(p: string) {
    exists i | 0 <= i < |p| :: !IsAlphanumeric(p[i])
  }

  /**
    The retry loop's outcome over the random sources of successive attempts: the first
    generation error, or the first generated password with a special character, or None
    when every attempt so far was retried.
   */
  function FirstUsable(draws: seq<nat -> Result<int, string>>, k: nat): (r: Option<Result<string, string>>)
    requires k <= |draws| && forall j :: 0 <= j < |draws| ==> ValidDraw(draws[j])
    ensures r.Some? && r.value.Ok? ==> HasSpecial(r.value.value) && |r.value.value| == 20
    decreases |draws| - k
  {
    if k == |draws| then None
    else
      var p := RandomPassword(20, draws[k]);
      if p.Err? || HasSpecial(p.value) then Some(p)
      else FirstUsable(draws, k + 1)
  }

  /** The default admin: first and last name "admin", already Verified. */
  function AdminDraft(env: Env): (u: User)
    ensures u.userName == "admin" && u.status == StatusVerified
  {
    Named("admin").(firstName := "admin", lastName := "admin", createdAt := env.now, modifiedAt := env.now,
                    status := StatusVerified)
  }

  /** The outcome of `CreateDefaultAdminUser`; `Retrying` is a loop still drawing passwords. */
  datatype AdminOutcome = AdminReply(store: Store, err: Option<string>) | Retrying

  /** Creation after a usable password `p` was generated. */
  function SaveAdmin(s: Store, env: Env, p: string): (r: AdminOutcome)
    requires ValidEnv(env)
    ensures r.AdminReply?
  {
    var u := AdminDraft(env);
    var role := env.roles("admin");
    if role.Err? then AdminReply(s, Some(role.error))
    else
      var salt := GenerateSalt(env.random);
      if salt.Err? then AdminReply(s, Some(salt.error))
      else
        var hashed := HashPassword(p, salt.value, env.bcrypt);
        if hashed.Err? then AdminReply(s, Some(hashed.error))
        else
          var admin := u.(role := role.value, id := env.ulid, salt := salt.value, password := hashed.value);
          match Save(s, admin)
          case Err(e) => AdminReply(s, Some(e))
          case Ok(s1) => AdminReply(s1, None)
  }

  function DefaultAdmin(s: Store, env: Env, draws: seq<nat -> Result<int, string>>): (r: AdminOutcome)
    requires ValidEnv(env) && forall k :: 0 <= k < |draws| ==> ValidDraw(draws[k])
  {
    match Lookup(s, "admin")
    case Found(_) => AdminReply(s, None)
    case DbFailed(e) => AdminReply(s, Some(e))
    case NotFound =>
      match FirstUsable(draws, 0)
      case None => Retrying
      case Some(p) => if p.Err? then AdminReply(s, Some(p.error)) else SaveAdmin(s, env, p.value)
  }

  /**
    `CreateDefaultAdminUser`, `draws` being the random sources of the successive
    password attempts.
   */
  method CreateDefaultAdminUser(s: Store, env: Env, draws: seq<nat -> Result<int, string>>) returns (r: AdminOutcome)
    requires ValidEnv(env) && forall k :: 0 <= k < |draws| ==> ValidDraw(draws[k])
    ensures r == DefaultAdmin(s, env, draws)
  {
    var row := Lookup(s, "admin");
    if row.Found? {
      return AdminReply(s, None);
    }
    if row.DbFailed? {
      return AdminReply(s, Some(row.error));
    }
    var k := 0;
    var generatedPassword := "";
    while true
      invariant 0 <= k <= |draws|
      invariant FirstUsable(draws, k) == FirstUsable(draws, 0)
      decreases |draws| - k
    {
      if k == |draws| {
        return Retrying;
      }
      var p := GenerateRandomPassword(20, draws[k]);
      if p.Err? {
        return AdminReply(s, Some(p.error));
      }
      generatedPassword := p.value;
      if HasSpecial(generatedPassword) {
        break;
      }
      k := k + 1;
    }
    r := SaveAdmin(s, env, generatedPassword);
  }

  /** An existing admin is left alone; a failing lookup creates nothing. */
  lemma AdminExistsNothingToDo(s: Store, env: Env, draws: seq<nat -> Result<int, string>>)
    requires ValidEnv(env) && forall k :: 0 <= k < |draws| ==> ValidDraw(draws[k])
    requires !Lookup(s, "admin").NotFound?
    ensures DefaultAdmin(s, env, draws).AdminReply? && DefaultAdmin(s, env, draws).store == s
    ensures DefaultAdmin(s, env, draws).err.None? <==> Lookup(s, "admin").Found?
  {
  }

  /**
    A created admin is Verified, and its stored password is bcrypt of a generated
    password of 20 characters from the character set, one of them special, followed by
    the salt.
   */
  lemma AdminPassword(s: Store, env: Env, draws: seq<nat -> Result<int, string>>)
    requires ValidEnv(env) && forall k :: 0 <= k < |draws| ==> ValidDraw(draws[k])
    requires DefaultAdmin(s, env, draws).AdminReply? && DefaultAdmin(s, env, draws).err.None?
    requires !Lookup(s, "admin").Found?
    ensures "admin" in DefaultAdmin(s, env, draws).store.users
    ensures var admin := DefaultAdmin(s, env, draws).store.users["admin"];
      admin.status == StatusVerified && admin.firstName == "admin" && admin.lastName == "admin"
      && exists p :: |p| == 20 && HasSpecial(p) && (forall i :: 0 <= i < 20 ==> p[i] in CharSet)
                     && env.bcrypt(p + admin.salt) == Some(admin.password)
  {
    var p := FirstUsable(draws, 0).value.value;
    var k := UsableIndex(draws, 0);
    PasswordFromCharSet(20, draws[k]);
    var admin := DefaultAdmin(s, env, draws).store.users["admin"];
    assert env.bcrypt(p + admin.salt) == Some(admin.password);
  }

  /** A usable password is the one drawn by some attempt. */
  lemma {:induction false} UsableIndex(draws: seq<nat -> Result<int, string>>, k: nat) returns (i: nat)
    requires k <= |draws| && forall j :: 0 <= j < |draws| ==> ValidDraw(draws[j])
    requires FirstUsable(draws, k).Some? && FirstUsable(draws, k).value.Ok?
    ensures i < |draws| && RandomPassword(20, draws[i]) == FirstUsable(draws, k).value
    decreases |draws| - k
  {
    var p := RandomPassword(20, draws[k]);
    if p.Err? || HasSpecial(p.value) {
      i := k;
    } else {
      i := UsableIndex(draws, k + 1);
    }
  }
}
