/**
 * Registration, login, e-mail verification and password change (auth.service.js).
 * Password hashing, the random verification token and token signing are inputs;
 * whether the verification mail goes out is a boolean input.
 */
module Auth {
  import opened Wrappers
  import opened Sums
  import opened Text
  import opened Db
  import opened AuthMiddleware

  /** The fields a registration form sends. */
  datatype Registration = Registration(
    fullName: string,
    email: string,
    password: string,
    phone: Option<string>,
    role: Option<string>,
    idNumber: Option<string>,
    kraPin: Option<string>,
    nokName: Option<string>,
    nokPhone: Option<string>,
    nokRelation: Option<string>)

  /** `email = $1 OR phone_number = $2`. A null phone compares as unknown, so it matches nobody. */
  predicate Clashes(u: User, email: string, phone: Option<string>) {
    u.email == email || (phone.Some? && u.phone == phone)
  }

  function ClashesWith(email: string, phone: Option<string>): User -> bool {
    (u: User) => Clashes(u, email, phone)
  }

  /** The row registerUser inserts: role `MEMBER` unless one is given, unverified, with the token,
      required to change the password, active. */
  function NewUser(users: seq<User>, f: Registration, hash: string, token: string): (u: User)
    ensures u.email == f.email && u.fullName == f.fullName && u.phone == f.phone
    ensures u.role == (if Truthy(f.role) then f.role.value else "MEMBER")
    ensures !u.isEmailVerified && u.verificationToken == Some(token) && u.mustChangePassword && u.isActive
    ensures u.passwordHash == hash
    ensures forall i :: 0 <= i < |users| ==> users[i].id != u.id
  {
    User(MaxId(users, UserKey) + 1, f.fullName, f.email, hash, f.phone, OrElse(f.role, "MEMBER"),
         f.idNumber, f.kraPin, None, f.nokName, f.nokPhone, f.nokRelation,
         false, Some(token), true, true)
  }

  /** registerUser as a function of the users table: the answer and the table afterwards. */
  function Register(users: seq<User>, f: Registration, hash: string, token: string, mailSent: bool): (out: (Result<User>, seq<User>))
    ensures out.0.Ok? <==> (forall i :: 0 <= i < |users| ==> !Clashes(users[i], f.email, f.phone)) && mailSent
    ensures (exists i :: 0 <= i < |users| && Clashes(users[i], f.email, f.phone)) ==> out.0 == Err(UserExists)
    ensures out.0.Err? ==> out.1 == users
    ensures out.0.Ok? ==> out.1 == users + [out.0.value] && out.0.value == NewUser(users, f, hash, token)
  {
    if FirstWhere(users, ClashesWith(f.email, f.phone)).Some? then (Err(UserExists), users)
    else if !mailSent then (Err(MailFailed), users)
    else (Ok(NewUser(users, f, hash, token)), users + [NewUser(users, f, hash, token)])
  }

  /** `registerUser`: the insert and the mail run in one transaction, so a failed mail leaves no user. */
  method RegisterUser(db: Database, f: Registration, hash: string, token: string, mailSent: bool) returns (r: Result<User>)
    modifies db`users
    ensures (r, db.users) == Register(old(db.users), f, hash, token, mailSent)
  {
    if FirstWhere(db.users, ClashesWith(f.email, f.phone)).Some? {
      return Err(UserExists);
    }
    var u := NewUser(db.users, f, hash, token);
    db.users := db.users + [u];
    if !mailSent {
      db.users := db.users[..|db.users| - 1];
      return Err(MailFailed);
    }
    return Ok(u);
  }

  /** A second registration with the same e-mail is refused, whatever else it carries. */
  lemma RegisterTwice(users: seq<User>, f: Registration, g: Registration, h1: string, t1: string, h2: string, t2: string)
    requires g.email == f.email
    ensures var (r1, users1) := Register(users, f, h1, t1, true);
      r1.Ok? ==> Register(users1, g, h2, t2, true) == (Err(UserExists), users1)
  {
    var (r1, users1) := Register(users, f, h1, t1, true);
    if r1.Ok? {
      assert Clashes(users1[|users|], g.email, g.phone);
    }
  }

  function EmailIs(email: string): User -> bool { (u: User) => u.email == email }

  /** The claims loginUser signs. */
  function ClaimsOf(u: User): Claims { Claims(u.id, u.role, u.fullName) }

  /** `loginUser(email, password)`: the first user with that e-mail, checked for verification,
      then activity, then the password; `check` is bcrypt.compare and `sign` is jwt.sign. */
  function Login(users: seq<User>, email: string, password: string,
                 check: (string, string) -> bool, sign: Claims -> string): (r: Result<(User, string)>)
    ensures (forall i :: 0 <= i < |users| ==> users[i].email != email) ==> r == Err(InvalidCredentials)
    ensures r.Ok? ==> r.value.0 in users && r.value.0.email == email
    ensures r.Ok? ==> r.value.0.isEmailVerified && r.value.0.isActive && check(password, r.value.0.passwordHash)
    ensures r.Ok? ==> r.value.1 == sign(ClaimsOf(r.value.0))
  {
    match FirstWhere(users, EmailIs(email))
    case None => Err(InvalidCredentials)
    case Some(i) =>
      var u := users[i];
      if !u.isEmailVerified then Err(EmailNotVerified)
      else if !u.isActive then Err(AccountDeactivated)
      else if !check(password, u.passwordHash) then Err(InvalidCredentials)
      else Ok((u, sign(ClaimsOf(u))))
  }

  /** The gates come in order: an unverified account is reported as such even when it is also
      inactive and the password is wrong, and an inactive one before a wrong password. */
  lemma LoginOrder(users: seq<User>, i: nat, password: string,
                   check: (string, string) -> bool, sign: Claims -> string)
    requires i < |users| && forall j :: 0 <= j < i ==> users[j].email != users[i].email
    ensures var u := users[i];
      var r := Login(users, u.email, password, check, sign);
      && (!u.isEmailVerified ==> r == Err(EmailNotVerified))
      && (u.isEmailVerified && !u.isActive ==> r == Err(AccountDeactivated))
      && (u.isEmailVerified && u.isActive && !check(password, u.passwordHash) ==> r == Err(InvalidCredentials))
      && (u.isEmailVerified && u.isActive && check(password, u.passwordHash) ==> r == Ok((u, sign(ClaimsOf(u)))))
  {
    assert FirstWhere(users, EmailIs(users[i].email)) == Some(i);
  }

  /** When verification accepts what signing produced, a login's token authenticates as that user. */
  lemma LoginThenAuthenticate(users: seq<User>, email: string, password: string,
                              check: (string, string) -> bool, sign: Claims -> string,
                              verify: string -> Option<Claims>)
    requires var r := Login(users, email, password, check, sign);
      r.Ok? && r.value.1 != "" && verify(r.value.1) == Some(ClaimsOf(r.value.0))
    ensures var r := Login(users, email, password, check, sign);
      Authenticate(Some(r.value.1), None, verify) == Next(ClaimsOf(r.value.0))
  {
  }

  function TokenIs(token: string): User -> bool { (u: User) => u.verificationToken == Some(token) }
  function MarkVerified(u: User): User { u.(isEmailVerified := true, verificationToken := None) }

  /** `verifyEmail(token)`: every user holding the token is verified and loses it;
      the answer is the first such user, or an error when there is none. */
  method VerifyEmail(db: Database, token: string) returns (r: Result<User>)
    modifies db`users
    ensures db.users == UpdateWhere(old(db.users), TokenIs(token), MarkVerified)
    ensures r == match FirstWhere(old(db.users), TokenIs(token))
                 case None => Err(InvalidToken)
                 case Some(i) => Ok(db.users[i])
  {
    var first := FirstWhere(db.users, TokenIs(token));
    db.users := UpdateWhere(db.users, TokenIs(token), MarkVerified);
    match first
    case None => return Err(InvalidToken);
    case Some(i) => return Ok(db.users[i]);
  }

  /** A token works once: afterwards nobody holds it, the holders are verified,
      and nobody else changes. */
  lemma VerifyEmailOnce(users: seq<User>, token: string)
    ensures var users' := UpdateWhere(users, TokenIs(token), MarkVerified);
      && FirstWhere(users', TokenIs(token)).None?
      && (forall i :: 0 <= i < |users| && users[i].verificationToken == Some(token) ==> users'[i].isEmailVerified)
      && (forall i :: 0 <= i < |users| && users[i].verificationToken != Some(token) ==> users'[i] == users[i])
  {
    var users' := UpdateWhere(users, TokenIs(token), MarkVerified);
    assert forall i :: 0 <= i < |users'| ==> !TokenIs(token)(users'[i]);
  }

  function WithPassword(hash: string): User -> User {
    (u: User) => u.(passwordHash := hash, mustChangePassword := false)
  }

  /** `changePassword(userId, newPassword)`: the hash is replaced and the forced change cleared;
      an unknown id changes nothing. */
  method ChangePassword(db: Database, userId: nat, hash: string)
    modifies db`users
    ensures db.users == UpdateWhere(old(db.users), UserIdIs(userId), WithPassword(hash))
  {
    db.users := UpdateWhere(db.users, UserIdIs(userId), WithPassword(hash));
  }

  /** A password change stores the new hash and clears the must-change flag on that user's row,
      and leaves every other field and every other user's row as it was. */
  lemma ChangePasswordEffect(users: seq<User>, i: nat, hash: string)
    requires i < |users|
    ensures var users' := UpdateWhere(users, UserIdIs(users[i].id), WithPassword(hash));
      && users'[i].passwordHash == hash && !users'[i].mustChangePassword
      && users'[i].(passwordHash := users[i].passwordHash, mustChangePassword := users[i].mustChangePassword) == users[i]
      && (forall j :: 0 <= j < |users| && users[j].id != users[i].id ==> users'[j] == users[j])
  {
  }
}
