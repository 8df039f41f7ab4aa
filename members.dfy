/**
 * Member profiles and the membership movement log (members.service.js).
 */
module Members {
  import opened Wrappers
  import opened Sums
  import opened Db

  /** A user row as getProfile hands it out: everything but the password hash and the verification token. */
  datatype Profile = Profile(
    id: nat,
    fullName: string,
    email: string,
    phone: Option<string>,
    role: string,
    idNumber: Option<string>,
    kraPin: Option<string>,
    profileImage: Option<string>,
    nokName: Option<string>,
    nokPhone: Option<string>,
    nokRelation: Option<string>,
    isEmailVerified: bool,
    mustChangePassword: bool,
    isActive: bool)

  /** The row with the two secret columns deleted. */
  function Strip(u: User): Profile {
    Profile(u.id, u.fullName, u.email, u.phone, u.role, u.idNumber, u.kraPin, u.profileImage,
            u.nokName, u.nokPhone, u.nokRelation, u.isEmailVerified, u.mustChangePassword, u.isActive)
  }

  /** Putting the two secret columns back. */
  function WithSecrets(p: Profile, passwordHash: string, verificationToken: Option<string>): User {
    User(p.id, p.fullName, p.email, passwordHash, p.phone, p.role, p.idNumber, p.kraPin, p.profileImage,
         p.nokName, p.nokPhone, p.nokRelation, p.isEmailVerified, verificationToken, p.mustChangePassword, p.isActive)
  }

  /** Only the two secret columns are lost: the row is the profile plus those two. */
  lemma StripKeepsTheRest(u: User)
    ensures WithSecrets(Strip(u), u.passwordHash, u.verificationToken) == u
    ensures Strip(WithSecrets(Strip(u), "", None)) == Strip(u)
  {
  }

  /** `getProfile(userId)`: the user's row without its secrets, or "User not found". */
  function GetProfile(users: seq<User>, userId: nat): (r: Result<Profile>)
    ensures r.Err? <==> forall i :: 0 <= i < |users| ==> users[i].id != userId
    ensures r.Err? ==> r.error == UserNotFound
    ensures r.Ok? ==> exists i :: 0 <= i < |users| && users[i].id == userId
                                && WithSecrets(r.value, users[i].passwordHash, users[i].verificationToken) == users[i]
  {
    match FirstWhere(users, UserIdIs(userId))
    case None => Err(UserNotFound)
    case Some(i) =>
      StripKeepsTheRest(users[i]);
      Ok(Strip(users[i]))
  }

  /** The editable fields of updateProfile; None is a field not sent (or sent as null). */
  datatype ProfileChanges = ProfileChanges(
    fullName: Option<string>,
    phone: Option<string>,
    profileImage: Option<string>,
    nokName: Option<string>,
    nokPhone: Option<string>,
    nokRelation: Option<string>)

  /** `COALESCE($n, column)`: the sent value, otherwise the old one. */
  function Coalesce<T>(given: Option<T>, current: T): T {
    if given.Some? then given.value else current
  }

  function Coalesced<T>(given: Option<T>, current: Option<T>): Option<T> {
    if given.Some? then given else current
  }

  function ApplyChanges(ch: ProfileChanges): User -> User {
    (u: User) => u.(fullName := Coalesce(ch.fullName, u.fullName),
                    phone := Coalesced(ch.phone, u.phone),
                    profileImage := Coalesced(ch.profileImage, u.profileImage),
                    nokName := Coalesced(ch.nokName, u.nokName),
                    nokPhone := Coalesced(ch.nokPhone, u.nokPhone),
                    nokRelation := Coalesced(ch.nokRelation, u.nokRelation))
  }

  /** `updateProfile(userId, data)`. */
  method UpdateProfile(db: Database, userId: nat, ch: ProfileChanges)
    modifies db`users
    ensures db.users == UpdateWhere(old(db.users), UserIdIs(userId), ApplyChanges(ch))
  {
    db.users := UpdateWhere(db.users, UserIdIs(userId), ApplyChanges(ch));
  }

  /** Each sent field replaces the old value, each missing field keeps it, the other columns and
      the other users are untouched, and sending the same changes again changes nothing more. */
  lemma UpdateProfileEffect(users: seq<User>, userId: nat, ch: ProfileChanges)
    ensures var users' := UpdateWhere(users, UserIdIs(userId), ApplyChanges(ch));
      && |users'| == |users|
      && (forall i :: 0 <= i < |users| && users[i].id != userId ==> users'[i] == users[i])
      && (forall i :: 0 <= i < |users| && users[i].id == userId ==>
            && users'[i].fullName == (if ch.fullName.Some? then ch.fullName.value else users[i].fullName)
            && users'[i].phone == (if ch.phone.Some? then ch.phone else users[i].phone)
            && users'[i].profileImage == (if ch.profileImage.Some? then ch.profileImage else users[i].profileImage)
            && users'[i].nokName == (if ch.nokName.Some? then ch.nokName else users[i].nokName)
            && users'[i].nokPhone == (if ch.nokPhone.Some? then ch.nokPhone else users[i].nokPhone)
            && users'[i].nokRelation == (if ch.nokRelation.Some? then ch.nokRelation else users[i].nokRelation)
            && users'[i].(fullName := users[i].fullName, phone := users[i].phone,
                          profileImage := users[i].profileImage, nokName := users[i].nokName,
                          nokPhone := users[i].nokPhone, nokRelation := users[i].nokRelation) == users[i])
      && UpdateWhere(users', UserIdIs(userId), ApplyChanges(ch)) == users'
  {
    var users' := UpdateWhere(users, UserIdIs(userId), ApplyChanges(ch));
    var users'' := UpdateWhere(users', UserIdIs(userId), ApplyChanges(ch));
    assert forall i :: 0 <= i < |users| ==> users''[i] == users'[i];
  }

  /** An update that sends no field leaves the table as it was. */
  lemma EmptyUpdateIsNoOp(users: seq<User>, userId: nat)
    ensures UpdateWhere(users, UserIdIs(userId), ApplyChanges(ProfileChanges(None, None, None, None, None, None))) == users
  {
    var users' := UpdateWhere(users, UserIdIs(userId), ApplyChanges(ProfileChanges(None, None, None, None, None, None)));
    assert forall i :: 0 <= i < |users| ==> users'[i] == users[i];
  }

  /** The `is_active` value a movement leads to: LEFT and SUSPENDED deactivate, REINSTATED
      reactivates, any other action (None) leaves the flag alone. */
  function ActivationFor(action: string): (a: Option<bool>)
    ensures a == Some(false) <==> action == "LEFT" || action == "SUSPENDED"
    ensures a == Some(true) <==> action == "REINSTATED"
  {
    if action == "LEFT" || action == "SUSPENDED" then Some(false)
    else if action == "REINSTATED" then Some(true)
    else None
  }

  function WithActive(active: bool): User -> User { (u: User) => u.(isActive := active) }

  /** `logMemberMovement(adminId, data)`: the log row is always written, then the flag is set. */
  method LogMemberMovement(db: Database, adminId: nat, userId: nat, action: string, reason: string)
    modifies db`movements, db`users
    ensures db.movements == old(db.movements) + [Movement(userId, action, reason, adminId)]
    ensures db.users == match ActivationFor(action)
                        case None => old(db.users)
                        case Some(a) => UpdateWhere(old(db.users), UserIdIs(userId), WithActive(a))
  {
    db.movements := db.movements + [Movement(userId, action, reason, adminId)];
    var a := ActivationFor(action);
    if a.Some? {
      db.users := UpdateWhere(db.users, UserIdIs(userId), WithActive(a.value));
    }
  }

  /** The users table after a movement, as LogMemberMovement leaves it. */
  function AfterMovement(users: seq<User>, userId: nat, action: string): seq<User> {
    match ActivationFor(action)
    case None => users
    case Some(a) => UpdateWhere(users, UserIdIs(userId), WithActive(a))
  }

  /** A suspension followed by a reinstatement leaves the member active, with every other
      column and every other member as before the suspension. */
  lemma SuspendThenReinstate(users: seq<User>, userId: nat)
    ensures var users' := AfterMovement(AfterMovement(users, userId, "SUSPENDED"), userId, "REINSTATED");
      && |users'| == |users|
      && (forall i :: 0 <= i < |users| ==> users'[i] == if users[i].id == userId then users[i].(isActive := true) else users[i])
  {
  }
}
