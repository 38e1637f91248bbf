/** The login (signUp) with its invalid-attempt counter and lockout. */
module SessionModel {
  import opened Wrappers
  import opened Entities
  import opened UserRepository
  import opened AuthorizationCache

  /** More than this many consecutive invalid attempts block the user. */
  const MaxInvalidAttempts: nat := 4

  /** `attempts !== null ? attempts + 1 : 1`. */
  function NextAttempts(attempts: Option<nat>): nat {
    match attempts
    case None => 1
    case Some(n) => n + 1
  }

  /** The row update of computeInvalidLoginAttempt: `attempts`, `blocked = attempts > 4` and `lastLoginAttempt`. */
  function InvalidAttempt(u: User, now: Timestamp): (r: User)
    ensures r.attempts.Some? && r.attempts.value >= 1
    ensures r.attempts == Some(if u.attempts.Some? then u.attempts.value + 1 else 1)
    ensures r.blocked <==> r.attempts.value > MaxInvalidAttempts
    ensures r.lastLoginAttempt == Some(now)
    ensures r.(attempts := u.attempts, blocked := u.blocked, lastLoginAttempt := u.lastLoginAttempt) == u
  {
    var attempts := NextAttempts(u.attempts);
    u.(attempts := Some(attempts), blocked := attempts > MaxInvalidAttempts, lastLoginAttempt := Some(now))
  }

  /** The row update of clearPastInvalidAttempts: `attempts` and `lastLoginAttempt` become null. */
  function ClearedAttempts(u: User): (r: User)
    ensures r.attempts.None? && r.lastLoginAttempt.None?
    ensures r.(attempts := u.attempts, lastLoginAttempt := u.lastLoginAttempt) == u
  {
    u.(attempts := None, lastLoginAttempt := None)
  }

  /** `update user set ... where id = :id`. */
  function UpdateWhereId(users: seq<User>, id: nat, f: User -> User): (r: seq<User>)
    ensures |r| == |users|
    ensures forall i :: 0 <= i < |users| ==> r[i] == if users[i].id == id then f(users[i]) else users[i]
  {
    seq(|users|, i requires 0 <= i < |users| => if users[i].id == id then f(users[i]) else users[i])
  }

  /** `if (user.attempts)`: a non-null, non-zero counter. */
  predicate Truthy(attempts: Option<nat>) {
    attempts.Some? && attempts.value != 0
  }

  /** `n` consecutive invalid attempts on the same row. */
  function Failures(u: User, n: nat, now: Timestamp): User {
    if n == 0 then u else InvalidAttempt(Failures(u, n - 1, now), now)
  }

  /** From a null counter, `n` failures leave the counter at `n` and block exactly when `n > 4`. */
  lemma {:induction false} FailuresFromNull(u: User, n: nat, now: Timestamp)
    requires u.attempts.None? && n > 0
    ensures Failures(u, n, now).attempts == Some(n)
    ensures Failures(u, n, now).blocked <==> n > MaxInvalidAttempts
  {
    if n > 1 {
      FailuresFromNull(u, n - 1, now);
    }
  }

  /** The lockout boundary: four failures leave the user unblocked, the fifth blocks them. */
  lemma LockoutBoundary(u: User, now: Timestamp)
    requires u.attempts.None?
    ensures !Failures(u, 4, now).blocked
    ensures Failures(u, 5, now).blocked
  {
    FailuresFromNull(u, 4, now);
    FailuresFromNull(u, 5, now);
  }

  datatype SignUpError = UserDoesNotExist | InvalidPassword

  /** The user object signUp resolves with: the fetched row plus `token` and `permissions`. */
  datatype SignedUser = SignedUser(user: User, token: string, permissions: seq<ResourcePermission>)

  datatype SignUpResult = Failure(error: SignUpError) | Success(signed: SignedUser)

  lemma FindUserSameIds(a: seq<User>, b: seq<User>)
    requires |a| == |b| && forall i :: 0 <= i < |a| ==> a[i].id == b[i].id
    ensures forall id :: FindUser(a, id).Some? <==> FindUser(b, id).Some?
  {
    forall id
      ensures FindUser(a, id).Some? <==> FindUser(b, id).Some?
    {
      if FindUser(a, id).Some? {
        var i :| 0 <= i < |a| && a[i] == FindUser(a, id).value;
        assert b[i].id == id;
      }
      if FindUser(b, id).Some? {
        var i :| 0 <= i < |b| && b[i] == FindUser(b, id).value;
        assert a[i].id == id;
      }
    }
  }

  /** Rewriting the login columns of a row keeps every key and constraint of the tables. */
  lemma LoginColumnsKeepWellFormed(t: Tables, users: seq<User>)
    requires WellFormed(t)
    requires |users| == |t.users|
    requires forall i :: 0 <= i < |users| ==> users[i].id == t.users[i].id && users[i].email == t.users[i].email
    ensures WellFormed(t.(users := users))
  {
    FindUserSameIds(users, t.users);
  }

  /**
   * signUp: look the user up by e-mail among unblocked users, check the password,
   * count an invalid attempt or clear past ones, then sign a token and attach the cached permissions.
   * `compare` stands for bcrypt.compare, `sign` for jwt.sign over `{id}`, `now` for `new Date()`.
   */
  method SignUp(db: Database, cache: Cache, email: string, password: string,
                compare: (string, string) -> bool, sign: nat -> string, now: Timestamp)
    returns (r: SignUpResult)
    requires db.Valid()
    modifies db
    ensures db.Valid() && db.nextGroupId == old(db.nextGroupId)
    ensures db.tables == old(db.tables).(users := db.tables.users)
    ensures |db.tables.users| == |old(db.tables.users)|
    ensures forall i :: 0 <= i < |old(db.tables.users)| && old(db.tables.users)[i].blocked ==> db.tables.users[i].blocked
    ensures match GetUserLoginData(old(db.tables.users), email)
      case None =>
        r == Failure(UserDoesNotExist) && db.tables == old(db.tables)
      case Some(u) =>
        if !compare(password, u.hash) then
          && r == Failure(InvalidPassword)
          && db.tables.users == UpdateWhereId(old(db.tables.users), u.id, v => InvalidAttempt(v, now))
        else
          && r.Success? && r.signed.user == u && r.signed.token == sign(u.id)
          && ListsRolesOf(cache.auth, u.id, r.signed.permissions)
          && db.tables.users == if Truthy(u.attempts) then UpdateWhereId(old(db.tables.users), u.id, ClearedAttempts)
                                else old(db.tables.users)
  {
    var found := GetUserLoginData(db.tables.users, email);
    if found.None? {
      return Failure(UserDoesNotExist);
    }
    var user := found.value;
    if !compare(password, user.hash) {
      ComputeInvalidLoginAttempt(db, user, now);
      return Failure(InvalidPassword);
    }
    if Truthy(user.attempts) {
      ClearPastInvalidAttempts(db, user.id);
    }
    var token := sign(user.id);
    var permissions := cache.GetUserRolesByResources(user.id);
    return Success(SignedUser(user, token, permissions));
  }

  /** computeInvalidLoginAttempt: count one more invalid attempt on the user's row. */
  method ComputeInvalidLoginAttempt(db: Database, user: User, now: Timestamp)
    requires db.Valid()
    modifies db
    ensures db.Valid() && db.nextGroupId == old(db.nextGroupId)
    ensures db.tables == old(db.tables).(users := UpdateWhereId(old(db.tables.users), user.id, v => InvalidAttempt(v, now)))
  {
    var users := UpdateWhereId(db.tables.users, user.id, v => InvalidAttempt(v, now));
    LoginColumnsKeepWellFormed(db.tables, users);
    db.tables := db.tables.(users := users);
  }

  /** clearPastInvalidAttempts: null the counter and the last attempt time of the user's row. */
  method ClearPastInvalidAttempts(db: Database, userId: nat)
    requires db.Valid()
    modifies db
    ensures db.Valid() && db.nextGroupId == old(db.nextGroupId)
    ensures db.tables == old(db.tables).(users := UpdateWhereId(old(db.tables.users), userId, ClearedAttempts))
  {
    var users := UpdateWhereId(db.tables.users, userId, ClearedAttempts);
    LoginColumnsKeepWellFormed(db.tables, users);
    db.tables := db.tables.(users := users);
  }
}
