/** User accounts and sessions (backend/src/auth/auth.service.ts).

    The `users` table is a map from id to row owned by a `UserStore`. Password hashing is the
    store's `hash` function and a bcrypt comparison is `hash(password) == stored`. Times are
    milliseconds since the epoch; `dayOf` gives the local calendar day of a time, so that two
    times are on consecutive days when their `dayOf` differ by one. A session token is its
    payload: signing and expiry are not modelled. */
module Accounts {
  import opened Common

  datatype Role = Regular | Admin

  /** The role as the `UserRole` enum spells it. */
  function RoleName(r: Role): string {
    match r
    case Regular => "user"
    case Admin => "admin"
  }

  datatype User = User(
    id: nat,
    email: string,
    username: string,
    passwordHash: string,
    role: Role,
    birthday: Option<int>,
    location: Option<string>,
    avatarUrl: Option<string>,
    registrationDate: int,
    lastLogin: Option<int>,
    consecutiveLoginDays: Option<nat>,
    saveLoginInfo: Option<bool>,
    tokenVersion: nat,
    resetToken: Option<string>,
    resetExpiresAt: Option<int>)

  datatype AuthError =
    | PasswordMismatch        // 400 auth.errors.password_mismatch
    | EmailInUse              // 400 auth.errors.email_in_use
    | InvalidBirthday         // 400 auth.errors.invalid_birthday
    | InvalidCredentials      // 401 auth.errors.invalid_credentials
    | UserNotFound            // 404 auth.errors.user_not_found
    | InvalidOrExpiredToken   // 400 auth.errors.invalid_or_expired_token
    | SendError               // 400 auth.email.send_error

  datatype Message = Registered | LoggedOut | AlreadyLoggedOut | ResetSent | PasswordResetDone

  /** The JWT payload: `sub` is the user id, `tv` the token version it was issued under. */
  datatype TokenPayload = TokenPayload(email: string, sub: nat, role: Role, tv: Option<int>)

  datatype LoginResponse = LoginResponse(token: TokenPayload, userId: nat, email: string, username: string,
                                         role: Role, redirectTo: string)

  /** A reset link stays valid for 60 minutes. */
  const ResetLifetimeMs: int := 60 * 60 * 1000

  predicate HasEmail(users: map<nat, User>, email: string) {
    exists id :: id in users && users[id].email == email
  }

  predicate EmailsUnique(users: map<nat, User>) {
    forall a, b :: a in users && b in users && users[a].email == users[b].email ==> a == b
  }

  /** Replacing one row keeps the emails unique when no other row holds the new row's email. */
  lemma ReplaceKeepsEmailsUnique(users: map<nat, User>, id: nat, u: User)
    requires EmailsUnique(users)
    requires forall other :: other in users && other != id ==> users[other].email != u.email
    ensures EmailsUnique(users[id := u])
  {
  }

  /** The payload login signs: `tv` is the stored token version. */
  function PayloadFor(u: User): TokenPayload {
    TokenPayload(u.email, u.id, u.role, Some(u.tokenVersion))
  }

  /** `/admin` for an administrator, `/` for anyone else. */
  function RedirectFor(role: Role): (path: string)
    ensures path == "/admin" <==> role == Admin
    ensures role != Admin ==> path == "/"
  {
    if role == Admin then "/admin" else "/"
  }

  // ---------------------------------------------------------------- login streak

  /** consecutive_login_days after a login on day `today`, given the day of the previous login
      and the stored streak (`|| 0`). */
  function Streak(lastDay: Option<int>, today: int, current: Option<nat>): (s: nat)
    ensures s == 1 || s == current.GetOr(0) || s == current.GetOr(0) + 1
    ensures lastDay.None? ==> s == 1
  {
    var c := current.GetOr(0);
    if lastDay.None? then 1
    else if today - lastDay.value == 1 then c + 1
    else if today - lastDay.value == 0 then c
    else if today - lastDay.value > 1 then 1
    else c
  }

  /** The streak after logging in on each of `days` in turn. */
  function StreakAfter(days: seq<int>, lastDay: Option<int>, current: Option<nat>): nat
    decreases |days|
  {
    if days == [] then current.GetOr(0)
    else StreakAfter(days[1..], Some(days[0]), Some(Streak(lastDay, days[0], current)))
  }

  /** The days d, d + 1, …, d + n - 1. */
  function DaysFrom(d: int, n: nat): (r: seq<int>)
    ensures |r| == n
    ensures forall i :: 0 <= i < n ==> r[i] == d + i
    decreases n
  {
    if n == 0 then [] else [d] + DaysFrom(d + 1, n - 1)
  }

  /** Each login on the day after the previous one adds one to the streak. */
  lemma {:induction false} NextDayLoginsAdd(d: int, n: nat, c: nat)
    ensures StreakAfter(DaysFrom(d, n), Some(d - 1), Some(c)) == c + n
    decreases n
  {
    if n > 0 {
      assert DaysFrom(d, n)[1..] == DaysFrom(d + 1, n - 1);
      NextDayLoginsAdd(d + 1, n - 1, c + 1);
    }
  }

  /** A user who has never logged in and then logs in on n consecutive days has a streak of n. */
  lemma ConsecutiveDaysStreak(d: int, n: nat)
    requires n >= 1
    ensures StreakAfter(DaysFrom(d, n), None, None) == n
  {
    assert DaysFrom(d, n)[1..] == DaysFrom(d + 1, n - 1);
    NextDayLoginsAdd(d + 1, n - 1, 1);
  }

  /** Same-day logins and clock steps backwards leave the streak as stored; a gap of two or more
      days restarts it at 1. */
  lemma StreakCases(lastDay: int, today: int, current: Option<nat>)
    ensures today <= lastDay ==> Streak(Some(lastDay), today, current) == current.GetOr(0)
    ensures today > lastDay + 1 ==> Streak(Some(lastDay), today, current) == 1
    ensures today == lastDay + 1 ==> Streak(Some(lastDay), today, current) == current.GetOr(0) + 1
  {
  }

  // ---------------------------------------------------------------- logout

  /** The columns register's `select` returns: no password hash, token version or reset token. */
  datatype RegisteredUser = RegisteredUser(id: nat, email: string, username: string, role: Role, registrationDate: int)

  function RegisterSelection(u: User): RegisteredUser {
    RegisteredUser(u.id, u.email, u.username, u.role, u.registrationDate)
  }

  /** logout as a function of the table: the answer and the new table. */
  function LogoutSpec(users: map<nat, User>, userId: nat, tv: Option<int>): (out: (Result<Message, AuthError>, map<nat, User>))
    ensures out.1.Keys == users.Keys
    ensures forall id :: id in users && id != userId ==> out.1[id] == users[id]
    ensures out.0 == Err(UserNotFound) <==> userId !in users
    ensures out.0 == Ok(LoggedOut) ==> out.1[userId] == users[userId].(tokenVersion := users[userId].tokenVersion + 1)
    ensures out.0 != Ok(LoggedOut) ==> out.1 == users
  {
    if tv.Some? then
      if userId in users && users[userId].tokenVersion == tv.value then
        (Ok(LoggedOut), users[userId := users[userId].(tokenVersion := users[userId].tokenVersion + 1)])
      else if userId !in users then (Err(UserNotFound), users)
      else (Ok(AlreadyLoggedOut), users)
    else if userId in users then
      (Ok(LoggedOut), users[userId := users[userId].(tokenVersion := users[userId].tokenVersion + 1)])
    else (Err(UserNotFound), users)
  }

  /** With a token version, logout succeeds exactly when it is the stored one, and then moves the
      stored version past it; any other version of an existing user changes nothing. */
  lemma LogoutComparesVersion(users: map<nat, User>, userId: nat, t: int)
    requires userId in users
    ensures var (r, after) := LogoutSpec(users, userId, Some(t));
      && (r == Ok(LoggedOut) <==> users[userId].tokenVersion == t)
      && (r == Ok(LoggedOut) ==> after[userId].tokenVersion == t + 1)
      && (r != Ok(LoggedOut) ==> r == Ok(AlreadyLoggedOut) && after == users)
      && (users[userId].tokenVersion > t ==> r == Ok(AlreadyLoggedOut))
      && (forall id :: id in users && id != userId ==> id in after && after[id] == users[id])
  {
  }

  /** Logging out twice with the same token: the second call reports already_logged_out and
      changes nothing. */
  lemma LogoutIdempotent(users: map<nat, User>, userId: nat, t: int)
    requires LogoutSpec(users, userId, Some(t)).0 == Ok(LoggedOut)
    ensures var after := LogoutSpec(users, userId, Some(t)).1;
      LogoutSpec(after, userId, Some(t)) == (Ok(AlreadyLoggedOut), after)
  {
  }

  /** Without a token version, logout bumps any existing user and refuses an unknown one. */
  lemma LogoutWithoutVersion(users: map<nat, User>, userId: nat)
    ensures var (r, after) := LogoutSpec(users, userId, None);
      && (userId in users ==> r == Ok(LoggedOut) && after[userId].tokenVersion == users[userId].tokenVersion + 1)
      && (userId !in users ==> r == Err(UserNotFound) && after == users)
  {
  }

  // ---------------------------------------------------------------- password reset

  /** The row carries the token and has not yet expired (`expires_at > now`). */
  predicate Resettable(u: User, token: string, now: int) {
    u.resetToken == Some(token) && u.resetExpiresAt.Some? && u.resetExpiresAt.value > now
  }

  /** The row after a successful reset: new password, no token, and a new token version. */
  function AfterReset(u: User, newHash: string): (v: User)
    ensures v.(passwordHash := u.passwordHash, resetToken := u.resetToken, resetExpiresAt := u.resetExpiresAt,
               tokenVersion := u.tokenVersion) == u
    ensures v.passwordHash == newHash && v.tokenVersion > u.tokenVersion
    ensures forall token, now :: !Resettable(v, token, now)
  {
    u.(passwordHash := newHash, resetToken := None, resetExpiresAt := None, tokenVersion := u.tokenVersion + 1)
  }

  /** The row after forgotPassword: the token, its expiry one hour on, and a new token version. */
  function AfterForgot(u: User, token: string, now: int): (v: User)
    ensures v.(resetToken := u.resetToken, resetExpiresAt := u.resetExpiresAt, tokenVersion := u.tokenVersion) == u
    ensures v.tokenVersion > u.tokenVersion
    ensures forall later :: Resettable(v, token, later) <==> later < now + ResetLifetimeMs
  {
    u.(resetToken := Some(token), resetExpiresAt := Some(now + ResetLifetimeMs), tokenVersion := u.tokenVersion + 1)
  }

  /** A freshly issued reset token works until, and not at, one hour later. */
  lemma ForgotTokenLifetime(u: User, token: string, now: int, later: int)
    ensures Resettable(AfterForgot(u, token, now), token, later) <==> later < now + ResetLifetimeMs
  {
  }

  /** A reset token works once: after it is used no row holds it, provided it was not shared. */
  lemma ResetTokenSingleUse(users: map<nat, User>, id: nat, token: string, newHash: string, later: int)
    requires id in users && users[id].resetToken == Some(token)
    requires forall other :: other in users && other != id ==> users[other].resetToken != Some(token)
    ensures var after := users[id := AfterReset(users[id], newHash)];
      forall j :: j in after ==> !Resettable(after[j], token, later)
  {
  }

  class UserStore {
    /** bcrypt's hash of a password. */
    const hash: string -> string
    /** The local calendar day of a time. */
    const dayOf: int -> int
    /** `new Date(text)` for a birthday: None for an invalid date. */
    const parseDate: string -> Option<int>
    var users: map<nat, User>
    var nextId: nat

    ghost predicate Valid()
      reads this
    {
      && (forall id :: id in users ==> id < nextId && users[id].id == id)
      && EmailsUnique(users)
    }

    constructor (hash: string -> string, dayOf: int -> int, parseDate: string -> Option<int>)
      ensures Valid()
      ensures this.hash == hash && this.dayOf == dayOf && this.parseDate == parseDate
      ensures users == map[] && nextId == 1
    {
      this.hash := hash;
      this.dayOf := dayOf;
      this.parseDate := parseDate;
      users := map[];
      nextId := 1;
    }

    /** `findUnique({ where: { email } })`. */
    method FindByEmail(email: string) returns (found: Option<nat>)
      requires Valid()
      ensures found.Some? ==> found.value in users && users[found.value].email == email
      ensures found.None? <==> !HasEmail(users, email)
    {
      var i: nat := 0;
      while i < nextId
        invariant i <= nextId
        invariant forall id :: id in users && id < i ==> users[id].email != email
      {
        if i in users && users[i].email == email {
          return Some(i);
        }
        i := i + 1;
      }
      return None;
    }

    /** `findFirst` of an unexpired reset token: the lowest such id. */
    method FindByResetToken(token: string, now: int) returns (found: Option<nat>)
      requires Valid()
      ensures found.Some? ==> found.value in users && Resettable(users[found.value], token, now)
      ensures found.Some? ==> forall id :: id in users && id < found.value ==> !Resettable(users[id], token, now)
      ensures found.None? <==> forall id :: id in users ==> !Resettable(users[id], token, now)
    {
      var i: nat := 0;
      while i < nextId
        invariant i <= nextId
        invariant forall id :: id in users && id < i ==> !Resettable(users[id], token, now)
      {
        if i in users && Resettable(users[i], token, now) {
          return Some(i);
        }
        i := i + 1;
      }
      return None;
    }

    /** The row register inserts: a regular user with no login yet and token version 0. */
    function NewUser(id: nat, email: string, username: string, password: string, birthday: Option<int>,
                     location: Option<string>, now: int): (u: User)
      ensures u.id == id && u.email == email && u.username == username && u.passwordHash == hash(password)
      ensures u.role == Regular && u.registrationDate == now && u.tokenVersion == 0
      ensures u.lastLogin.None? && u.consecutiveLoginDays.None? && u.resetToken.None? && u.resetExpiresAt.None?
    {
      User(id, email, username, hash(password), Regular, birthday, location, None, now,
           None, None, None, 0, None, None)
    }

    /** POST /auth/register. It answers with the `select` of the new row, never its password hash. */
    method Register(email: string, username: string, password: string, confirmPassword: string,
                    birthday: Option<string>, location: Option<string>, now: int)
      returns (r: Result<RegisteredUser, AuthError>)
      requires Valid()
      modifies this
      ensures Valid()
      ensures password != confirmPassword ==> r == Err(PasswordMismatch)
      ensures password == confirmPassword && HasEmail(old(users), email) ==> r == Err(EmailInUse)
      ensures password == confirmPassword && !HasEmail(old(users), email) && birthday.Some? && parseDate(birthday.value).None?
              ==> r == Err(InvalidBirthday)
      ensures (password == confirmPassword && !HasEmail(old(users), email)
               && (birthday.None? || parseDate(birthday.value).Some?)) ==> r.Ok?
      ensures r.Err? ==> users == old(users) && nextId == old(nextId)
      ensures r.Ok? ==> && password == confirmPassword && !HasEmail(old(users), email)
                        && users == old(users)[old(nextId) := NewUser(old(nextId), email, username, password,
                                              if birthday.Some? then parseDate(birthday.value) else None, location, now)]
                        && nextId == old(nextId) + 1
                        && r.value == RegisterSelection(users[old(nextId)])
                        && r.value == RegisteredUser(old(nextId), email, username, Regular, now)
    {
      if password != confirmPassword {
        return Err(PasswordMismatch);
      }
      var existing := FindByEmail(email);
      if existing.Some? {
        return Err(EmailInUse);
      }
      var parsedBirthday: Option<int> := None;
      if birthday.Some? {
        var d := parseDate(birthday.value);
        if d.None? {
          return Err(InvalidBirthday);
        }
        parsedBirthday := d;
      }
      var u := NewUser(nextId, email, username, password, parsedBirthday, location, now);
      users := users[nextId := u];
      nextId := nextId + 1;
      return Ok(RegisterSelection(u));
    }

    /** The row after a successful login at `now`. An absent saveLoginInfo leaves the column as is. */
    function LoggedIn(u: User, now: int, saveLoginInfo: Option<bool>): (v: User)
      ensures v.(lastLogin := u.lastLogin, consecutiveLoginDays := u.consecutiveLoginDays, saveLoginInfo := u.saveLoginInfo) == u
      ensures v.lastLogin == Some(now) && v.consecutiveLoginDays.Some?
      ensures saveLoginInfo.None? ==> v.saveLoginInfo == u.saveLoginInfo
      ensures saveLoginInfo.Some? ==> v.saveLoginInfo == saveLoginInfo
    {
      u.(lastLogin := Some(now),
         consecutiveLoginDays := Some(Streak(if u.lastLogin.Some? then Some(dayOf(u.lastLogin.value)) else None,
                                             dayOf(now), u.consecutiveLoginDays)),
         saveLoginInfo := if saveLoginInfo.Some? then saveLoginInfo else u.saveLoginInfo)
    }

    /** POST /auth/login. An unknown email and a wrong password give the same error. */
    method Login(email: string, password: string, saveLoginInfo: Option<bool>, now: int)
      returns (r: Result<LoginResponse, AuthError>)
      requires Valid()
      modifies this
      ensures Valid()
      ensures nextId == old(nextId)
      ensures r.Err? <==> forall id :: id in old(users) && old(users)[id].email == email ==> hash(password) != old(users)[id].passwordHash
      ensures r.Err? ==> r.error == InvalidCredentials && users == old(users)
      ensures r.Ok? ==> var id := r.value.userId;
        && id in old(users) && old(users)[id].email == email && hash(password) == old(users)[id].passwordHash
        && r.value.token == PayloadFor(old(users)[id])
        && r.value.role == old(users)[id].role && r.value.redirectTo == RedirectFor(old(users)[id].role)
        && users == old(users)[id := LoggedIn(old(users)[id], now, saveLoginInfo)]
    {
      var found := FindByEmail(email);
      if found.None? {
        return Err(InvalidCredentials);
      }
      var id := found.value;
      var u := users[id];
      if hash(password) != u.passwordHash {
        return Err(InvalidCredentials);
      }
      var payload := TokenPayload(u.email, u.id, u.role, Some(u.tokenVersion));
      var consecutiveLoginDays := u.consecutiveLoginDays.GetOr(0);
      if u.lastLogin.Some? {
        var diffDays := dayOf(now) - dayOf(u.lastLogin.value);
        if diffDays == 1 {
          consecutiveLoginDays := consecutiveLoginDays + 1;
        } else if diffDays == 0 {
        } else if diffDays > 1 {
          consecutiveLoginDays := 1;
        }
      } else {
        consecutiveLoginDays := 1;
      }
      var save := if saveLoginInfo.Some? then saveLoginInfo else u.saveLoginInfo;
      users := users[id := u.(lastLogin := Some(now), consecutiveLoginDays := Some(consecutiveLoginDays), saveLoginInfo := save)];
      var redirectTo := if u.role == Admin then "/admin" else "/";
      return Ok(LoginResponse(payload, u.id, u.email, u.username, u.role, redirectTo));
    }

    /** `updateMany({ where: { id, token_version: expected }, data: { token_version: expected + 1 } })`. */
    method CompareAndIncrement(id: nat, expected: int) returns (count: nat)
      requires Valid()
      modifies this
      ensures Valid() && nextId == old(nextId)
      ensures count == (if id in old(users) && old(users)[id].tokenVersion == expected then 1 else 0)
      ensures count == 1 ==> users == old(users)[id := old(users)[id].(tokenVersion := old(users)[id].tokenVersion + 1)]
      ensures count == 0 ==> users == old(users)
    {
      if id in users && users[id].tokenVersion == expected {
        users := users[id := users[id].(tokenVersion := users[id].tokenVersion + 1)];
        return 1;
      }
      return 0;
    }

    /** POST /auth/logout, with the token version of the caller's token when it has one. */
    method Logout(userId: nat, tv: Option<int>) returns (r: Result<Message, AuthError>)
      requires Valid()
      modifies this
      ensures Valid() && nextId == old(nextId)
      ensures (r, users) == LogoutSpec(old(users), userId, tv)
    {
      if tv.Some? {
        var updated := CompareAndIncrement(userId, tv.value);
        if updated == 0 {
          if userId !in users {
            return Err(UserNotFound);
          }
          if users[userId].tokenVersion > tv.value {
            return Ok(AlreadyLoggedOut);
          }
          var retry := CompareAndIncrement(userId, tv.value);
          if retry == 0 {
            return Ok(AlreadyLoggedOut);
          }
          // Only a concurrent request could have reset the version in between.
          assert false;
        }
        return Ok(LoggedOut);
      }
      if userId !in users {
        return Err(UserNotFound);
      }
      users := users[userId := users[userId].(tokenVersion := users[userId].tokenVersion + 1)];
      return Ok(LoggedOut);
    }

    /** POST /auth/forgot-password with the random token it generates. `mailSent` is whether the
        mailer accepted the reset mail; a refusal answers send_error after the row was written. */
    method ForgotPassword(email: string, token: string, now: int, mailSent: bool) returns (r: Result<Message, AuthError>)
      requires Valid()
      modifies this
      ensures Valid() && nextId == old(nextId)
      ensures !HasEmail(old(users), email) ==> r == Ok(ResetSent) && users == old(users)
      ensures HasEmail(old(users), email) ==> r == (if mailSent then Ok(ResetSent) else Err(SendError))
      ensures HasEmail(old(users), email) ==> exists id :: id in old(users) && old(users)[id].email == email
                                                && users == old(users)[id := AfterForgot(old(users)[id], token, now)]
    {
      var found := FindByEmail(email);
      if found.None? {
        return Ok(ResetSent);
      }
      var id := found.value;
      users := users[id := AfterForgot(users[id], token, now)];
      if !mailSent {
        return Err(SendError);
      }
      return Ok(ResetSent);
    }

    /** POST /auth/reset-password. */
    method ResetPassword(token: string, password: string, confirmPassword: string, now: int)
      returns (r: Result<Message, AuthError>)
      requires Valid()
      modifies this
      ensures Valid() && nextId == old(nextId)
      ensures password != confirmPassword ==> r == Err(PasswordMismatch)
      ensures password == confirmPassword && (forall id :: id in old(users) ==> !Resettable(old(users)[id], token, now))
              ==> r == Err(InvalidOrExpiredToken)
      ensures password == confirmPassword && (exists id :: id in old(users) && Resettable(old(users)[id], token, now))
              ==> r.Ok?
      ensures r.Err? ==> users == old(users)
      ensures r.Ok? ==> && r.value == PasswordResetDone && password == confirmPassword
                        && exists id :: id in old(users) && Resettable(old(users)[id], token, now)
                             && users == old(users)[id := AfterReset(old(users)[id], hash(password))]
    {
      if password != confirmPassword {
        return Err(PasswordMismatch);
      }
      var found := FindByResetToken(token, now);
      if found.None? {
        return Err(InvalidOrExpiredToken);
      }
      var id := found.value;
      users := users[id := AfterReset(users[id], hash(password))];
      return Ok(PasswordResetDone);
    }
  }
}
