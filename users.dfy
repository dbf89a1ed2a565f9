/** Account statistics and the password change of a signed-in user (backend/src/users/users.service.ts). */
module Users {
  import opened Common
  import opened Accounts
  import Favorites
  import ViewHistory
  import Jwt

  datatype UserStatistics = UserStatistics(
    totalSearches: nat,
    totalViews: nat,
    totalFavorites: nat,
    consecutiveLoginDays: nat,
    memberSince: int)

  datatype UserError = NotFound | Mismatch | SameAsOld | OldPasswordInvalid

  datatype PasswordChanged = PasswordChanged

  /** getUserStatistics: the user's view rows and favourite rows counted; searches are not
      recorded, so their total is the view total; a null streak shows as 0. */
  function GetUserStatistics(users: map<nat, User>, views: seq<ViewHistory.View>, favorites: seq<Favorites.Favorite>, userId: nat)
    : (r: Result<UserStatistics, UserError>)
    ensures r.Err? <==> userId !in users
    ensures r.Err? ==> r.error == NotFound
    ensures r.Ok? ==> && r.value.totalViews == Count(views, ViewHistory.OfUser(userId))
                      && r.value.totalSearches == r.value.totalViews
                      && r.value.totalFavorites == Count(favorites, Favorites.OfUser(userId))
                      && r.value.consecutiveLoginDays == users[userId].consecutiveLoginDays.GetOr(0)
                      && r.value.memberSince == users[userId].registrationDate
  {
    if userId !in users then Err(NotFound)
    else
      var user := users[userId];
      var totalViews := Count(views, ViewHistory.OfUser(userId));
      var totalFavorites := Count(favorites, Favorites.OfUser(userId));
      Ok(UserStatistics(totalViews, totalViews, totalFavorites, user.consecutiveLoginDays.GetOr(0), user.registrationDate))
  }

  /** Once the user's history is deleted the statistics show no views and no searches. */
  lemma StatisticsAfterHistoryDeleted(users: map<nat, User>, views: seq<ViewHistory.View>, favorites: seq<Favorites.Favorite>, userId: nat)
    requires userId in users
    ensures var after := GetUserStatistics(users, Filter(views, ViewHistory.NotOfUser(userId)), favorites, userId);
      after.Ok? && after.value.totalViews == 0 && after.value.totalSearches == 0
  {
    var rest := Filter(views, ViewHistory.NotOfUser(userId));
    CountNone(rest, ViewHistory.OfUser(userId));
  }

  /** One more favourite row of the user raises total_favorites by one, and a favourite of
      someone else leaves it alone. */
  lemma StatisticsAfterFavorite(users: map<nat, User>, views: seq<ViewHistory.View>, favorites: seq<Favorites.Favorite>,
                                userId: nat, f: Favorites.Favorite)
    requires userId in users
    ensures GetUserStatistics(users, views, favorites + [f], userId).value.totalFavorites
            == GetUserStatistics(users, views, favorites, userId).value.totalFavorites + (if f.userId == userId then 1 else 0)
  {
    CountAppend(favorites, [f], Favorites.OfUser(userId));
    assert [f][1..] == [];
  }

  /** The row after a password change: the new hash and a new token version. */
  function AfterChange(u: User, newHash: string): User {
    u.(passwordHash := newHash, tokenVersion := u.tokenVersion + 1)
  }

  /** changePassword: the checks in their order, then the new hash and a token-version bump, which
      signs the user out everywhere. */
  method ChangePassword(store: UserStore, userId: nat, oldPassword: string, password: string, confirmPassword: string)
    returns (r: Result<PasswordChanged, UserError>)
    requires store.Valid()
    modifies store
    ensures store.Valid() && store.nextId == old(store.nextId)
    ensures r.Err? ==> store.users == old(store.users)
    ensures userId !in old(store.users) ==> r == Err(NotFound)
    ensures userId in old(store.users) ==>
      r == (if password != confirmPassword then Err(Mismatch)
            else if oldPassword == password then Err(SameAsOld)
            else if store.hash(oldPassword) != old(store.users)[userId].passwordHash then Err(OldPasswordInvalid)
            else Ok(PasswordChanged))
    ensures r.Ok? ==> store.users == old(store.users)[userId := AfterChange(old(store.users)[userId], store.hash(password))]
  {
    if userId !in store.users {
      return Err(NotFound);
    }
    var user := store.users[userId];
    if password != confirmPassword {
      return Err(Mismatch);
    }
    if oldPassword == password {
      return Err(SameAsOld);
    }
    var isPasswordValid := store.hash(oldPassword) == user.passwordHash;
    if !isPasswordValid {
      return Err(OldPasswordInvalid);
    }
    var newHashedPassword := store.hash(password);
    store.users := store.users[userId := AfterChange(user, newHashedPassword)];
    assert forall id :: id in store.users ==> store.users[id].email == old(store.users)[id].email;
    return Ok(PasswordChanged);
  }

  /** After a change every token issued before it is refused, and the new password is the one
      that matches the stored hash. */
  lemma ChangeRevokesTokens(users: map<nat, User>, userId: nat, payload: TokenPayload, hash: string -> string, password: string)
    requires userId in users && payload.sub == userId && Jwt.Validate(users, payload).Ok?
    ensures var after := users[userId := AfterChange(users[userId], hash(password))];
      && Jwt.Validate(after, payload) == Err(Jwt.TokenRevoked)
      && hash(password) == after[userId].passwordHash
  {
    Jwt.VersionBumpRevokes(users, users[userId := AfterChange(users[userId], hash(password))], payload);
  }
}
