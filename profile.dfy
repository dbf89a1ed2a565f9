/** A user's profile page and its partial edit (backend/src/profile/profile.service.ts). */
module Profile {
  import opened Common
  import opened Accounts
  import opened Dishes
  import Favorites

  /** A favourited dish as the profile shows it. */
  datatype ProfileDish = ProfileDish(
    id: nat,
    nameJapanese: string,
    nameVietnamese: string,
    nameRomaji: Option<string>,
    descriptionJapanese: Option<string>,
    descriptionVietnamese: Option<string>,
    descriptionRomaji: Option<string>,
    imageUrl: Option<string>,
    category: Option<Category>,
    region: Option<Region>)

  datatype FavoritedDishes = FavoritedDishes(dishes: seq<ProfileDish>, numberOfDishes: nat)

  datatype ProfileResponse = ProfileResponse(
    id: nat,
    email: string,
    username: string,
    birthday: Option<int>,
    location: Option<string>,
    avatarUrl: Option<string>,
    registrationDate: int,
    consecutiveLoginDays: Option<nat>,
    favoritedDishes: FavoritedDishes)

  /** The error of the profile lookup, and the database errors editProfile lets through: an
      invalid date, no row with the id, and an email another row holds. */
  datatype ProfileError = UserNotFound | InvalidDate | EmailTaken

  /** The favourite rows refer to existing dishes (the table's foreign key). */
  predicate FavoritesReferToDishes(favorites: seq<Favorites.Favorite>, dishes: map<nat, Dish>) {
    forall f :: f in favorites ==> f.dishId in dishes
  }

  function MapDish(d: Dish, categories: map<nat, Category>, regions: map<nat, Region>): ProfileDish {
    ProfileDish(d.id, d.nameJapanese, d.nameVietnamese, d.nameRomaji, d.descriptionJapanese,
      d.descriptionVietnamese, d.descriptionRomaji, d.imageUrl,
      JoinedCategory(categories, d.categoryId), JoinedRegion(regions, d.regionId))
  }

  /** mapProfileToDto: the row's public fields and one dish per favourite row, in row order. */
  function MapProfileToDto(u: User, favorites: seq<Favorites.Favorite>, dishes: map<nat, Dish>,
                           categories: map<nat, Category>, regions: map<nat, Region>): (r: ProfileResponse)
    requires FavoritesReferToDishes(favorites, dishes)
    ensures (r.id, r.email, r.username, r.birthday, r.location, r.avatarUrl, r.registrationDate, r.consecutiveLoginDays)
         == (u.id, u.email, u.username, u.birthday, u.location, u.avatarUrl, u.registrationDate, u.consecutiveLoginDays)
    ensures r.favoritedDishes.numberOfDishes == |r.favoritedDishes.dishes| == |favorites|
    ensures forall k :: 0 <= k < |favorites| ==>
      var shown := r.favoritedDishes.dishes[k];
      var d := dishes[favorites[k].dishId];
      && shown.id == d.id && shown.nameJapanese == d.nameJapanese && shown.nameVietnamese == d.nameVietnamese
      && (shown.category.Some? <==> d.categoryId.Some? && CategoryExists(categories, d.categoryId.value))
      && (shown.region.Some? <==> d.regionId.Some? && RegionExists(regions, d.regionId.value))
  {
    var favoritedDishes := seq(|favorites|, k requires 0 <= k < |favorites| =>
      assert favorites[k] in favorites;
      MapDish(dishes[favorites[k].dishId], categories, regions));
    ProfileResponse(u.id, u.email, u.username, u.birthday, u.location, u.avatarUrl, u.registrationDate,
      u.consecutiveLoginDays, FavoritedDishes(favoritedDishes, |favoritedDishes|))
  }

  /** getProfile: the row with its favourites, or UserNotFound. */
  function GetProfile(users: map<nat, User>, favorites: seq<Favorites.Favorite>, dishes: map<nat, Dish>,
                      categories: map<nat, Category>, regions: map<nat, Region>, id: nat): (r: Result<ProfileResponse, ProfileError>)
    requires FavoritesReferToDishes(favorites, dishes)
    ensures r.Err? <==> id !in users
    ensures r.Err? ==> r.error == ProfileError.UserNotFound
    ensures r.Ok? ==> r.value.id == users[id].id
                      && r.value.favoritedDishes.numberOfDishes == Count(favorites, Favorites.OfUser(id))
  {
    if id !in users then Err(ProfileError.UserNotFound)
    else
      var mine := Filter(favorites, Favorites.OfUser(id));
      CountIsFilterLength(favorites, Favorites.OfUser(id));
      Ok(MapProfileToDto(users[id], mine, dishes, categories, regions))
  }

  /** The body of an edit. For the nullable columns None is an absent field and Some(None) a JSON
      null; the email is absent or a string. */
  datatype ProfileEdit = ProfileEdit(
    id: nat,
    location: Option<Option<string>>,
    birthday: Option<Option<string>>,
    email: Option<string>,
    avatarUrl: Option<Option<string>>)

  /** The birthday written for a given field: '' is null, null is `new Date(null)`, the epoch, and
      any other text is parsed, an invalid date being refused by the database. */
  function BirthdayValue(b: Option<string>, parseDate: string -> Option<int>): (r: Result<Option<int>, ProfileError>)
    ensures b == Some("") ==> r == Ok(None)
    ensures b.None? ==> r == Ok(Some(0))
    ensures b.Some? && b.value != "" ==> (r.Ok? <==> parseDate(b.value).Some?) && (r.Ok? ==> r.value == parseDate(b.value))
  {
    if b.None? then Ok(Some(0))
    else if b.value == "" then Ok(None)
    else
      var d := parseDate(b.value);
      if d.None? then Err(InvalidDate) else Ok(d)
  }

  /** The row after the edit: each defined field replaces its column. */
  function Edited(u: User, e: ProfileEdit, birthday: Option<Option<int>>): (v: User)
    ensures v.(location := u.location, birthday := u.birthday, email := u.email, avatarUrl := u.avatarUrl) == u
    ensures e.email.None? ==> v.email == u.email
    ensures e.email.Some? ==> v.email == e.email.value
  {
    u.(location := if e.location.Some? then e.location.value else u.location,
       birthday := if birthday.Some? then birthday.value else u.birthday,
       email := if e.email.Some? then e.email.value else u.email,
       avatarUrl := if e.avatarUrl.Some? then e.avatarUrl.value else u.avatarUrl)
  }

  /** editProfile as a function of the table: the error, or the new row. */
  function EditOutcome(users: map<nat, User>, e: ProfileEdit, parseDate: string -> Option<int>): (r: Result<User, ProfileError>)
    ensures r.Ok? ==> e.id in users && r.value.id == users[e.id].id
    ensures r.Ok? && e.email.Some? ==> forall other :: other in users && other != e.id ==> users[other].email != e.email.value
    ensures r == Err(EmailTaken) ==> e.email.Some?
  {
    var birthday := if e.birthday.Some? then BirthdayValue(e.birthday.value, parseDate) else Ok(None);
    if birthday.Err? then Err(InvalidDate)
    else if e.id !in users then Err(ProfileError.UserNotFound)
    else if e.email.Some? && exists other :: other in users && other != e.id && users[other].email == e.email.value then Err(EmailTaken)
    else Ok(Edited(users[e.id], e, if e.birthday.Some? then Some(birthday.value) else None))
  }

  /** An edit writes only location, birthday, email and avatar_url; the row's id, name, password,
      role, dates, streak, token version and reset token stay as they were. */
  lemma EditTouchesOnlyProfileFields(users: map<nat, User>, e: ProfileEdit, parseDate: string -> Option<int>)
    requires EditOutcome(users, e, parseDate).Ok?
    ensures var u := users[e.id];
      var v := EditOutcome(users, e, parseDate).value;
      && v.(location := u.location, birthday := u.birthday, email := u.email, avatarUrl := u.avatarUrl) == u
      && (e.location.None? ==> v.location == u.location)
      && (e.location.Some? ==> v.location == e.location.value)
      && (e.email.None? ==> v.email == u.email)
      && (e.email.Some? ==> v.email == e.email.value)
      && (e.avatarUrl.None? ==> v.avatarUrl == u.avatarUrl)
      && (e.avatarUrl.Some? ==> v.avatarUrl == e.avatarUrl.value)
      && (e.birthday.None? ==> v.birthday == u.birthday)
      && (e.birthday == Some(Some("")) ==> v.birthday.None?)
      && (e.birthday == Some(None) ==> v.birthday == Some(0))
  {
  }

  /** Sending the same edit again changes nothing more. */
  lemma EditIdempotent(users: map<nat, User>, e: ProfileEdit, parseDate: string -> Option<int>)
    requires EditOutcome(users, e, parseDate).Ok?
    ensures var after := users[e.id := EditOutcome(users, e, parseDate).value];
      EditOutcome(after, e, parseDate) == EditOutcome(users, e, parseDate)
  {
    var after := users[e.id := EditOutcome(users, e, parseDate).value];
    if e.email.Some? {
      forall other | other in after && other != e.id ensures after[other].email != e.email.value {
        assert after[other] == users[other];
      }
    }
  }

  /** editProfile: the birthday, the row and the email checked in the service's order, then the
      defined fields written over the row. */
  method EditProfile(store: UserStore, e: ProfileEdit, favorites: seq<Favorites.Favorite>, dishes: map<nat, Dish>,
                     categories: map<nat, Category>, regions: map<nat, Region>) returns (r: Result<ProfileResponse, ProfileError>)
    requires store.Valid() && FavoritesReferToDishes(favorites, dishes)
    modifies store
    ensures store.Valid() && store.nextId == old(store.nextId)
    ensures var outcome := EditOutcome(old(store.users), e, store.parseDate);
      && (r.Ok? <==> outcome.Ok?)
      && (r.Err? ==> r.error == outcome.error && store.users == old(store.users))
      && (r.Ok? ==> store.users == old(store.users)[e.id := outcome.value]
                    && r.value == MapProfileToDto(outcome.value, Filter(favorites, Favorites.OfUser(e.id)), dishes, categories, regions))
  {
    var birthday: Option<Option<int>> := None;
    if e.birthday.Some? {
      var b := BirthdayValue(e.birthday.value, store.parseDate);
      if b.Err? {
        return Err(InvalidDate);
      }
      birthday := Some(b.value);
    }
    if e.id !in store.users {
      return Err(ProfileError.UserNotFound);
    }
    if e.email.Some? {
      var holder := store.FindByEmail(e.email.value);
      if holder.Some? && holder.value != e.id {
        return Err(EmailTaken);
      }
    }
    assert forall other :: other in store.users && other != e.id ==> store.users[other].email != e.email.GetOr(store.users[e.id].email);
    var updated := Edited(store.users[e.id], e, birthday);
    assert EditOutcome(store.users, e, store.parseDate) == Ok(updated);
    ReplaceKeepsEmailsUnique(store.users, e.id, updated);
    store.users := store.users[e.id := updated];
    var mine := Filter(favorites, Favorites.OfUser(e.id));
    return Ok(MapProfileToDto(updated, mine, dishes, categories, regions));
  }
}
