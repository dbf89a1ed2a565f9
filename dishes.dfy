/** The dish catalogue and its moderation workflow (backend/src/dish/dish.service.ts).

    The `dishes`, `categories` and `regions` tables are maps from id to row, owned by a
    `DishTable`. A user submits a dish, which starts `Pending`; only an administrator moves it to
    `Approved` or `Rejected`, and only approved dishes are listed or shown. */
module Dishes {
  import opened Common
  import opened DishDtos
  import Ordering

  datatype Category = Category(id: nat, nameJapanese: string, nameVietnamese: string, slug: string)

  datatype Region = Region(id: nat, nameJapanese: string, nameVietnamese: string, code: string)

  /** A row of the `dishes` table. Times are milliseconds since the epoch. */
  datatype Dish = Dish(
    id: nat,
    nameJapanese: string,
    nameVietnamese: string,
    nameRomaji: Option<string>,
    descriptionJapanese: Option<string>,
    descriptionVietnamese: Option<string>,
    descriptionRomaji: Option<string>,
    imageUrl: Option<string>,
    categoryId: Option<int>,
    regionId: Option<int>,
    spicinessLevel: Option<int>,
    saltinessLevel: Option<int>,
    sweetnessLevel: Option<int>,
    sournessLevel: Option<int>,
    ingredients: Option<string>,
    howToEat: Option<string>,
    status: Status,
    submittedBy: nat,
    submittedAt: int,
    reviewedBy: Option<nat>,
    reviewedAt: Option<int>,
    rejectionReason: Option<string>,
    viewCount: nat)

  datatype DishError =
    | InvalidCategory          // 400 dish.errors.invalid_category
    | InvalidRegion            // 400 dish.errors.invalid_region
    | NameRequired             // 400 dish.errors.name_required
    | DishNotFound             // 404
    | NotSubmitter             // 403: another user's dish
    | NotPending               // 400: an approved or rejected dish is frozen for its submitter
    | StatusChangeForbidden    // 403: only an administrator sets the status
    | RejectionReasonRequired  // 400

  /** The moderation fields agree with the status: a reviewed dish records who reviewed it and
      when, and a rejection reason is present, and non-empty, exactly on a rejected dish. */
  predicate ReviewConsistent(d: Dish) {
    && (d.status != Pending ==> d.reviewedBy.Some? && d.reviewedAt.Some?)
    && (d.status == Rejected <==> d.rejectionReason.Some?)
    && (d.rejectionReason.Some? ==> d.rejectionReason.value != "")
  }

  predicate CategoryExists(categories: map<nat, Category>, c: int) {
    c >= 0 && c as nat in categories
  }

  predicate RegionExists(regions: map<nat, Region>, r: int) {
    r >= 0 && r as nat in regions
  }

  // ---------------------------------------------------------------- createDish

  /** The checks of createDish in their order. A category or region id of 0 is falsy and skips
      its lookup; the names are checked last. */
  function CreateError(dto: CreateDishDto, categories: map<nat, Category>, regions: map<nat, Region>): (e: Option<DishError>)
    ensures e.None? <==>
      && (dto.categoryId.Some? && dto.categoryId.value != 0 ==> CategoryExists(categories, dto.categoryId.value))
      && (dto.regionId.Some? && dto.regionId.value != 0 ==> RegionExists(regions, dto.regionId.value))
      && Required(dto.nameJapanese) && Required(dto.nameVietnamese)
  {
    if dto.categoryId.Some? && dto.categoryId.value != 0 && !CategoryExists(categories, dto.categoryId.value) then
      Some(InvalidCategory)
    else if dto.regionId.Some? && dto.regionId.value != 0 && !RegionExists(regions, dto.regionId.value) then
      Some(InvalidRegion)
    else if !Required(dto.nameJapanese) || !Required(dto.nameVietnamese) then
      Some(NameRequired)
    else
      None
  }

  /** A request that passed CreateDishDto's validation is never refused for a missing name; it
      can only be refused for a category or region that does not exist. */
  lemma ValidatedCreateHasNames(dto: CreateDishDto, isUrl: string -> bool, categories: map<nat, Category>, regions: map<nat, Region>)
    requires ValidCreate(dto, isUrl)
    ensures CreateError(dto, categories, regions) != Some(NameRequired)
    ensures CreateError(dto, categories, regions).None? <==>
      && (dto.categoryId.Some? && dto.categoryId.value != 0 ==> CategoryExists(categories, dto.categoryId.value))
      && (dto.regionId.Some? && dto.regionId.value != 0 ==> RegionExists(regions, dto.regionId.value))
  {
  }

  /** As written: `image_url: imageUrl || null` after `...createDishDto`, so the body's own
      `image_url` is always overwritten, and the controller never passes `imageUrl`. */
  function StoredImageUrlAsWritten(imageUrl: Option<string>, bodyUrl: Option<string>): (r: Option<string>)
    ensures r.Some? <==> imageUrl.Some? && imageUrl.value != ""
    ensures r.Some? ==> r == imageUrl
  {
    OrElse(imageUrl, None)
  }

  /** The URL a client uploaded first and then sent in the body is lost. */
  lemma BodyImageUrlIsDropped(url: string)
    requires url != ""
    ensures StoredImageUrlAsWritten(None, Some(url)) == None
  {
  }

  /** Corrected: the URL the caller passes wins, otherwise the body's `image_url`; '' is null. */
  function StoredImageUrl(imageUrl: Option<string>, bodyUrl: Option<string>): (r: Option<string>)
    ensures r.Some? ==> r.value != "" && (r == imageUrl || r == bodyUrl)
    ensures imageUrl.Some? && imageUrl.value != "" ==> r == imageUrl
    ensures (imageUrl.None? || imageUrl.value == "") && bodyUrl.Some? && bodyUrl.value != "" ==> r == bodyUrl
    ensures r.None? <==> (imageUrl.None? || imageUrl.value == "") && (bodyUrl.None? || bodyUrl.value == "")
  {
    OrElse(imageUrl, OrElse(bodyUrl, None))
  }

  /** The row createDish inserts: the request's fields, submitted by `userId` at `now`, pending,
      with `image_url: imageUrl || null` written over the body's own image_url. */
  function NewDish(dto: CreateDishDto, id: nat, userId: nat, imageUrl: Option<string>, now: int): (d: Dish)
    requires dto.nameJapanese.Some? && dto.nameVietnamese.Some?
    ensures d.id == id && d.nameJapanese == dto.nameJapanese.value && d.nameVietnamese == dto.nameVietnamese.value
    ensures (d.categoryId, d.regionId) == (dto.categoryId, dto.regionId)
    ensures d.status == Pending && d.submittedBy == userId && d.submittedAt == now && d.viewCount == 0
    ensures d.reviewedBy.None? && d.reviewedAt.None? && d.rejectionReason.None?
    ensures d.imageUrl == StoredImageUrlAsWritten(imageUrl, dto.imageUrl)
  {
    Dish(id, dto.nameJapanese.value, dto.nameVietnamese.value, dto.nameRomaji,
         dto.descriptionJapanese, dto.descriptionVietnamese, dto.descriptionRomaji,
         StoredImageUrlAsWritten(imageUrl, dto.imageUrl), dto.categoryId, dto.regionId,
         dto.spicinessLevel, dto.saltinessLevel, dto.sweetnessLevel, dto.sournessLevel,
         dto.ingredients, dto.howToEat, Pending, userId, now, None, None, None, 0)
  }

  /** A new submission is an unreviewed pending dish of its submitter. Its image is the caller's
      non-empty `imageUrl` or null, whatever image_url the body carries. */
  lemma NewDishIsUnreviewed(dto: CreateDishDto, id: nat, userId: nat, imageUrl: Option<string>, now: int)
    requires dto.nameJapanese.Some? && dto.nameVietnamese.Some?
    ensures var d := NewDish(dto, id, userId, imageUrl, now);
      && ReviewConsistent(d) && d.status == Pending && d.submittedBy == userId && d.submittedAt == now
      && d.reviewedBy.None? && d.reviewedAt.None? && d.rejectionReason.None? && d.viewCount == 0
      && (d.imageUrl.Some? <==> imageUrl.Some? && imageUrl.value != "")
      && (d.imageUrl.Some? ==> d.imageUrl == imageUrl)
    ensures forall bodyUrl :: NewDish(dto.(imageUrl := bodyUrl), id, userId, imageUrl, now) ==
                              NewDish(dto, id, userId, imageUrl, now)
  {
  }

  /** Corrected: the row inserted when the body's image_url is kept as StoredImageUrl says. */
  function NewDishCorrected(dto: CreateDishDto, id: nat, userId: nat, imageUrl: Option<string>, now: int): Dish
    requires dto.nameJapanese.Some? && dto.nameVietnamese.Some?
  {
    NewDish(dto, id, userId, imageUrl, now).(imageUrl := StoredImageUrl(imageUrl, dto.imageUrl))
  }

  /** Corrected: a submission keeps an image uploaded first and then sent in the body. */
  lemma CorrectedCreateKeepsBodyImage(dto: CreateDishDto, id: nat, userId: nat, now: int)
    requires dto.nameJapanese.Some? && dto.nameVietnamese.Some?
    requires dto.imageUrl.Some? && dto.imageUrl.value != ""
    ensures NewDishCorrected(dto, id, userId, None, now).imageUrl == dto.imageUrl
    ensures NewDish(dto, id, userId, None, now).imageUrl.None?
  {
  }

  /** The columns createDish's `select` returns. */
  datatype CreatedDish = CreatedDish(id: nat, nameJapanese: string, nameVietnamese: string, status: Status,
                                     submittedAt: int, imageUrl: Option<string>)

  function CreateSelection(d: Dish): CreatedDish {
    CreatedDish(d.id, d.nameJapanese, d.nameVietnamese, d.status, d.submittedAt, d.imageUrl)
  }

  // ---------------------------------------------------------------- updateDishSubmission

  /** The review columns: reviewed_by, reviewed_at and rejection_reason. */
  datatype Moderation = Moderation(reviewedBy: Option<nat>, reviewedAt: Option<int>, rejectionReason: Option<string>)

  /** The columns updateDishSubmission's `select` returns; `moderation` only on the review path. */
  datatype UpdatedDish = UpdatedDish(
    id: nat,
    nameJapanese: string,
    nameVietnamese: string,
    nameRomaji: Option<string>,
    descriptionJapanese: Option<string>,
    descriptionVietnamese: Option<string>,
    descriptionRomaji: Option<string>,
    imageUrl: Option<string>,
    categoryId: Option<int>,
    regionId: Option<int>,
    spicinessLevel: Option<int>,
    saltinessLevel: Option<int>,
    sweetnessLevel: Option<int>,
    sournessLevel: Option<int>,
    ingredients: Option<string>,
    howToEat: Option<string>,
    status: Status,
    moderation: Option<Moderation>,
    submittedAt: int)

  function UpdateSelection(d: Dish, reviewed: bool): UpdatedDish {
    UpdatedDish(d.id, d.nameJapanese, d.nameVietnamese, d.nameRomaji, d.descriptionJapanese,
                d.descriptionVietnamese, d.descriptionRomaji, d.imageUrl, d.categoryId, d.regionId,
                d.spicinessLevel, d.saltinessLevel, d.sweetnessLevel, d.sournessLevel,
                d.ingredients, d.howToEat, d.status,
                if reviewed then Some(Moderation(d.reviewedBy, d.reviewedAt, d.rejectionReason)) else None,
                d.submittedAt)
  }

  function Pick<T>(given: Option<T>, current: Option<T>): Option<T> {
    if given.Some? then given else current
  }

  /** `...otherFields`: every field the request carries, other than category, region, status and
      rejection reason, replaces the row's. */
  function ApplyOtherFields(d: Dish, dto: UpdateDishDto): Dish {
    d.(nameJapanese := dto.nameJapanese.GetOr(d.nameJapanese),
       nameVietnamese := dto.nameVietnamese.GetOr(d.nameVietnamese),
       nameRomaji := Pick(dto.nameRomaji, d.nameRomaji),
       descriptionJapanese := Pick(dto.descriptionJapanese, d.descriptionJapanese),
       descriptionVietnamese := Pick(dto.descriptionVietnamese, d.descriptionVietnamese),
       descriptionRomaji := Pick(dto.descriptionRomaji, d.descriptionRomaji),
       imageUrl := Pick(dto.imageUrl, d.imageUrl),
       spicinessLevel := Pick(dto.spicinessLevel, d.spicinessLevel),
       saltinessLevel := Pick(dto.saltinessLevel, d.saltinessLevel),
       sweetnessLevel := Pick(dto.sweetnessLevel, d.sweetnessLevel),
       sournessLevel := Pick(dto.sournessLevel, d.sournessLevel),
       ingredients := Pick(dto.ingredients, d.ingredients),
       howToEat := Pick(dto.howToEat, d.howToEat))
  }

  function ApplyRefs(d: Dish, dto: UpdateDishDto): Dish {
    d.(categoryId := Pick(dto.categoryId, d.categoryId), regionId := Pick(dto.regionId, d.regionId))
  }

  /** An administrator sending a status other than the current one is reviewing the dish. */
  predicate IsReview(d: Dish, dto: UpdateDishDto, userRole: string) {
    userRole == "admin" && dto.status.Some? && dto.status.value != d.status
  }

  /** The category, then the region, the request names must exist. */
  function RefsError(dto: UpdateDishDto, categories: map<nat, Category>, regions: map<nat, Region>): Option<DishError> {
    if dto.categoryId.Some? && !CategoryExists(categories, dto.categoryId.value) then Some(InvalidCategory)
    else if dto.regionId.Some? && !RegionExists(regions, dto.regionId.value) then Some(InvalidRegion)
    else None
  }

  /** What updateDishSubmission answers, and the row it stores when it succeeds. */
  function UpdateOutcome(dishes: map<nat, Dish>, categories: map<nat, Category>, regions: map<nat, Region>,
                         id: nat, dto: UpdateDishDto, userId: nat, userRole: string, now: int): (r: Result<Dish, DishError>)
    ensures id !in dishes ==> r == Err(DishNotFound)
    ensures r.Ok? ==> id in dishes && r.value.id == dishes[id].id && r.value.submittedBy == dishes[id].submittedBy
                      && r.value.submittedAt == dishes[id].submittedAt && r.value.viewCount == dishes[id].viewCount
    ensures r.Ok? && userRole != "admin" ==> r.value.status == dishes[id].status == Pending
  {
    if id !in dishes then Err(DishNotFound)
    else
      var d := dishes[id];
      if userRole != "admin" && d.submittedBy != userId then Err(NotSubmitter)
      else if userRole != "admin" && d.status != Pending then Err(NotPending)
      else if userRole != "admin" && dto.status.Some? then Err(StatusChangeForbidden)
      else if IsReview(d, dto, userRole) then
        var s := dto.status.value;
        if s == Rejected && (dto.rejectionReason.None? || dto.rejectionReason.value == "") then
          Err(RejectionReasonRequired)
        else if RefsError(dto, categories, regions).Some? then
          Err(RefsError(dto, categories, regions).value)
        else
          Ok(ApplyRefs(ApplyOtherFields(d, dto), dto).(
               status := s, reviewedBy := Some(userId), reviewedAt := Some(now),
               rejectionReason := if s == Rejected then dto.rejectionReason else None))
      else if RefsError(dto, categories, regions).Some? then
        Err(RefsError(dto, categories, regions).value)
      else
        Ok(ApplyRefs(ApplyOtherFields(d, dto), dto))
  }

  /** A user other than an administrator edits only their own pending dish, cannot touch its
      status, and the dish stays pending and unreviewed-as-it-was. */
  lemma UserEditsOnlyOwnPending(dishes: map<nat, Dish>, categories: map<nat, Category>, regions: map<nat, Region>,
                                id: nat, dto: UpdateDishDto, userId: nat, userRole: string, now: int)
    requires userRole != "admin"
    requires UpdateOutcome(dishes, categories, regions, id, dto, userId, userRole, now).Ok?
    ensures id in dishes && dishes[id].submittedBy == userId && dishes[id].status == Pending && dto.status.None?
    ensures var d := UpdateOutcome(dishes, categories, regions, id, dto, userId, userRole, now).value;
      d.status == Pending && d.reviewedBy == dishes[id].reviewedBy && d.reviewedAt == dishes[id].reviewedAt
      && d.rejectionReason == dishes[id].rejectionReason
  {
  }

  /** A review records the new status, the reviewer and the time; a rejection keeps the reason
      sent, any other outcome clears it. */
  lemma ReviewStampsReviewer(dishes: map<nat, Dish>, categories: map<nat, Category>, regions: map<nat, Region>,
                             id: nat, dto: UpdateDishDto, userId: nat, userRole: string, now: int)
    requires id in dishes && IsReview(dishes[id], dto, userRole)
    requires UpdateOutcome(dishes, categories, regions, id, dto, userId, userRole, now).Ok?
    ensures var d := UpdateOutcome(dishes, categories, regions, id, dto, userId, userRole, now).value;
      && d.status == dto.status.value && d.reviewedBy == Some(userId) && d.reviewedAt == Some(now)
      && (d.status == Rejected ==> d.rejectionReason == dto.rejectionReason && dto.rejectionReason.value != "")
      && (d.status != Rejected ==> d.rejectionReason.None?)
  {
  }

  /** Rejecting without a reason is refused before anything else about the request is looked at. */
  lemma RejectionNeedsReason(dishes: map<nat, Dish>, categories: map<nat, Category>, regions: map<nat, Region>,
                             id: nat, dto: UpdateDishDto, userId: nat, now: int)
    requires id in dishes && dishes[id].status != Rejected
    requires dto.status == Some(Rejected) && (dto.rejectionReason.None? || dto.rejectionReason.value == "")
    ensures UpdateOutcome(dishes, categories, regions, id, dto, userId, "admin", now) == Err(RejectionReasonRequired)
  {
  }

  /** Outside a review the moderation fields never change, and every other field is the request's
      when it carries one, the row's otherwise. */
  lemma EditKeepsModeration(dishes: map<nat, Dish>, categories: map<nat, Category>, regions: map<nat, Region>,
                            id: nat, dto: UpdateDishDto, userId: nat, userRole: string, now: int)
    requires id in dishes && !IsReview(dishes[id], dto, userRole)
    requires UpdateOutcome(dishes, categories, regions, id, dto, userId, userRole, now).Ok?
    ensures var old_ := dishes[id];
      var d := UpdateOutcome(dishes, categories, regions, id, dto, userId, userRole, now).value;
      && d.id == old_.id && d.status == old_.status && d.reviewedBy == old_.reviewedBy
      && d.reviewedAt == old_.reviewedAt && d.rejectionReason == old_.rejectionReason
      && d.submittedBy == old_.submittedBy && d.submittedAt == old_.submittedAt && d.viewCount == old_.viewCount
      && d.nameJapanese == dto.nameJapanese.GetOr(old_.nameJapanese)
      && d.categoryId == (if dto.categoryId.Some? then dto.categoryId else old_.categoryId)
      && d.regionId == (if dto.regionId.Some? then dto.regionId else old_.regionId)
      && d.spicinessLevel == (if dto.spicinessLevel.Some? then dto.spicinessLevel else old_.spicinessLevel)
  {
  }

  /** An administrator resending the current status is making a plain edit: the status and the
      rejection reason in the request are ignored. */
  lemma SameStatusIsPlainEdit(dishes: map<nat, Dish>, categories: map<nat, Category>, regions: map<nat, Region>,
                              id: nat, dto: UpdateDishDto, userId: nat, now: int)
    requires id in dishes && dto.status == Some(dishes[id].status)
    ensures UpdateOutcome(dishes, categories, regions, id, dto, userId, "admin", now)
         == UpdateOutcome(dishes, categories, regions, id, dto.(status := None, rejectionReason := None), userId, "admin", now)
  {
  }

  /** Every successful update keeps the moderation fields consistent with the status. */
  lemma UpdateKeepsReviewConsistent(dishes: map<nat, Dish>, categories: map<nat, Category>, regions: map<nat, Region>,
                                    id: nat, dto: UpdateDishDto, userId: nat, userRole: string, now: int)
    requires id in dishes && ReviewConsistent(dishes[id])
    requires UpdateOutcome(dishes, categories, regions, id, dto, userId, userRole, now).Ok?
    ensures ReviewConsistent(UpdateOutcome(dishes, categories, regions, id, dto, userId, userRole, now).value)
    ensures UpdateOutcome(dishes, categories, regions, id, dto, userId, userRole, now).value.id == dishes[id].id
  {
  }

  // ---------------------------------------------------------------- list

  datatype Taste = Spicy | Salty | Sweet | Sour

  function TasteName(t: Taste): string {
    match t
    case Spicy => "spicy"
    case Salty => "salty"
    case Sweet => "sweet"
    case Sour => "sour"
  }

  function Level(d: Dish, t: Taste): Option<int> {
    match t
    case Spicy => d.spicinessLevel
    case Salty => d.saltinessLevel
    case Sweet => d.sweetnessLevel
    case Sour => d.sournessLevel
  }

  /** The taste conditions a request asks for, each once, in the order spicy, salty, sweet, sour. */
  function TasteFilters(taste: Option<seq<string>>): (r: seq<Taste>)
    ensures forall t :: t in r <==> taste.Some? && TasteName(t) in taste.value
    ensures forall i, j :: 0 <= i < j < |r| ==> r[i] != r[j]
  {
    var has := (t: Taste) => taste.Some? && TasteName(t) in taste.value;
    (if has(Spicy) then [Spicy] else []) + (if has(Salty) then [Salty] else [])
    + (if has(Sweet) then [Sweet] else []) + (if has(Sour) then [Sour] else [])
  }

  /** `{ <level>: { gte: 5 } }` for every requested taste; a null level never matches. */
  predicate MatchesTastes(d: Dish, tastes: seq<Taste>) {
    forall t :: t in tastes ==> Level(d, t).Some? && Level(d, t).value >= 5
  }

  datatype ListQuery = ListQuery(
    search: Option<string>,
    category: Option<seq<string>>,
    region: Option<seq<string>>,
    taste: Option<seq<string>>,
    sort: Option<string>,
    page: Option<nat>,
    limit: Option<nat>)

  /** `query.page ? Number(query.page) : 1`: an absent or zero page is page 1. */
  function PageOf(q: ListQuery): (p: nat)
    ensures p >= 1
    ensures q.page.Some? && q.page.value != 0 ==> p == q.page.value
  {
    if q.page.Some? && q.page.value != 0 then q.page.value else 1
  }

  function LimitOf(q: ListQuery): (l: nat)
    ensures l >= 1
    ensures q.limit.Some? && q.limit.value != 0 ==> l == q.limit.value
  {
    if q.limit.Some? && q.limit.value != 0 then q.limit.value else 20
  }

  /** The ids of the categories whose slug is listed, when the list is non-empty. */
  function CategoryIds(categories: map<nat, Category>, slugs: Option<seq<string>>): (r: Option<set<nat>>)
    ensures r.Some? <==> slugs.Some? && |slugs.value| > 0
    ensures r.Some? ==> forall id :: id in r.value <==> id in categories && categories[id].slug in slugs.value
  {
    if slugs.Some? && |slugs.value| > 0 then Some(set id | id in categories && categories[id].slug in slugs.value) else None
  }

  function RegionIds(regions: map<nat, Region>, codes: Option<seq<string>>): (r: Option<set<nat>>)
    ensures r.Some? <==> codes.Some? && |codes.value| > 0
    ensures r.Some? ==> forall id :: id in r.value <==> id in regions && regions[id].code in codes.value
  {
    if codes.Some? && |codes.value| > 0 then Some(set id | id in regions && regions[id].code in codes.value) else None
  }

  predicate RefIn(ref: Option<int>, ids: Option<set<nat>>) {
    ids.None? || (ref.Some? && ref.value >= 0 && ref.value as nat in ids.value)
  }

  /** The `where` of both the page query and the count: approved, the search text contained
      (case-sensitively) in the Japanese or the Vietnamese name, the category and region among
      those named, and every requested taste at level 5 or more. */
  predicate Listed(d: Dish, search: Option<string>, categoryIds: Option<set<nat>>, regionIds: Option<set<nat>>, tastes: seq<Taste>) {
    && d.status == Approved
    && (search.Some? && search.value != "" ==> Contains(d.nameJapanese, search.value) || Contains(d.nameVietnamese, search.value))
    && RefIn(d.categoryId, categoryIds)
    && RefIn(d.regionId, regionIds)
    && MatchesTastes(d, tastes)
  }

  function ListFilter(categories: map<nat, Category>, regions: map<nat, Region>, q: ListQuery): Dish -> bool {
    var categoryIds := CategoryIds(categories, q.category);
    var regionIds := RegionIds(regions, q.region);
    var tastes := TasteFilters(q.taste);
    (d: Dish) => Listed(d, q.search, categoryIds, regionIds, tastes)
  }

  /** The rows with an id below n that satisfy p, in id order. */
  function Selected(dishes: map<nat, Dish>, n: nat, p: Dish -> bool): seq<Dish> {
    if n == 0 then [] else Selected(dishes, n - 1, p) + (if n - 1 in dishes && p(dishes[n - 1]) then [dishes[n - 1]] else [])
  }

  /** Selected holds exactly the rows with an id below n that satisfy p, each once. */
  lemma {:induction false} SelectedExactly(dishes: map<nat, Dish>, n: nat, p: Dish -> bool)
    requires forall id :: id in dishes ==> dishes[id].id == id
    ensures forall d :: d in Selected(dishes, n, p) ==> p(d) && d.id < n && d.id in dishes && dishes[d.id] == d
    ensures forall id :: id < n && id in dishes && p(dishes[id]) ==> dishes[id] in Selected(dishes, n, p)
    ensures forall i, j :: 0 <= i < j < |Selected(dishes, n, p)| ==> Selected(dishes, n, p)[i].id < Selected(dishes, n, p)[j].id
  {
    if n > 0 {
      SelectedExactly(dishes, n - 1, p);
    }
  }

  /** The sort order: `popular` is most viewed first, anything else is most recently reviewed first. */
  function SortKey(sort: Option<string>): Dish -> int {
    if sort == Some("popular") then (d: Dish) => d.viewCount
    else (d: Dish) => d.reviewedAt.GetOr(0)
  }

  /** The rows of the requested page: all matches, sorted, after skipping the earlier pages. */
  function PageRows(matches: seq<Dish>, q: ListQuery): seq<Dish> {
    Ordering.Window(matches, Skip(PageOf(q), LimitOf(q)), LimitOf(q), SortKey(q.sort))
  }

  /** The rows of the pages before page `page`. */
  function Skip(page: nat, limit: nat): nat
    requires page >= 1
  {
    (page - 1) * limit
  }

  /** A page holds at most `limit` rows, all of them matches, sorted by the requested key. */
  lemma PageRowsAreSortedMatches(matches: seq<Dish>, q: ListQuery)
    ensures |PageRows(matches, q)| <= LimitOf(q)
    ensures forall d :: d in PageRows(matches, q) ==> d in matches
    ensures Ordering.SortedDesc(PageRows(matches, q), SortKey(q.sort))
  {
    Ordering.SortedWindow(matches, Skip(PageOf(q), LimitOf(q)), LimitOf(q), SortKey(q.sort));
  }

  /** `Math.ceil(total / limit)`: the fewest pages of `limit` rows that hold `total` rows. */
  function TotalPages(total: nat, limit: nat): (pages: nat)
    requires limit > 0
    ensures pages * limit >= total
    ensures pages > 0 ==> (pages - 1) * limit < total
  {
    if total == 0 then 0 else 1 + TotalPages(if total <= limit then 0 else total - limit, limit)
  }

  datatype Named = Named(id: nat, nameJapanese: string, nameVietnamese: string)

  /** DishResponseDto. The submitter's username is represented by the submitter's id. */
  datatype DishResponse = DishResponse(
    id: nat,
    nameJapanese: string,
    nameVietnamese: string,
    nameRomaji: Option<string>,
    descriptionJapanese: Option<string>,
    descriptionVietnamese: Option<string>,
    descriptionRomaji: Option<string>,
    imageUrl: Option<string>,
    submitter: nat,
    category: Option<Named>,
    region: Option<Named>,
    spicinessLevel: Option<int>,
    saltinessLevel: Option<int>,
    sweetnessLevel: Option<int>,
    sournessLevel: Option<int>,
    ingredients: string,
    howToEat: string,
    viewCount: nat,
    submittedAt: int,
    reviewedAt: Option<int>)

  /** The category a dish's reference joins to; none for a missing or dangling reference. */
  function JoinedCategory(categories: map<nat, Category>, ref: Option<int>): (c: Option<Category>)
    ensures c.Some? <==> ref.Some? && CategoryExists(categories, ref.value)
    ensures c.Some? ==> c.value == categories[ref.value as nat]
  {
    if ref.Some? && CategoryExists(categories, ref.value) then Some(categories[ref.value as nat]) else None
  }

  function JoinedRegion(regions: map<nat, Region>, ref: Option<int>): (r: Option<Region>)
    ensures r.Some? <==> ref.Some? && RegionExists(regions, ref.value)
    ensures r.Some? ==> r.value == regions[ref.value as nat]
  {
    if ref.Some? && RegionExists(regions, ref.value) then Some(regions[ref.value as nat]) else None
  }

  function CategoryOf(categories: map<nat, Category>, ref: Option<int>): Option<Named> {
    if ref.Some? && CategoryExists(categories, ref.value) then
      var c := categories[ref.value as nat]; Some(Named(c.id, c.nameJapanese, c.nameVietnamese))
    else None
  }

  function RegionOf(regions: map<nat, Region>, ref: Option<int>): Option<Named> {
    if ref.Some? && RegionExists(regions, ref.value) then
      var r := regions[ref.value as nat]; Some(Named(r.id, r.nameJapanese, r.nameVietnamese))
    else None
  }

  /** The public view of a dish; a missing ingredients or how-to-eat text becomes ''. */
  function ToResponse(d: Dish, categories: map<nat, Category>, regions: map<nat, Region>): (r: DishResponse)
    ensures r.id == d.id && r.nameJapanese == d.nameJapanese && r.nameVietnamese == d.nameVietnamese
    ensures r.ingredients == d.ingredients.GetOr("") && r.howToEat == d.howToEat.GetOr("")
    ensures r.category.Some? <==> d.categoryId.Some? && CategoryExists(categories, d.categoryId.value)
    ensures r.region.Some? <==> d.regionId.Some? && RegionExists(regions, d.regionId.value)
  {
    DishResponse(d.id, d.nameJapanese, d.nameVietnamese, d.nameRomaji, d.descriptionJapanese,
                 d.descriptionVietnamese, d.descriptionRomaji, d.imageUrl, d.submittedBy,
                 CategoryOf(categories, d.categoryId), RegionOf(regions, d.regionId),
                 d.spicinessLevel, d.saltinessLevel, d.sweetnessLevel, d.sournessLevel,
                 d.ingredients.GetOr(""), d.howToEat.GetOr(""), d.viewCount, d.submittedAt, d.reviewedAt)
  }

  function Responses(rows: seq<Dish>, categories: map<nat, Category>, regions: map<nat, Region>): (r: seq<DishResponse>)
    ensures |r| == |rows|
    ensures forall i :: 0 <= i < |rows| ==> r[i] == ToResponse(rows[i], categories, regions)
  {
    seq(|rows|, i requires 0 <= i < |rows| => ToResponse(rows[i], categories, regions))
  }

  datatype Page = Page(data: seq<DishResponse>, page: nat, limit: nat, total: nat, totalPages: nat)

  // ---------------------------------------------------------------- the table

  class DishTable {
    var dishes: map<nat, Dish>
    var categories: map<nat, Category>
    var regions: map<nat, Region>
    /** The id the next inserted dish receives (the table's autoincrement). */
    var nextId: nat

    ghost predicate Valid()
      reads this
    {
      forall id :: id in dishes ==> id < nextId && dishes[id].id == id && ReviewConsistent(dishes[id])
    }

    constructor (categories: map<nat, Category>, regions: map<nat, Region>)
      ensures Valid()
      ensures this.dishes == map[] && this.categories == categories && this.regions == regions && nextId == 1
    {
      this.dishes := map[];
      this.categories := categories;
      this.regions := regions;
      this.nextId := 1;
    }

    /** POST /dishes: validate the references and names, then insert a pending dish. */
    method CreateDish(dto: CreateDishDto, userId: nat, imageUrl: Option<string>, now: int) returns (r: Result<CreatedDish, DishError>)
      requires Valid()
      modifies this
      ensures Valid()
      ensures categories == old(categories) && regions == old(regions)
      ensures r.Err? <==> CreateError(dto, categories, regions).Some?
      ensures r.Err? ==> r.error == CreateError(dto, categories, regions).value
                         && dishes == old(dishes) && nextId == old(nextId)
      ensures r.Ok? ==> && dto.nameJapanese.Some? && dto.nameVietnamese.Some?
                        && dishes == old(dishes)[old(nextId) := NewDish(dto, old(nextId), userId, imageUrl, now)]
                        && r.value == CreateSelection(dishes[old(nextId)]) && nextId == old(nextId) + 1
    {
      if dto.categoryId.Some? && dto.categoryId.value != 0 && !CategoryExists(categories, dto.categoryId.value) {
        return Err(InvalidCategory);
      }
      if dto.regionId.Some? && dto.regionId.value != 0 && !RegionExists(regions, dto.regionId.value) {
        return Err(InvalidRegion);
      }
      if !Required(dto.nameJapanese) || !Required(dto.nameVietnamese) {
        return Err(NameRequired);
      }
      var dish := NewDish(dto, nextId, userId, imageUrl, now);
      NewDishIsUnreviewed(dto, nextId, userId, imageUrl, now);
      dishes := dishes[nextId := dish];
      nextId := nextId + 1;
      return Ok(CreateSelection(dish));
    }

    /** PATCH of a submission: the owner edits a pending dish, an administrator edits or reviews any. */
    /** PATCH of a submission: its answer is the `select` of the path taken, never the submitter
        or the view count, and the review columns only after a review. */
    method UpdateDishSubmission(id: nat, dto: UpdateDishDto, userId: nat, userRole: string, now: int)
      returns (r: Result<UpdatedDish, DishError>)
      requires Valid()
      modifies this
      ensures Valid()
      ensures categories == old(categories) && regions == old(regions) && nextId == old(nextId)
      ensures var o := UpdateOutcome(old(dishes), categories, regions, id, dto, userId, userRole, now);
        && (o.Ok? ==> dishes == old(dishes)[id := o.value]
                      && r == Ok(UpdateSelection(o.value, IsReview(old(dishes)[id], dto, userRole))))
        && (o.Err? ==> dishes == old(dishes) && r == Err(o.error))
      ensures r.Ok? ==> id in old(dishes) && r.value.id == id
      ensures r.Ok? ==> (r.value.moderation.Some? <==> IsReview(old(dishes)[id], dto, userRole))
      ensures r.Ok? && IsReview(old(dishes)[id], dto, userRole) ==>
                r.value.moderation == Some(Moderation(Some(userId), Some(now),
                                            if dto.status.value == Rejected then dto.rejectionReason else None))
    {
      var reviewed := id in dishes && IsReview(dishes[id], dto, userRole);
      var o := ApplyUpdate(id, dto, userId, userRole, now);
      if o.Ok? {
        if reviewed {
          ReviewStampsReviewer(old(dishes), categories, regions, id, dto, userId, userRole, now);
        }
        return Ok(UpdateSelection(o.value, reviewed));
      }
      return Err(o.error);
    }

    /** The write of updateDishSubmission: the row it stores, or the reason it refuses. */
    method ApplyUpdate(id: nat, dto: UpdateDishDto, userId: nat, userRole: string, now: int)
      returns (r: Result<Dish, DishError>)
      requires Valid()
      modifies this
      ensures Valid()
      ensures categories == old(categories) && regions == old(regions) && nextId == old(nextId)
      ensures r == UpdateOutcome(old(dishes), categories, regions, id, dto, userId, userRole, now)
      ensures r.Ok? ==> dishes == old(dishes)[id := r.value]
      ensures r.Err? ==> dishes == old(dishes)
    {
      if id !in dishes {
        return Err(DishNotFound);
      }
      var existing := dishes[id];
      var isAdmin := userRole == "admin";
      if !isAdmin {
        if existing.submittedBy != userId {
          return Err(NotSubmitter);
        }
        if existing.status != Pending {
          return Err(NotPending);
        }
        if dto.status.Some? {
          return Err(StatusChangeForbidden);
        }
      }
      var updateData := ApplyOtherFields(existing, dto);
      if isAdmin && dto.status.Some? && dto.status.value != existing.status {
        var status := dto.status.value;
        updateData := updateData.(status := status, reviewedBy := Some(userId), reviewedAt := Some(now));
        if status == Rejected {
          if dto.rejectionReason.None? || dto.rejectionReason.value == "" {
            return Err(RejectionReasonRequired);
          }
          updateData := updateData.(rejectionReason := dto.rejectionReason);
        } else {
          updateData := updateData.(rejectionReason := None);
        }
      }
      if dto.categoryId.Some? {
        if !CategoryExists(categories, dto.categoryId.value) {
          return Err(InvalidCategory);
        }
        updateData := updateData.(categoryId := dto.categoryId);
      }
      if dto.regionId.Some? {
        if !RegionExists(regions, dto.regionId.value) {
          return Err(InvalidRegion);
        }
        updateData := updateData.(regionId := dto.regionId);
      }
      UpdateKeepsReviewConsistent(dishes, categories, regions, id, dto, userId, userRole, now);
      dishes := dishes[id := updateData];
      return Ok(updateData);
    }

    /** DELETE of a submission: only its submitter may delete it, whatever their role. */
    method DeleteDishSubmission(id: nat, userId: nat, userRole: string) returns (r: Result<nat, DishError>)
      requires Valid()
      modifies this
      ensures Valid()
      ensures categories == old(categories) && regions == old(regions) && nextId == old(nextId)
      ensures r.Ok? <==> id in old(dishes) && old(dishes)[id].submittedBy == userId
      ensures r.Ok? ==> r.value == id && dishes == old(dishes) - {id}
      ensures r.Err? ==> dishes == old(dishes)
                         && r.error == (if id !in old(dishes) then DishNotFound else NotSubmitter)
    {
      if id !in dishes {
        return Err(DishNotFound);
      }
      if dishes[id].submittedBy != userId {
        return Err(NotSubmitter);
      }
      dishes := dishes - {id};
      return Ok(id);
    }

    /** `view_count: { increment: 1 }` on one dish. */
    method IncrementViewCount(id: nat)
      requires Valid() && id in dishes
      modifies this
      ensures Valid()
      ensures categories == old(categories) && regions == old(regions) && nextId == old(nextId)
      ensures dishes == old(dishes)[id := old(dishes)[id].(viewCount := old(dishes)[id].viewCount + 1)]
    {
      dishes := dishes[id := dishes[id].(viewCount := dishes[id].viewCount + 1)];
    }

    /** GET /dishes/:id: only an approved dish is visible. */
    function GetById(dishId: nat): (r: Result<DishResponse, DishError>)
      reads this
      ensures r.Ok? <==> dishId in dishes && dishes[dishId].status == Approved
      ensures r.Ok? ==> r.value == ToResponse(dishes[dishId], categories, regions)
      ensures r.Err? ==> r.error == DishNotFound
    {
      if dishId in dishes && dishes[dishId].status == Approved then Ok(ToResponse(dishes[dishId], categories, regions))
      else Err(DishNotFound)
    }

    /** The approved dishes matching a list request, in id order. */
    function Matches(q: ListQuery): seq<Dish>
      reads this
    {
      Selected(dishes, nextId, ListFilter(categories, regions, q))
    }

    /** GET /dishes: the requested page of matching approved dishes, with the match count. */
    method List(q: ListQuery) returns (r: Page)
      requires Valid()
      ensures r.page == PageOf(q) && r.limit == LimitOf(q)
      ensures r.total == |Matches(q)|
      ensures r.data == Responses(PageRows(Matches(q), q), categories, regions)
      ensures r.totalPages == TotalPages(r.total, r.limit)
    {
      var matched := Collect(ListFilter(categories, regions, q));
      var total := |matched|;
      var limit := LimitOf(q);
      r := Page(Responses(PageRows(matched, q), categories, regions), PageOf(q), limit, total, TotalPages(total, limit));
    }

    /** The scan behind the list query: the rows satisfying p, in id order. */
    method Collect(p: Dish -> bool) returns (matched: seq<Dish>)
      ensures matched == Selected(dishes, nextId, p)
    {
      matched := [];
      var i: nat := 0;
      while i < nextId
        invariant i <= nextId
        invariant matched == Selected(dishes, i, p)
      {
        if i in dishes && p(dishes[i]) {
          matched := matched + [dishes[i]];
        }
        i := i + 1;
      }
    }

    /** Every listed dish is an approved dish of the table that satisfies the request's filters. */
    lemma MatchesAreListed(q: ListQuery)
      requires Valid()
      ensures forall d :: d in Matches(q) ==>
                (d.id in dishes && dishes[d.id] == d && d.status == Approved
                 && Listed(d, q.search, CategoryIds(categories, q.category), RegionIds(regions, q.region), TasteFilters(q.taste)))
      ensures forall id :: (id in dishes
                && Listed(dishes[id], q.search, CategoryIds(categories, q.category), RegionIds(regions, q.region), TasteFilters(q.taste)))
                ==> dishes[id] in Matches(q)
    {
      SelectedExactly(dishes, nextId, ListFilter(categories, regions, q));
    }

    /** Approved dishes are reviewed, so the `latest` order never falls back to the default key. */
    lemma ListedAreReviewed(q: ListQuery)
      requires Valid()
      ensures forall d :: d in Matches(q) ==> d.reviewedAt.Some? && d.reviewedBy.Some?
    {
      MatchesAreListed(q);
    }
  }
}
