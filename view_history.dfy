/** The record of which dishes a user has opened (backend/src/view_history/view_history.service.ts).
    The `view_history` table is a sequence of rows with an autoincrement id. */
module ViewHistory {
  import opened Common
  import opened DishDtos
  import opened Dishes
  import Accounts
  import Ordering

  datatype View = View(id: nat, userId: nat, dishId: nat, viewedAt: int)

  datatype ViewError = DishNotFound | UserNotFound

  /** The dish as a view-history response shows it, with its category and region in full. */
  datatype ViewedDish = ViewedDish(
    id: nat,
    nameJapanese: string,
    nameVietnamese: string,
    nameRomaji: Option<string>,
    descriptionJapanese: Option<string>,
    descriptionVietnamese: Option<string>,
    descriptionRomaji: Option<string>,
    imageUrl: Option<string>,
    viewCount: nat,
    category: Option<Category>,
    region: Option<Region>)

  datatype ViewResponse = ViewResponse(id: nat, userId: nat, dishId: nat, viewedAt: int, dish: ViewedDish)

  datatype RecentViews = RecentViews(items: seq<ViewResponse>, totalCount: nat)

  function ViewedAt(v: View): int { v.viewedAt }

  function OfUser(userId: nat): View -> bool {
    (v: View) => v.userId == userId
  }

  function NotOfUser(userId: nat): View -> bool {
    (v: View) => v.userId != userId
  }

  /** mapViewHistoryToDto and mapViewHistoryItemToDto: the two helpers copy the same fields, one
      from the dish passed to it and one from the row's joined dish. */
  function MapView(v: View, d: Dish, categories: map<nat, Category>, regions: map<nat, Region>): ViewResponse {
    ViewResponse(v.id, v.userId, v.dishId, v.viewedAt,
      ViewedDish(d.id, d.nameJapanese, d.nameVietnamese, d.nameRomaji, d.descriptionJapanese,
        d.descriptionVietnamese, d.descriptionRomaji, d.imageUrl, d.viewCount,
        JoinedCategory(categories, d.categoryId), JoinedRegion(regions, d.regionId)))
  }

  /** The response names the row and the dish it joined, and the dish's row id is the row's dish id. */
  lemma MapViewFaithful(v: View, d: Dish, categories: map<nat, Category>, regions: map<nat, Region>)
    requires d.id == v.dishId
    ensures var r := MapView(v, d, categories, regions);
      && r.dishId == r.dish.id
      && (r.id, r.userId, r.viewedAt) == (v.id, v.userId, v.viewedAt)
      && r.dish.viewCount == d.viewCount
  {
  }

  /** orderBy viewed_at desc, take limit: the user's rows, latest first. */
  function RecentRows(views: seq<View>, userId: nat, limit: nat): (rows: seq<View>)
    ensures |rows| == if limit < Count(views, OfUser(userId)) then limit else Count(views, OfUser(userId))
    ensures forall v :: v in rows ==> v in views && v.userId == userId
    ensures Ordering.SortedDesc(rows, ViewedAt)
    ensures forall v, w :: v in views && v.userId == userId && v !in rows && w in rows ==> w.viewedAt >= v.viewedAt
  {
    var mine := Filter(views, OfUser(userId));
    var sorted := Ordering.SortDesc(mine, ViewedAt);
    CountIsFilterLength(views, OfUser(userId));
    var rows := Take(sorted, limit);
    Ordering.TakeSorted(sorted, |rows|, ViewedAt);
    Ordering.SortedPrefixFromInput(mine, |rows|, ViewedAt);
    Ordering.PrefixDominates(mine, |rows|, ViewedAt);
    rows
  }

  /** The dishes every row refers to exist (the table's foreign key). */
  predicate RowsReferToDishes(views: seq<View>, dishes: map<nat, Dish>) {
    forall v :: v in views ==> v.dishId in dishes
  }

  function MapRows(rows: seq<View>, dishes: map<nat, Dish>, categories: map<nat, Category>, regions: map<nat, Region>): (items: seq<ViewResponse>)
    requires RowsReferToDishes(rows, dishes)
    ensures |items| == |rows|
    ensures forall k :: 0 <= k < |rows| ==> items[k] == MapView(rows[k], dishes[rows[k].dishId], categories, regions)
  {
    seq(|rows|, k requires 0 <= k < |rows| => MapView(rows[k], dishes[rows[k].dishId], categories, regions))
  }

  class ViewLog {
    var views: seq<View>
    /** The id the next inserted row receives. */
    var nextId: nat

    ghost predicate Valid()
      reads this
    {
      forall v :: v in views ==> v.id < nextId
    }

    constructor ()
      ensures Valid() && views == [] && nextId == 1
    {
      views := [];
      nextId := 1;
    }

    /** saveViewHistory: only an approved dish can be viewed; a row is added, the dish's
        view_count goes up by one, and the response shows the dish as read before the increment. */
    method SaveViewHistory(userId: nat, dishId: nat, table: Dishes.DishTable, now: int) returns (r: Result<ViewResponse, ViewError>)
      requires Valid() && table.Valid()
      modifies this, table
      ensures Valid() && table.Valid()
      ensures table.categories == old(table.categories) && table.regions == old(table.regions)
      ensures r.Ok? <==> dishId in old(table.dishes) && old(table.dishes)[dishId].status == Approved
      ensures r.Err? ==> r.error == ViewError.DishNotFound && views == old(views) && nextId == old(nextId)
                         && table.dishes == old(table.dishes)
      ensures r.Ok? ==>
        var d := old(table.dishes)[dishId];
        var row := View(old(nextId), userId, dishId, now);
        && views == old(views) + [row] && nextId == old(nextId) + 1
        && table.dishes == old(table.dishes)[dishId := d.(viewCount := d.viewCount + 1)]
        && r.value == MapView(row, d, table.categories, table.regions)
    {
      if dishId !in table.dishes {
        return Err(ViewError.DishNotFound);
      }
      var dish := table.dishes[dishId];
      if dish.status != Approved {
        return Err(ViewError.DishNotFound);
      }
      var viewHistory := View(nextId, userId, dishId, now);
      views := views + [viewHistory];
      nextId := nextId + 1;
      table.IncrementViewCount(dishId);
      return Ok(MapView(viewHistory, dish, table.categories, table.regions));
    }

    /** getRecentViewHistory: the user must exist; `limit` defaults to 10. */
    function GetRecentViewHistory(userId: nat, limit: Option<nat>, users: map<nat, Accounts.User>, dishes: map<nat, Dish>,
                                  categories: map<nat, Category>, regions: map<nat, Region>): (r: Result<RecentViews, ViewError>)
      reads this
      requires RowsReferToDishes(views, dishes)
      ensures r.Err? <==> userId !in users
      ensures r.Err? ==> r.error == UserNotFound
      ensures r.Ok? ==> r.value.totalCount == |r.value.items| <= limit.GetOr(10)
      ensures r.Ok? ==> r.value.items == MapRows(RecentRows(views, userId, limit.GetOr(10)), dishes, categories, regions)
    {
      if userId !in users then Err(UserNotFound)
      else
        var rows := RecentRows(views, userId, limit.GetOr(10));
        assert RowsReferToDishes(rows, dishes);
        var items := MapRows(rows, dishes, categories, regions);
        Ok(RecentViews(items, |items|))
    }

    /** deleteAllViewHistory: the user must exist; all their rows go, and the count is returned. */
    method DeleteAllViewHistory(userId: nat, users: map<nat, Accounts.User>) returns (r: Result<nat, ViewError>)
      requires Valid()
      modifies this
      ensures Valid() && nextId == old(nextId)
      ensures userId !in users ==> r == Err(UserNotFound) && views == old(views)
      ensures userId in users ==>
        && r == Ok(Count(old(views), OfUser(userId)))
        && views == Filter(old(views), NotOfUser(userId))
      ensures userId in users ==> forall v :: v in views <==> v in old(views) && v.userId != userId
    {
      if userId !in users {
        return Err(UserNotFound);
      }
      var remaining := Filter(views, NotOfUser(userId));
      CountSplit(views, userId);
      var deletedCount := |views| - |remaining|;
      views := remaining;
      return Ok(deletedCount);
    }
  }

  /** Every row is either the user's or not. */
  lemma {:induction false} CountSplit(views: seq<View>, userId: nat)
    ensures Count(views, OfUser(userId)) + |Filter(views, NotOfUser(userId))| == |views|
  {
    if views != [] {
      CountSplit(views[1..], userId);
    }
  }
}
