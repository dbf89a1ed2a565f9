/** A user's favourite dishes (backend/src/favorites/favorites.service.ts). The `favorites` table
    is a sequence of rows; its unique key allows at most one row per (user, dish) pair. */
module Favorites {
  import opened Common
  import opened DishDtos
  import opened Dishes
  import Ordering

  datatype Favorite = Favorite(userId: nat, dishId: nat, createdAt: int)

  datatype FavoriteError = DishNotApproved | AlreadyFavorited | NotFound

  function IsPair(userId: nat, dishId: nat): Favorite -> bool {
    (f: Favorite) => f.userId == userId && f.dishId == dishId
  }

  function NotPair(userId: nat, dishId: nat): Favorite -> bool {
    (f: Favorite) => !(f.userId == userId && f.dishId == dishId)
  }

  /** The unique key on (user_id, dish_id). */
  predicate PairsUnique(favs: seq<Favorite>) {
    forall i, j :: 0 <= i < j < |favs| ==> favs[i].userId != favs[j].userId || favs[i].dishId != favs[j].dishId
  }

  predicate HasPair(favs: seq<Favorite>, userId: nat, dishId: nat) {
    exists f :: f in favs && f.userId == userId && f.dishId == dishId
  }

  lemma PairCountPositive(favs: seq<Favorite>, userId: nat, dishId: nat)
    ensures Count(favs, IsPair(userId, dishId)) > 0 <==> HasPair(favs, userId, dishId)
  {
    CountIsFilterLength(favs, IsPair(userId, dishId));
    var rows := Filter(favs, IsPair(userId, dishId));
    if |rows| > 0 {
      assert rows[0] in rows;
    }
    if HasPair(favs, userId, dishId) {
      var f :| f in favs && f.userId == userId && f.dishId == dishId;
      assert f in rows;
    }
  }

  /** checkFavorite: the count of rows for the pair is positive. */
  function CheckFavorite(favs: seq<Favorite>, userId: nat, dishId: nat): (isFavorite: bool)
    ensures isFavorite <==> HasPair(favs, userId, dishId)
  {
    PairCountPositive(favs, userId, dishId);
    Count(favs, IsPair(userId, dishId)) > 0
  }

  /** deleteMany on the pair removes a row exactly when one exists, and nothing otherwise. */
  lemma RemovalCount(favs: seq<Favorite>, userId: nat, dishId: nat)
    ensures HasPair(favs, userId, dishId) ==> |Filter(favs, NotPair(userId, dishId))| < |favs|
    ensures !HasPair(favs, userId, dishId) ==> Filter(favs, NotPair(userId, dishId)) == favs
  {
    if HasPair(favs, userId, dishId) {
      var f :| f in favs && f.userId == userId && f.dishId == dishId;
      var i :| 0 <= i < |favs| && favs[i] == f;
      FilterDrops(favs, NotPair(userId, dishId), i);
    } else {
      forall i | 0 <= i < |favs| ensures NotPair(userId, dishId)(favs[i]) {
        assert favs[i] in favs;
      }
      FilterKeepsAll(favs, NotPair(userId, dishId));
    }
  }

  function PairKey(f: Favorite): (nat, nat) { (f.userId, f.dishId) }

  /** Unique pairs are rows with distinct (user, dish) keys. */
  lemma PairsUniqueAsKeys(favs: seq<Favorite>)
    ensures PairsUnique(favs) <==> Ordering.KeysDistinct(favs, PairKey)
  {
  }

  /** Deleting rows keeps the key unique. */
  lemma FilterKeepsPairsUnique(favs: seq<Favorite>, p: Favorite -> bool)
    requires PairsUnique(favs)
    ensures PairsUnique(Filter(favs, p))
  {
    PairsUniqueAsKeys(favs);
    Ordering.FilterKeepsKeysDistinct(favs, p, PairKey);
    PairsUniqueAsKeys(Filter(favs, p));
  }

  // ---------------------------------------------------------------- getFavoriteStatistics

  datatype RegionCount = RegionCount(region: string, count: nat)

  datatype FavoriteStatistics = FavoriteStatistics(totalFavorites: nat, spicyFavoritesCount: nat, regionPopularity: seq<RegionCount>)

  /** The name given to a dish without a region, or whose region has an empty Vietnamese name. */
  const UnknownRegion: string := "Không rõ"

  function EntryRegion(e: RegionCount): string { e.region }

  function EntryCount(e: RegionCount): int { e.count }

  function IsName(n: string): string -> bool {
    (m: string) => m == n
  }

  function OfUser(userId: nat): Favorite -> bool {
    (f: Favorite) => f.userId == userId
  }

  /** A favourite of the user whose dish has `spiciness_level > 0`; a null level is not greater. */
  function SpicyOf(userId: nat, dishes: map<nat, Dish>): Favorite -> bool {
    (f: Favorite) => f.userId == userId && f.dishId in dishes
         && dishes[f.dishId].spicinessLevel.Some? && dishes[f.dishId].spicinessLevel.value > 0
  }

  /** `dish.region?.name_vietnamese || 'Không rõ'`. */
  function RegionName(d: Dish, regions: map<nat, Region>): (name: string)
    ensures name != ""
    ensures (d.regionId.Some? && RegionExists(regions, d.regionId.value)
             && regions[d.regionId.value as nat].nameVietnamese != "") ==> name == regions[d.regionId.value as nat].nameVietnamese
    ensures !(d.regionId.Some? && RegionExists(regions, d.regionId.value)) ==> name == UnknownRegion
  {
    var vietnamese := if d.regionId.Some? && RegionExists(regions, d.regionId.value)
                      then regions[d.regionId.value as nat].nameVietnamese else "";
    if vietnamese != "" then vietnamese else UnknownRegion
  }

  /** The groupBy on dish_id followed by findMany: the user's favourited dish ids whose dish
      exists, in row order. */
  function FavoritedDishIds(favs: seq<Favorite>, userId: nat, dishes: map<nat, Dish>): (ids: seq<nat>)
    ensures forall id :: id in ids <==> id in dishes && HasPair(favs, userId, id)
  {
    if favs == [] then []
    else
      var rest := FavoritedDishIds(favs[1..], userId, dishes);
      assert forall id :: HasPair(favs, userId, id) <==>
        (favs[0].userId == userId && favs[0].dishId == id) || HasPair(favs[1..], userId, id) by {
        assert favs == [favs[0]] + favs[1..];
      }
      (if favs[0].userId == userId && favs[0].dishId in dishes then [favs[0].dishId] else []) + rest
  }

  predicate Distinct(ids: seq<nat>) {
    forall i, j :: 0 <= i < j < |ids| ==> ids[i] != ids[j]
  }

  /** With the key unique, each favourited dish appears once. */
  lemma {:induction false} FavoritedDishIdsDistinct(favs: seq<Favorite>, userId: nat, dishes: map<nat, Dish>)
    requires PairsUnique(favs)
    ensures Distinct(FavoritedDishIds(favs, userId, dishes))
  {
    if favs != [] {
      var rest := favs[1..];
      assert PairsUnique(rest) by {
        forall i, j | 0 <= i < j < |rest| ensures rest[i].userId != rest[j].userId || rest[i].dishId != rest[j].dishId {
          assert rest[i] == favs[i + 1] && rest[j] == favs[j + 1];
        }
      }
      FavoritedDishIdsDistinct(rest, userId, dishes);
      var tail := FavoritedDishIds(rest, userId, dishes);
      if favs[0].userId == userId && favs[0].dishId in dishes {
        assert favs[0].dishId !in tail;
        var ids := [favs[0].dishId] + tail;
        assert FavoritedDishIds(favs, userId, dishes) == ids;
        forall i, j | 0 <= i < j < |ids| ensures ids[i] != ids[j] {
          assert ids[j] == tail[j - 1];
          if i == 0 {
            assert tail[j - 1] in tail;
            assert ids[i] == favs[0].dishId;
          } else {
            assert ids[i] == tail[i - 1];
            assert tail[i - 1] != tail[j - 1];
          }
        }
      }
    }
  }

  function RegionNames(ids: seq<nat>, dishes: map<nat, Dish>, regions: map<nat, Region>): (names: seq<string>)
    requires forall id :: id in ids ==> id in dishes
    ensures |names| == |ids|
    ensures forall k :: 0 <= k < |ids| ==> names[k] == RegionName(dishes[ids[k]], regions)
  {
    seq(|ids|, k requires 0 <= k < |ids| => RegionName(dishes[ids[k]], regions))
  }

  /** The sum of the counts. */
  function Total(acc: seq<RegionCount>): int {
    Ordering.SumBy(acc, EntryCount)
  }

  function RegionsOf(acc: seq<RegionCount>): set<string> {
    set e | e in acc :: e.region
  }

  /** The count kept under name n, 0 when n is not a key. */
  function CountFor(acc: seq<RegionCount>, n: string): nat {
    if acc == [] then 0 else if acc[0].region == n then acc[0].count else CountFor(acc[1..], n)
  }

  /** Past the first entry the keys stay distinct, and none is the first key. */
  lemma DistinctTail(acc: seq<RegionCount>)
    requires acc != [] && Ordering.KeysDistinct(acc, EntryRegion)
    ensures Ordering.KeysDistinct(acc[1..], EntryRegion)
    ensures acc[0].region !in RegionsOf(acc[1..])
  {
    var rest := acc[1..];
    forall i, j | 0 <= i < j < |rest| ensures EntryRegion(rest[i]) != EntryRegion(rest[j]) {
      assert rest[i] == acc[i + 1] && rest[j] == acc[j + 1];
    }
    forall e | e in rest ensures e.region != acc[0].region {
      var m :| 0 <= m < |rest| && rest[m] == e;
      assert EntryRegion(acc[0]) != EntryRegion(acc[m + 1]);
    }
  }

  lemma RegionsOfCons(acc: seq<RegionCount>)
    requires acc != []
    ensures RegionsOf(acc) == {acc[0].region} + RegionsOf(acc[1..])
  {
    assert acc == [acc[0]] + acc[1..];
  }

  lemma {:induction false} CountForEntry(acc: seq<RegionCount>, e: RegionCount)
    requires Ordering.KeysDistinct(acc, EntryRegion) && e in acc
    ensures CountFor(acc, e.region) == e.count
  {
    if acc[0] != e {
      DistinctTail(acc);
      assert e in acc[1..];
      CountForEntry(acc[1..], e);
    }
  }

  /** One step of the reduce: `acc[regionName] = (acc[regionName] || 0) + 1`; a new key goes last,
      as `Object.keys` lists keys in insertion order. */
  function Bump(acc: seq<RegionCount>, name: string): seq<RegionCount> {
    if acc == [] then [RegionCount(name, 1)]
    else if acc[0].region == name then [acc[0].(count := acc[0].count + 1)] + acc[1..]
    else [acc[0]] + Bump(acc[1..], name)
  }

  lemma {:induction false} BumpTotal(acc: seq<RegionCount>, name: string)
    ensures Total(Bump(acc, name)) == Total(acc) + 1
  {
    if acc == [] {
      assert Bump(acc, name)[1..] == [];
    } else {
      var r := Bump(acc, name);
      assert Total(acc) == acc[0].count + Total(acc[1..]);
      assert Total(r) == r[0].count + Total(r[1..]);
      if acc[0].region == name {
        assert r[1..] == acc[1..];
      } else {
        BumpTotal(acc[1..], name);
        assert r[1..] == Bump(acc[1..], name);
      }
    }
  }

  lemma {:induction false} BumpCounts(acc: seq<RegionCount>, name: string)
    ensures forall n :: CountFor(Bump(acc, name), n) == CountFor(acc, n) + (if n == name then 1 else 0)
  {
    if acc != [] {
      var r := Bump(acc, name);
      if acc[0].region == name {
        assert r[1..] == acc[1..];
      } else {
        BumpCounts(acc[1..], name);
        assert r[1..] == Bump(acc[1..], name);
      }
    }
  }

  lemma {:induction false} BumpRegions(acc: seq<RegionCount>, name: string)
    ensures RegionsOf(Bump(acc, name)) == RegionsOf(acc) + {name}
  {
    if acc != [] {
      var r := Bump(acc, name);
      RegionsOfCons(acc);
      RegionsOfCons(r);
      if acc[0].region == name {
        assert r[1..] == acc[1..];
      } else {
        BumpRegions(acc[1..], name);
        assert r[1..] == Bump(acc[1..], name);
      }
    }
  }

  lemma {:induction false} BumpDistinct(acc: seq<RegionCount>, name: string)
    requires Ordering.KeysDistinct(acc, EntryRegion)
    ensures Ordering.KeysDistinct(Bump(acc, name), EntryRegion)
  {
    if acc != [] {
      var r := Bump(acc, name);
      DistinctTail(acc);
      var tail := r[1..];
      if acc[0].region == name {
        assert tail == acc[1..];
      } else {
        BumpDistinct(acc[1..], name);
        BumpRegions(acc[1..], name);
        assert tail == Bump(acc[1..], name);
      }
      assert r[0].region !in RegionsOf(tail);
      forall i, j | 0 <= i < j < |r| ensures EntryRegion(r[i]) != EntryRegion(r[j]) {
        assert r[j] == tail[j - 1];
        if i == 0 {
          assert r[j] in tail;
        } else {
          assert r[i] == tail[i - 1];
        }
      }
    }
  }

  lemma {:induction false} BumpPositive(acc: seq<RegionCount>, name: string)
    requires forall e :: e in acc ==> e.count >= 1
    ensures forall e :: e in Bump(acc, name) ==> e.count >= 1
  {
    if acc != [] && acc[0].region != name {
      assert forall e :: e in acc[1..] ==> e in acc;
      BumpPositive(acc[1..], name);
    }
  }

  /** The whole reduce over the region names, left to right. */
  function Tally(names: seq<string>): seq<RegionCount> {
    if names == [] then [] else Bump(Tally(names[..|names| - 1]), names[|names| - 1])
  }

  /** The tally has one entry per name that occurs, holding the number of its occurrences; the
      counts add up to the number of names. */
  lemma {:induction false} TallyMeaning(names: seq<string>)
    ensures Ordering.KeysDistinct(Tally(names), EntryRegion)
    ensures RegionsOf(Tally(names)) == set n | n in names
    ensures Total(Tally(names)) == |names|
    ensures forall n :: CountFor(Tally(names), n) == Count(names, IsName(n))
    ensures forall e :: e in Tally(names) ==> e.count >= 1
  {
    if names != [] {
      var prefix := names[..|names| - 1];
      var last := names[|names| - 1];
      assert names == prefix + [last];
      assert (set n | n in names) == (set n | n in prefix) + {last};
      TallyMeaning(prefix);
      var acc := Tally(prefix);
      BumpTotal(acc, last);
      BumpCounts(acc, last);
      BumpRegions(acc, last);
      BumpDistinct(acc, last);
      BumpPositive(acc, last);
      forall n ensures CountFor(Tally(names), n) == Count(names, IsName(n)) {
        CountAppend(prefix, [last], IsName(n));
      }
    }
  }

  /** region_popularity: the tally sorted by count, largest first. */
  function RegionPopularity(favs: seq<Favorite>, userId: nat, dishes: map<nat, Dish>, regions: map<nat, Region>): seq<RegionCount> {
    var ids := FavoritedDishIds(favs, userId, dishes);
    Ordering.SortDesc(Tally(RegionNames(ids, dishes, regions)), EntryCount)
  }

  /** Reordering keeps exactly the same entries. */
  lemma SameEntries(a: seq<RegionCount>, b: seq<RegionCount>)
    requires multiset(a) == multiset(b)
    ensures forall e :: e in a <==> e in b
  {
    forall e ensures e in a <==> e in b {
      assert e in a <==> e in multiset(a);
      assert e in b <==> e in multiset(b);
    }
  }

  /** region_popularity lists each region name once, largest count first, and its counts add up
      to the number of distinct favourited dishes that still exist. */
  lemma RegionPopularityShape(favs: seq<Favorite>, userId: nat, dishes: map<nat, Dish>, regions: map<nat, Region>)
    requires PairsUnique(favs)
    ensures Ordering.SortedDesc(RegionPopularity(favs, userId, dishes, regions), EntryCount)
    ensures Ordering.KeysDistinct(RegionPopularity(favs, userId, dishes, regions), EntryRegion)
    ensures Distinct(FavoritedDishIds(favs, userId, dishes))
    ensures Total(RegionPopularity(favs, userId, dishes, regions)) == |FavoritedDishIds(favs, userId, dishes)|
  {
    var ids := FavoritedDishIds(favs, userId, dishes);
    var tally := Tally(RegionNames(ids, dishes, regions));
    TallyMeaning(RegionNames(ids, dishes, regions));
    FavoritedDishIdsDistinct(favs, userId, dishes);
    Ordering.DistinctKeysPermutation(tally, RegionPopularity(favs, userId, dishes, regions), EntryRegion);
    Ordering.SumByPermutation(tally, RegionPopularity(favs, userId, dishes, regions), EntryCount);
  }

  /** Each entry of region_popularity counts the favourited dishes under its name, and every
      favourited dish's region name has an entry. */
  lemma RegionPopularityCounts(favs: seq<Favorite>, userId: nat, dishes: map<nat, Dish>, regions: map<nat, Region>)
    ensures forall e :: e in RegionPopularity(favs, userId, dishes, regions) ==>
      e.count >= 1 && e.count == Count(RegionNames(FavoritedDishIds(favs, userId, dishes), dishes, regions), IsName(e.region))
    ensures forall id :: id in FavoritedDishIds(favs, userId, dishes) ==>
      exists e :: e in RegionPopularity(favs, userId, dishes, regions) && e.region == RegionName(dishes[id], regions)
  {
    var ids := FavoritedDishIds(favs, userId, dishes);
    var names := RegionNames(ids, dishes, regions);
    var tally := Tally(names);
    var rows := RegionPopularity(favs, userId, dishes, regions);
    TallyMeaning(names);
    SameEntries(tally, rows);
    forall e | e in rows ensures e.count >= 1 && e.count == Count(names, IsName(e.region)) {
      CountForEntry(tally, e);
    }
    forall id | id in ids ensures exists e :: e in rows && e.region == RegionName(dishes[id], regions) {
      var k :| 0 <= k < |ids| && ids[k] == id;
      assert names[k] in names;
      assert names[k] in RegionsOf(tally);
      var e :| e in tally && e.region == names[k];
      assert e in rows;
    }
  }

  class FavoriteStore {
    var favorites: seq<Favorite>

    ghost predicate Valid()
      reads this
    {
      PairsUnique(favorites)
    }

    constructor ()
      ensures Valid() && favorites == []
    {
      favorites := [];
    }

    /** addFavorite: the dish must exist and be approved; the insert is then refused by the
        unique key when the pair is already there. */
    method AddFavorite(userId: nat, dishId: nat, dishes: map<nat, Dish>, now: int) returns (r: Result<Favorite, FavoriteError>)
      requires Valid()
      modifies this
      ensures Valid()
      ensures !(dishId in dishes && dishes[dishId].status == Approved) ==>
        r == Err(DishNotApproved) && favorites == old(favorites)
      ensures dishId in dishes && dishes[dishId].status == Approved && HasPair(old(favorites), userId, dishId) ==>
        r == Err(AlreadyFavorited) && favorites == old(favorites)
      ensures dishId in dishes && dishes[dishId].status == Approved && !HasPair(old(favorites), userId, dishId) ==>
        r == Ok(Favorite(userId, dishId, now)) && favorites == old(favorites) + [r.value]
      ensures r.Ok? ==> CheckFavorite(favorites, userId, dishId)
    {
      if dishId !in dishes || dishes[dishId].status != Approved {
        return Err(DishNotApproved);
      }
      if CheckFavorite(favorites, userId, dishId) {
        return Err(AlreadyFavorited);
      }
      var favorite := Favorite(userId, dishId, now);
      forall i | 0 <= i < |favorites| ensures favorites[i].userId != userId || favorites[i].dishId != dishId {
        assert favorites[i] in favorites;
      }
      favorites := favorites + [favorite];
      assert favorite in favorites;
      return Ok(favorite);
    }

    /** removeFavorite: deleteMany on the pair; a count of 0 is NOT_FOUND. */
    method RemoveFavorite(userId: nat, dishId: nat) returns (r: Result<(), FavoriteError>)
      requires Valid()
      modifies this
      ensures Valid()
      ensures favorites == Filter(old(favorites), NotPair(userId, dishId))
      ensures r.Ok? <==> HasPair(old(favorites), userId, dishId)
      ensures r.Err? ==> r.error == NotFound && favorites == old(favorites)
      ensures !CheckFavorite(favorites, userId, dishId)
    {
      var remaining := Filter(favorites, NotPair(userId, dishId));
      var count := |favorites| - |remaining|;
      RemovalCount(favorites, userId, dishId);
      FilterKeepsPairsUnique(favorites, NotPair(userId, dishId));
      if count == 0 {
        return Err(NotFound);
      }
      favorites := remaining;
      return Ok(());
    }

    /** getFavoriteStatistics: the two counts, then the reduce over the favourited dishes. */
    method GetFavoriteStatistics(userId: nat, dishes: map<nat, Dish>, regions: map<nat, Region>) returns (s: FavoriteStatistics)
      ensures s.totalFavorites == Count(favorites, OfUser(userId))
      ensures s.spicyFavoritesCount == Count(favorites, SpicyOf(userId, dishes))
      ensures s.regionPopularity == RegionPopularity(favorites, userId, dishes, regions)
    {
      var totalFavorites := Count(favorites, OfUser(userId));
      var spicyFavoritesCount := Count(favorites, SpicyOf(userId, dishes));
      var ids := FavoritedDishIds(favorites, userId, dishes);
      ghost var names := RegionNames(ids, dishes, regions);
      var acc: seq<RegionCount> := [];
      var i := 0;
      while i < |ids|
        invariant i <= |ids|
        invariant acc == Tally(names[..i])
      {
        assert names[..i + 1][..i] == names[..i];
        acc := Bump(acc, RegionName(dishes[ids[i]], regions));
        i := i + 1;
      }
      assert names[..|ids|] == names;
      s := FavoriteStatistics(totalFavorites, spicyFavoritesCount, Ordering.SortDesc(acc, EntryCount));
    }
  }
}
