/** The search page (frontend/src/pages/Search.jsx): the filters it holds, the query string it
    sends once a search has started, and the handlers that change the filters. */
module SearchPage {
  import opened Common
  import opened SearchFilters
  import Dishes

  const InitialFilters := Filters("", Some([]), Some([]), Some([]), "latest", 1, 20)

  /** One `name=value` pair of the query string, in the order appended. */
  datatype Param = Param(name: string, value: string)

  /** The category and region values sent: non-empty text other than 'all'. */
  predicate Listed(v: JsValue) {
    v.JsString? && v.s != "" && v.s != "all"
  }

  /** The taste values sent: non-empty text. */
  predicate TasteText(v: JsValue) {
    v.JsString? && v.s != ""
  }

  function NameIs(name: string): Param -> bool {
    (p: Param) => p.name == name
  }

  /** One pair per kept value, in list order. */
  function ListParams(name: string, values: seq<JsValue>, keep: JsValue -> bool): (ps: seq<Param>)
    ensures |ps| <= |values|
    ensures forall p :: p in ps ==> p.name == name && JsString(p.value) in values && keep(JsString(p.value))
  {
    if values == [] then []
    else
      var init := values[..|values| - 1];
      var last := values[|values| - 1];
      assert forall v :: v in init ==> v in values;
      ListParams(name, init, keep) + (if keep(last) && last.JsString? then [Param(name, last.s)] else [])
  }

  function OrOne(n: int): int { if n != 0 then n else 1 }
  function OrTwenty(n: int): int { if n != 0 then n else 20 }

  function Head(f: Filters): seq<Param> {
    (if f.search != "" then [Param("search", f.search)] else [])
    + (if f.sort != "" then [Param("sort", f.sort)] else [])
    + [Param("page", IntToString(OrOne(f.page))), Param("limit", IntToString(OrTwenty(f.limit)))]
  }

  /** The whole query of fetchDishes; a list that is not an array adds nothing. */
  function QueryOf(f: Filters): seq<Param> {
    Head(f)
    + ListParams("category", f.category.GetOr([]), Listed)
    + ListParams("region", f.region.GetOr([]), Listed)
    + ListParams("taste", f.taste.GetOr([]), TasteText)
  }

  /** A list's pairs all carry the list's name. */
  lemma {:induction false} ListParamsNamed(name: string, values: seq<JsValue>, keep: JsValue -> bool, other: string)
    requires other != name
    ensures Count(ListParams(name, values, keep), NameIs(other)) == 0
  {
    CountNone(ListParams(name, values, keep), NameIs(other));
  }

  /** The pairs after the head carry only category, region and taste. */
  lemma QueryCountIsHeadCount(f: Filters, name: string)
    requires name != "category" && name != "region" && name != "taste"
    ensures Count(QueryOf(f), NameIs(name)) == Count(Head(f), NameIs(name))
  {
    var c := ListParams("category", f.category.GetOr([]), Listed);
    var r := ListParams("region", f.region.GetOr([]), Listed);
    var t := ListParams("taste", f.taste.GetOr([]), TasteText);
    ListParamsNamed("category", f.category.GetOr([]), Listed, name);
    ListParamsNamed("region", f.region.GetOr([]), Listed, name);
    ListParamsNamed("taste", f.taste.GetOr([]), TasteText, name);
    CountAppend(Head(f) + c + r, t, NameIs(name));
    CountAppend(Head(f) + c, r, NameIs(name));
    CountAppend(Head(f), c, NameIs(name));
  }

  /** The head counted one part at a time. */
  lemma HeadCount(f: Filters, name: string)
    ensures Count(Head(f), NameIs(name)) ==
      (if f.search != "" && name == "search" then 1 else 0) + (if f.sort != "" && name == "sort" then 1 else 0)
      + (if name == "page" then 1 else 0) + (if name == "limit" then 1 else 0)
  {
    var s := if f.search != "" then [Param("search", f.search)] else [];
    var o := if f.sort != "" then [Param("sort", f.sort)] else [];
    var pl := [Param("page", IntToString(OrOne(f.page))), Param("limit", IntToString(OrTwenty(f.limit)))];
    assert Head(f) == s + o + pl;
    CountAppend(s + o, pl, NameIs(name));
    CountAppend(s, o, NameIs(name));
    assert pl[1..][1..] == [];
    if s != [] { assert s[1..] == []; }
    if o != [] { assert o[1..] == []; }
  }

  /** page and limit are sent exactly once each, with 1 and 20 for an absent value; search and
      sort are sent once when set and not at all otherwise. */
  lemma QueryHead(f: Filters)
    ensures Count(QueryOf(f), NameIs("page")) == 1 && Param("page", IntToString(OrOne(f.page))) in QueryOf(f)
    ensures Count(QueryOf(f), NameIs("limit")) == 1 && Param("limit", IntToString(OrTwenty(f.limit))) in QueryOf(f)
    ensures Count(QueryOf(f), NameIs("search")) == (if f.search != "" then 1 else 0)
    ensures Count(QueryOf(f), NameIs("sort")) == (if f.sort != "" then 1 else 0)
  {
    QueryCountIsHeadCount(f, "page");
    QueryCountIsHeadCount(f, "limit");
    QueryCountIsHeadCount(f, "search");
    QueryCountIsHeadCount(f, "sort");
    HeadCount(f, "page");
    HeadCount(f, "limit");
    HeadCount(f, "search");
    HeadCount(f, "sort");
    assert Param("page", IntToString(OrOne(f.page))) in Head(f);
    assert Param("limit", IntToString(OrTwenty(f.limit))) in Head(f);
  }

  /** ListParams of a non-empty list: the pairs of all but the last value, then the last one's. */
  lemma ListParamsSnoc(name: string, values: seq<JsValue>, keep: JsValue -> bool)
    requires values != []
    ensures var last := values[|values| - 1];
      ListParams(name, values, keep) == ListParams(name, values[..|values| - 1], keep)
        + (if keep(last) && last.JsString? then [Param(name, last.s)] else [])
  {
  }

  /** The values a list sends: those kept by its rule that are text. */
  function Sendable(keep: JsValue -> bool): JsValue -> bool {
    (v: JsValue) => keep(v) && v.JsString?
  }

  /** One pair per value, in order. */
  function PairsOf(name: string, values: seq<JsValue>): (ps: seq<Param>)
    ensures |ps| == |values|
    ensures forall i :: 0 <= i < |values| ==> ps[i] == Param(name, ToText(values[i]))
  {
    if values == [] then [] else [Param(name, ToText(values[0]))] + PairsOf(name, values[1..])
  }

  lemma PairsOfAppend(name: string, a: seq<JsValue>, b: seq<JsValue>)
    ensures PairsOf(name, a + b) == PairsOf(name, a) + PairsOf(name, b)
  {
    var l, r := PairsOf(name, a + b), PairsOf(name, a) + PairsOf(name, b);
    forall i | 0 <= i < |l| ensures l[i] == r[i] {
      if i < |a| { assert (a + b)[i] == a[i]; } else { assert (a + b)[i] == b[i - |a|]; }
    }
  }

  /** A list's pairs are exactly its sendable values, one pair each, in list order. */
  lemma {:induction false} ListParamsAsFilter(name: string, values: seq<JsValue>, keep: JsValue -> bool)
    ensures ListParams(name, values, keep) == PairsOf(name, Filter(values, Sendable(keep)))
  {
    if values != [] {
      var n := |values| - 1;
      ListParamsAsFilter(name, values[..n], keep);
      ListParamsAsFilterStep(name, values, keep);
    }
  }

  /** The step of ListParamsAsFilter: from all but the last value to the whole list. */
  lemma ListParamsAsFilterStep(name: string, values: seq<JsValue>, keep: JsValue -> bool)
    requires values != []
    requires ListParams(name, values[..|values| - 1], keep) ==
             PairsOf(name, Filter(values[..|values| - 1], Sendable(keep)))
    ensures ListParams(name, values, keep) == PairsOf(name, Filter(values, Sendable(keep)))
  {
    var n := |values| - 1;
    var init, last := values[..n], values[n];
    var front := Filter(init, Sendable(keep));
    ListParamsSnoc(name, values, keep);
    FilterLast(values, Sendable(keep));
    if keep(last) && last.JsString? {
      assert Filter(values, Sendable(keep)) == front + [last];
      PairsOfAppend(name, front, [last]);
      assert PairsOf(name, [last]) == [Param(name, last.s)];
    } else {
      assert Filter(values, Sendable(keep)) == front + [];
      assert front + [] == front;
    }
  }

  /** The category pairs are the category values that are non-empty text other than 'all', in order. */
  lemma CategoryParamsInOrder(values: seq<JsValue>)
    requires forall i :: 0 <= i < |values| ==> Listed(values[i])
    ensures |ListParams("category", values, Listed)| == |values|
    ensures forall i :: 0 <= i < |values| ==> ListParams("category", values, Listed)[i] == Param("category", values[i].s)
  {
    ListParamsAsFilter("category", values, Listed);
    assert forall i :: 0 <= i < |values| ==> Sendable(Listed)(values[i]);
    FilterKeepsAll(values, Sendable(Listed));
  }

  /** The outcome of the request: the page of the list endpoint, or the message of the failure. */
  datatype FetchOutcome = Fetched(page: Dishes.Page) | FetchFailed(message: string)

  class SearchView {
    var filters: Filters
    var hasSearched: bool
    var dishes: seq<Dishes.DishResponse>
    var error: Option<string>
    var totalPages: int
    var currentPage: int

    constructor ()
      ensures filters == InitialFilters && !hasSearched && dishes == [] && error.None?
      ensures totalPages == 1 && currentPage == 1
    {
      filters := InitialFilters;
      hasSearched := false;
      dishes := [];
      error := None;
      totalPages := 1;
      currentPage := 1;
    }

    /** fetchDishes' query string, built by appending pair after pair. */
    static method BuildQuery(f: Filters) returns (query: seq<Param>)
      ensures query == QueryOf(f)
    {
      query := [];
      if f.search != "" {
        query := query + [Param("search", f.search)];
      }
      if f.sort != "" {
        query := query + [Param("sort", f.sort)];
      }
      query := query + [Param("page", IntToString(OrOne(f.page)))];
      query := query + [Param("limit", IntToString(OrTwenty(f.limit)))];
      assert query == Head(f);
      query := AppendList(query, "category", f.category, Listed);
      query := AppendList(query, "region", f.region, Listed);
      query := AppendList(query, "taste", f.taste, TasteText);
    }

    /** `list.filter(keep).forEach(v => params.append(name, v))` when the list is an array. */
    static method AppendList(query: seq<Param>, name: string, values: Option<seq<JsValue>>, keep: JsValue -> bool)
      returns (out: seq<Param>)
      ensures out == query + ListParams(name, values.GetOr([]), keep)
    {
      out := query;
      if values.None? {
        return;
      }
      var vs := values.value;
      var i := 0;
      while i < |vs|
        invariant 0 <= i <= |vs|
        invariant out == query + ListParams(name, vs[..i], keep)
      {
        assert vs[..i + 1][..i] == vs[..i];
        if keep(vs[i]) && vs[i].JsString? {
          out := out + [Param(name, vs[i].s)];
        }
        i := i + 1;
      }
      assert vs[..i] == vs;
    }

    /** The effect on filters: nothing before a search; otherwise the query is sent and the
        answer, or the failure's message, is taken in. */
    method Refresh(outcome: FetchOutcome) returns (query: Option<seq<Param>>)
      modifies this
      ensures filters == old(filters) && hasSearched == old(hasSearched)
      ensures !old(hasSearched) ==> (query.None? && dishes == old(dishes) && error == old(error)
                                     && totalPages == old(totalPages) && currentPage == old(currentPage))
      ensures old(hasSearched) ==> query == Some(QueryOf(filters))
      ensures old(hasSearched) && outcome.Fetched? ==>
        && dishes == outcome.page.data && error.None?
        && totalPages == (if outcome.page.totalPages != 0 then outcome.page.totalPages else 1)
        && currentPage == (if outcome.page.page != 0 then outcome.page.page else 1)
      ensures old(hasSearched) && outcome.FetchFailed? ==>
        (error == Some(outcome.message) && dishes == old(dishes)
         && totalPages == old(totalPages) && currentPage == old(currentPage))
    {
      if !hasSearched {
        return None;
      }
      var q := BuildQuery(filters);
      query := Some(q);
      error := None;
      match outcome
      case Fetched(page) =>
        dishes := page.data;
        totalPages := if page.totalPages != 0 then page.totalPages else 1;
        currentPage := if page.page != 0 then page.page else 1;
      case FetchFailed(message) =>
        error := Some(message);
    }

    /** handleFilterChange: a search starts, on the first page of the new filters. */
    method FilterChange(newFilters: Filters)
      modifies this
      ensures hasSearched && filters == newFilters.(page := 1)
      ensures dishes == old(dishes) && error == old(error) && totalPages == old(totalPages) && currentPage == old(currentPage)
    {
      hasSearched := true;
      filters := newFilters.(page := 1);
    }

    method SortChange(sort: string)
      modifies this
      ensures hasSearched && filters == old(filters).(sort := sort, page := 1)
      ensures dishes == old(dishes) && error == old(error) && totalPages == old(totalPages) && currentPage == old(currentPage)
    {
      hasSearched := true;
      filters := filters.(sort := sort, page := 1);
    }

    /** handlePageChange: ignored before a search, otherwise only the page changes. */
    method PageChange(page: int)
      modifies this
      ensures filters == if old(hasSearched) then old(filters).(page := page) else old(filters)
      ensures hasSearched == old(hasSearched)
      ensures dishes == old(dishes) && error == old(error) && totalPages == old(totalPages) && currentPage == old(currentPage)
    {
      if !hasSearched {
        return;
      }
      filters := filters.(page := page);
    }

    /** handleReset: back to the first render. */
    method Reset()
      modifies this
      ensures filters == InitialFilters && !hasSearched && dishes == [] && error.None?
      ensures totalPages == 1 && currentPage == 1
    {
      hasSearched := false;
      filters := InitialFilters;
      dishes := [];
      error := None;
      totalPages := 1;
      currentPage := 1;
    }
  }

  /** The initial filters send only the sort and the first page of 20. */
  lemma InitialQuery()
    ensures QueryOf(InitialFilters) ==
      [Param("sort", "latest"), Param("page", "1"), Param("limit", "20")]
  {
    assert IntToString(1) == "1";
    assert NatToString(20) == NatToString(2) + [DigitChar(0)];
    assert IntToString(20) == "20";
  }
}
