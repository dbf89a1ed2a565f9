/** The filter panel of the search page (frontend/src/components/search/SearchFilters.jsx): its
    local copy of the filters, the spice slider, and the normalisation done before the filters are
    handed back to the page. Region and category lists hold whatever values the page passes in;
    a value that is a numeric id is replaced by the code or slug of the matching option. */
module SearchFilters {
  import opened Common

  // ---------------------------------------------------------------- Number(v) is NaN

  /** The number of leading decimal digits of s. */
  function DecimalRun(s: string): (n: nat)
    ensures n <= |s|
    ensures forall i :: 0 <= i < n ==> IsDigit(s[i])
    ensures n < |s| ==> !IsDigit(s[n])
  {
    if s == [] || !IsDigit(s[0]) then 0 else 1 + DecimalRun(s[1..])
  }

  predicate AllDigits(s: string) {
    s != [] && forall i :: 0 <= i < |s| ==> IsDigit(s[i])
  }

  predicate SignedInteger(s: string) {
    if s != [] && (s[0] == '+' || s[0] == '-') then AllDigits(s[1..]) else AllDigits(s)
  }

  predicate ExponentPart(s: string) {
    s == [] || ((s[0] == 'e' || s[0] == 'E') && SignedInteger(s[1..]))
  }

  /** Digits with an optional fraction and exponent, at least one digit before the exponent, or `Infinity`. */
  predicate UnsignedDecimal(s: string) {
    if s == "Infinity" then true
    else
      var a := DecimalRun(s);
      var rest := s[a..];
      if rest != [] && rest[0] == '.' then
        var b := DecimalRun(rest[1..]);
        a + b >= 1 && ExponentPart(rest[1..][b..])
      else a >= 1 && ExponentPart(rest)
  }

  predicate IsHexDigit(c: char) { IsDigit(c) || 'a' <= c <= 'f' || 'A' <= c <= 'F' }

  /** `0x…`, `0o…` or `0b…`, without a sign. */
  predicate NonDecimalInteger(s: string) {
    |s| > 2 && s[0] == '0' &&
    (((s[1] == 'x' || s[1] == 'X') && forall i :: 2 <= i < |s| ==> IsHexDigit(s[i]))
     || ((s[1] == 'o' || s[1] == 'O') && forall i :: 2 <= i < |s| ==> '0' <= s[i] <= '7')
     || ((s[1] == 'b' || s[1] == 'B') && forall i :: 2 <= i < |s| ==> s[i] == '0' || s[i] == '1'))
  }

  /** Text that `Number` converts to a number: blank text, or a numeric literal between white space. */
  predicate NumericText(s: string) {
    var t := Trim(s);
    t == [] || NonDecimalInteger(t)
    || UnsignedDecimal(if t[0] == '+' || t[0] == '-' then t[1..] else t)
  }

  /** `isNaN(Number(v))`. */
  predicate IsNaN(v: JsValue) {
    match v
    case JsString(s) => !NumericText(s)
    case JsUndefined => true
    case _ => false
  }

  // ---------------------------------------------------------------- normalisation

  /** A region or category option: its id and its code (regions) or slug (categories). */
  datatype Choice = Choice(id: JsValue, key: Option<string>)

  /** The fallback options shown before the lists arrive: text ids and no code or slug. */
  const FallbackCategories: seq<Choice> :=
    [Choice(JsString("street-food"), None), Choice(JsString("noodle"), None), Choice(JsString("drink"), None)]
  const FallbackRegions: seq<Choice> :=
    [Choice(JsString("north"), None), Choice(JsString("central"), None), Choice(JsString("south"), None)]

  /** `choices.find(c => String(c.id) === String(v))`. */
  function FirstMatch(choices: seq<Choice>, v: JsValue): (m: Option<Choice>)
    ensures m.Some? ==> m.value in choices && ToText(m.value.id) == ToText(v)
    ensures m.None? <==> forall c :: c in choices ==> ToText(c.id) != ToText(v)
    ensures m.Some? && choices != [] && ToText(choices[0].id) == ToText(v) ==> m.value == choices[0]
  {
    if choices == [] then None
    else if ToText(choices[0].id) == ToText(v) then Some(choices[0])
    else
      assert forall c :: c in choices[1..] ==> c in choices;
      assert forall c :: c in choices && c != choices[0] ==> c in choices[1..];
      FirstMatch(choices[1..], v)
  }

  /** The code of the option matching a numeric value, if it has a non-empty one. */
  function KeyOfMatch(choices: seq<Choice>, v: JsValue): (r: Option<string>)
    ensures r.Some? ==> r.value != ""
    ensures var m := FirstMatch(choices, v);
      && (r.Some? <==> m.Some? && m.value.key.Some? && m.value.key.value != "")
      && (r.Some? ==> r == m.value.key)
  {
    var m := FirstMatch(choices, v);
    if m.Some? && m.value.key.Some? && m.value.key.value != "" then m.value.key else None
  }

  /** One list value: empty and 'all' go, text that is not a number stays, and a number becomes
      the matching option's code, or goes when there is none. */
  function NormalizeValue(v: JsValue, choices: seq<Choice>): (r: Option<string>)
    ensures r.Some? ==> r.value != ""
    ensures !Truthy(v) || v == JsString("all") ==> r.None?
    ensures v.JsString? && v.s != "" && v.s != "all" && !NumericText(v.s) ==> r == Some(v.s)
    ensures v.JsString? && v.s != "" && v.s != "all" && NumericText(v.s) ==> r == KeyOfMatch(choices, v)
    ensures !v.JsString? && Truthy(v) ==> r == KeyOfMatch(choices, v)
  {
    match v
    case JsString(s) => if s == "" || s == "all" then None else if !NumericText(s) then Some(s) else KeyOfMatch(choices, v)
    case JsNumber(n) => if n == 0 then None else KeyOfMatch(choices, v)
    case JsBool(b) => if !b then None else KeyOfMatch(choices, v)
    case JsNull => None
    case JsUndefined => None
  }

  /** `map(...).filter(...)` over a list. */
  function NormalizeValues(values: seq<JsValue>, choices: seq<Choice>): (r: seq<string>)
    ensures |r| <= |values|
    ensures forall x :: x in r ==> x != ""
  {
    if values == [] then []
    else
      var head := NormalizeValue(values[0], choices);
      (if head.Some? then [head.value] else []) + NormalizeValues(values[1..], choices)
  }

  /** A non-array becomes the empty list. */
  function NormalizeList(values: Option<seq<JsValue>>, choices: seq<Choice>): (r: seq<string>)
    ensures values.None? ==> r == []
    ensures values.Some? ==> r == NormalizeValues(values.value, choices)
  {
    if values.None? then [] else NormalizeValues(values.value, choices)
  }

  function Texts(xs: seq<string>): (vs: seq<JsValue>)
    ensures |vs| == |xs| && forall i :: 0 <= i < |xs| ==> vs[i] == JsString(xs[i])
  {
    seq(|xs|, i requires 0 <= i < |xs| => JsString(xs[i]))
  }

  /** The codes and slugs of the options are themselves neither numbers nor 'all'. */
  predicate KeysAreCodes(choices: seq<Choice>) {
    forall c :: c in choices && c.key.Some? ==> !NumericText(c.key.value) && c.key.value != "all"
  }

  /** Whatever normalisation gives out, it keeps when given again. */
  lemma NormalizeValueStable(v: JsValue, choices: seq<Choice>)
    requires KeysAreCodes(choices) && NormalizeValue(v, choices).Some?
    ensures NormalizeValue(JsString(NormalizeValue(v, choices).value), choices) == NormalizeValue(v, choices)
  {
    if !(v.JsString? && IsNaN(v)) {
      assert FirstMatch(choices, v).value in choices;
    }
  }

  /** Normalising an already normalised list changes nothing, so the conversion on arrival and the
      one on submit agree. */
  lemma {:induction false} NormalizeIdempotent(values: seq<JsValue>, choices: seq<Choice>)
    requires KeysAreCodes(choices)
    ensures NormalizeValues(Texts(NormalizeValues(values, choices)), choices) == NormalizeValues(values, choices)
  {
    if values != [] {
      var head := NormalizeValue(values[0], choices);
      var rest := NormalizeValues(values[1..], choices);
      NormalizeIdempotent(values[1..], choices);
      if head.Some? {
        NormalizeValueStable(values[0], choices);
        NormalizeKeptHead(head.value, rest, choices);
      } else {
        assert NormalizeValues(values, choices) == rest;
      }
    }
  }

  /** A value that normalises to itself stays at the head of the list. */
  lemma NormalizeKeptHead(x: string, rest: seq<string>, choices: seq<Choice>)
    requires NormalizeValue(JsString(x), choices) == Some(x)
    ensures NormalizeValues(Texts([x] + rest), choices) == [x] + NormalizeValues(Texts(rest), choices)
  {
    var xs := [x] + rest;
    TextsTail(xs);
    assert xs[1..] == rest;
    NormalizeValuesCons(Texts(xs), choices);
  }

  /** Texts maps element by element, so it commutes with dropping the head. */
  lemma TextsTail(xs: seq<string>)
    requires xs != []
    ensures Texts(xs)[1..] == Texts(xs[1..])
  {
    var l := Texts(xs)[1..];
    var r := Texts(xs[1..]);
    forall i | 0 <= i < |l| ensures l[i] == r[i] {
      assert l[i] == Texts(xs)[i + 1];
    }
  }

  lemma NormalizeValuesCons(values: seq<JsValue>, choices: seq<Choice>)
    requires values != []
    ensures NormalizeValues(values, choices)
         == (if NormalizeValue(values[0], choices).Some? then [NormalizeValue(values[0], choices).value] else [])
            + NormalizeValues(values[1..], choices)
  {
  }

  /** A list of codes that are not numbers passes unchanged, 'all' and blanks aside. */
  lemma {:induction false} CodesPassThrough(codes: seq<string>, choices: seq<Choice>)
    requires forall i :: 0 <= i < |codes| ==> codes[i] != "" && codes[i] != "all" && !NumericText(codes[i])
    ensures NormalizeValues(Texts(codes), choices) == codes
  {
    if codes != [] {
      var vs := Texts(codes);
      TextsTail(codes);
      assert NormalizeValue(vs[0], choices) == Some(codes[0]);
      CodesPassThrough(codes[1..], choices);
      NormalizeValuesCons(vs, choices);
    }
  }

  // ---------------------------------------------------------------- taste and submit

  predicate KeptTaste(v: JsValue) {
    v.JsString? && v.s != "" && v.s != "spicy"
  }

  /** The taste strings other than 'spicy', in order. */
  function TasteStrings(values: seq<JsValue>): (r: seq<string>)
    ensures |r| <= |values|
    ensures "spicy" !in r
    ensures forall x :: x in r ==> x != "" && JsString(x) in values
  {
    if values == [] then []
    else (if KeptTaste(values[0]) then [values[0].s] else []) + TasteStrings(values[1..])
  }

  function IsSpicy(x: string): bool { x == "spicy" }

  /** The submitted tastes: 'spicy' exactly once when the slider is at 3 or more, never otherwise. */
  function SubmittedTaste(taste: Option<seq<JsValue>>, spiceLevel: int): (r: seq<string>)
    ensures ("spicy" in r) <==> spiceLevel >= 3
    ensures Count(r, IsSpicy) == if spiceLevel >= 3 then 1 else 0
    ensures forall x :: x in r ==> x != ""
    ensures forall x :: x in r && x != "spicy" ==> taste.Some? && JsString(x) in taste.value
  {
    var kept := TasteStrings(taste.GetOr([]));
    CountNone(kept, IsSpicy);
    if spiceLevel >= 3 then
      CountAppend(kept, ["spicy"], IsSpicy);
      assert ["spicy"][1..] == [];
      kept + ["spicy"]
    else kept
  }

  datatype Filters = Filters(
    search: string,
    category: Option<seq<JsValue>>,
    region: Option<seq<JsValue>>,
    taste: Option<seq<JsValue>>,
    sort: string,
    page: int,
    /** 0 stands for an absent limit. */
    limit: int)

  /** handleSearchSubmit: the lists normalised, the tastes rebuilt from the slider, the first page,
      and a limit of 20 unless one is set; search and sort as they are. */
  function Submit(local: Filters, spiceLevel: int, categories: seq<Choice>, regions: seq<Choice>): (f: Filters)
    ensures f.search == local.search && f.sort == local.sort
    ensures f.page == 1 && f.limit == (if local.limit != 0 then local.limit else 20)
    ensures f.category == Some(Texts(NormalizeList(local.category, categories)))
    ensures f.region == Some(Texts(NormalizeList(local.region, regions)))
    ensures f.taste == Some(Texts(SubmittedTaste(local.taste, spiceLevel)))
  {
    local.(category := Some(Texts(NormalizeList(local.category, categories))),
           region := Some(Texts(NormalizeList(local.region, regions))),
           taste := Some(Texts(SubmittedTaste(local.taste, spiceLevel))),
           page := 1,
           limit := if local.limit != 0 then local.limit else 20)
  }

  /** The conversion applied when new filters arrive from the page. */
  function Converted(filters: Filters, categories: seq<Choice>, regions: seq<Choice>): (g: Filters)
    ensures g.(region := filters.region, category := filters.category, taste := filters.taste) == filters
    ensures g.region.Some? && g.category.Some? && g.taste.Some?
    ensures filters.taste.Some? ==> g.taste == filters.taste
  {
    filters.(region := Some(Texts(NormalizeList(filters.region, regions))),
             category := Some(Texts(NormalizeList(filters.category, categories))),
             taste := if filters.taste.None? then Some([]) else filters.taste)
  }

  function HasSpicy(taste: Option<seq<JsValue>>): bool {
    taste.Some? && JsString("spicy") in taste.value
  }

  class FilterPanel {
    var localFilters: Filters
    var spiceLevel: int
    var categories: seq<Choice>
    var regions: seq<Choice>

    /** The first render: the filters as given, the fallback options and the slider at 0. */
    constructor (filters: Filters)
      ensures localFilters == filters && spiceLevel == 0
      ensures categories == FallbackCategories && regions == FallbackRegions
    {
      localFilters := filters;
      spiceLevel := 0;
      categories := FallbackCategories;
      regions := FallbackRegions;
    }

    /** The effect on new filters (and on new option lists): the converted copy, and the slider
        back at 0 unless the incoming tastes hold 'spicy'. */
    method Receive(filters: Filters)
      modifies this
      ensures localFilters == Converted(filters, categories, regions)
      ensures spiceLevel == if HasSpicy(filters.taste) then old(spiceLevel) else 0
      ensures categories == old(categories) && regions == old(regions)
    {
      localFilters := Converted(filters, categories, regions);
      if !HasSpicy(filters.taste) {
        spiceLevel := 0;
      }
    }

    /** The option lists arrive; a payload that is not a list (or a failed fetch) keeps the
        current options. Only a newly set list re-runs the conversion effect on the page's
        filters, since the effect depends on the option lists and not on the fetch. */
    method OptionsLoaded(categoriesPayload: Option<seq<Choice>>, regionsPayload: Option<seq<Choice>>, filters: Filters)
      modifies this
      ensures categories == if categoriesPayload.Some? then categoriesPayload.value else old(categories)
      ensures regions == if regionsPayload.Some? then regionsPayload.value else old(regions)
      ensures categoriesPayload.Some? || regionsPayload.Some? ==>
                localFilters == Converted(filters, categories, regions)
                && spiceLevel == (if HasSpicy(filters.taste) then old(spiceLevel) else 0)
      ensures categoriesPayload.None? && regionsPayload.None? ==>
                localFilters == old(localFilters) && spiceLevel == old(spiceLevel)
    {
      if categoriesPayload.Some? {
        categories := categoriesPayload.value;
      }
      if regionsPayload.Some? {
        regions := regionsPayload.value;
      }
      if categoriesPayload.Some? || regionsPayload.Some? {
        Receive(filters);
      }
    }

    method ChangeSearch(search: string)
      modifies this
      ensures localFilters == old(localFilters).(search := search)
      ensures spiceLevel == old(spiceLevel) && categories == old(categories) && regions == old(regions)
    {
      localFilters := localFilters.(search := search);
    }

    /** Selecting 'all' clears the list, any other value makes it that one value; back to page 1,
        nothing submitted. */
    method SelectCategory(value: string)
      modifies this
      ensures localFilters == old(localFilters).(category := Some(if value == "all" then [] else [JsString(value)]), page := 1)
      ensures spiceLevel == old(spiceLevel) && categories == old(categories) && regions == old(regions)
    {
      localFilters := localFilters.(category := Some(if value == "all" then [] else [JsString(value)]), page := 1);
    }

    method SelectRegion(value: string)
      modifies this
      ensures localFilters == old(localFilters).(region := Some(if value == "all" then [] else [JsString(value)]), page := 1)
      ensures spiceLevel == old(spiceLevel) && categories == old(categories) && regions == old(regions)
    {
      localFilters := localFilters.(region := Some(if value == "all" then [] else [JsString(value)]), page := 1);
    }

    method ChangeSpice(level: int)
      modifies this
      ensures spiceLevel == level
      ensures localFilters == old(localFilters) && categories == old(categories) && regions == old(regions)
    {
      spiceLevel := level;
    }

    /** handleSearchSubmit: what is handed to the page; the panel's own state is left as it is. */
    method SearchSubmit() returns (submitted: Filters)
      ensures submitted == Submit(localFilters, spiceLevel, categories, regions)
      ensures submitted.page == 1
      ensures ("spicy" in SubmittedTaste(localFilters.taste, spiceLevel)) <==> spiceLevel >= 3
    {
      submitted := Submit(localFilters, spiceLevel, categories, regions);
    }
  }

  /** Selecting 'all' and submitting sends no region at all. */
  lemma SelectAllSubmitsNoRegion(local: Filters, spiceLevel: int, categories: seq<Choice>, regions: seq<Choice>)
    ensures Submit(local.(region := Some([])), spiceLevel, categories, regions).region == Some([])
  {
  }

  /** A region code selected from the list is submitted as itself. */
  lemma SelectedCodeSubmitted(local: Filters, code: string, spiceLevel: int, categories: seq<Choice>, regions: seq<Choice>)
    requires code != "" && code != "all" && !NumericText(code)
    ensures Submit(local.(region := Some([JsString(code)])), spiceLevel, categories, regions).region == Some([JsString(code)])
  {
    CodesPassThrough([code], regions);
    assert Texts([code]) == [JsString(code)];
  }
}
