/** Introductions written by a language model and the templates a user saves from them
    (backend/src/template/template.service.ts). The model itself, reached over the network, is a
    parameter: its reply, or its failure. */
module Templates {
  import opened Common
  import opened Dishes
  import Ordering

  // ---------------------------------------------------------------- taste description

  const SpicinessLabel := "辛さ"
  const SaltinessLabel := "塩味"
  const SweetnessLabel := "甘さ"
  const SournessLabel := "酸味"
  const Separator := '、'

  /** A level with its caption and the scale, or nothing for a level of 0. */
  function TasteEntry(caption: string, level: int): (e: Option<string>)
    ensures e.Some? <==> level != 0
    ensures e.Some? ==> e.value == caption + IntToString(level) + "/5"
  {
    if level != 0 then Some(caption + IntToString(level) + "/5") else None
  }

  /** `filter(Boolean)` on entries that are null or non-empty text. */
  function Present(entries: seq<Option<string>>): (parts: seq<string>)
    ensures |parts| <= |entries|
    ensures forall x :: x in parts <==> Some(x) in entries
  {
    if entries == [] then []
    else (if entries[0].Some? then [entries[0].value] else []) + Present(entries[1..])
  }

  /** The four levels of a dish in their fixed order, an absent level counting as 0. */
  function TasteEntries(d: Dish): seq<Option<string>> {
    [TasteEntry(SpicinessLabel, d.spicinessLevel.GetOr(0)),
     TasteEntry(SaltinessLabel, d.saltinessLevel.GetOr(0)),
     TasteEntry(SweetnessLabel, d.sweetnessLevel.GetOr(0)),
     TasteEntry(SournessLabel, d.sournessLevel.GetOr(0))]
  }

  function TasteDescription(d: Dish): string {
    Join(Present(TasteEntries(d)), [Separator])
  }

  predicate Tasteless(d: Dish) {
    d.spicinessLevel.GetOr(0) == 0 && d.saltinessLevel.GetOr(0) == 0
    && d.sweetnessLevel.GetOr(0) == 0 && d.sournessLevel.GetOr(0) == 0
  }

  lemma SeparatorNotInNumber(n: int)
    ensures Separator !in IntToString(n)
  {
    if n < 0 {
      var digits := NatToString(-n);
      assert IntToString(n) == "-" + digits;
      assert forall i :: 0 <= i < |digits| ==> IsDigit(digits[i]);
    } else {
      assert forall i :: 0 <= i < |NatToString(n)| ==> IsDigit(NatToString(n)[i]);
    }
  }

  lemma SeparatorNotInEntry(caption: string, level: int)
    requires Separator !in caption
    ensures TasteEntry(caption, level).Some? ==> Separator !in TasteEntry(caption, level).value
  {
    SeparatorNotInNumber(level);
  }

  /** A joined text is at least as long as its first part. */
  lemma JoinKeepsHead(parts: seq<string>, sep: string)
    requires parts != []
    ensures |Join(parts, sep)| >= |parts[0]|
  {
  }

  /** The description is empty exactly when every level is 0 or absent. */
  lemma TasteDescriptionEmpty(d: Dish)
    ensures TasteDescription(d) == "" <==> Tasteless(d)
  {
    var entries := TasteEntries(d);
    var parts := Present(entries);
    if Tasteless(d) {
      assert forall x :: Some(x) !in entries;
      assert parts == [];
    } else {
      var k :| 0 <= k < 4 && entries[k].Some?;
      assert entries[k] in entries;
      assert Some(parts[0]) in entries;
      assert parts[0] != "";
      JoinKeepsHead(parts, [Separator]);
    }
  }

  /** Split at '、', the description gives back exactly the entries of the non-zero levels. */
  lemma TasteDescriptionParts(d: Dish)
    requires !Tasteless(d)
    ensures Split(TasteDescription(d), Separator) == Present(TasteEntries(d))
  {
    var entries := TasteEntries(d);
    var parts := Present(entries);
    forall i | 0 <= i < |parts| ensures Separator !in parts[i] {
      assert Some(parts[i]) in entries;
      SeparatorNotInEntry(SpicinessLabel, d.spicinessLevel.GetOr(0));
      SeparatorNotInEntry(SaltinessLabel, d.saltinessLevel.GetOr(0));
      SeparatorNotInEntry(SweetnessLabel, d.sweetnessLevel.GetOr(0));
      SeparatorNotInEntry(SournessLabel, d.sournessLevel.GetOr(0));
    }
    var k :| 0 <= k < 4 && entries[k].Some?;
    assert entries[k] in entries;
    SplitJoin(parts, Separator);
  }

  lemma PresentOfFour(entries: seq<Option<string>>)
    requires |entries| == 4 && forall k :: 0 <= k < 4 ==> entries[k].Some?
    ensures Present(entries) == [entries[0].value, entries[1].value, entries[2].value, entries[3].value]
  {
    assert Present(entries[3..]) == [entries[3].value] by {
      assert entries[3..][1..] == [];
    }
    assert Present(entries[2..]) == [entries[2].value] + Present(entries[3..]) by {
      assert entries[2..][1..] == entries[3..];
    }
    assert Present(entries[1..]) == [entries[1].value] + Present(entries[2..]) by {
      assert entries[1..][1..] == entries[2..];
    }
  }

  /** With every level set, the four entries appear in the order spiciness, saltiness, sweetness, sourness. */
  lemma AllLevelsInOrder(d: Dish)
    requires d.spicinessLevel.GetOr(0) != 0 && d.saltinessLevel.GetOr(0) != 0
    requires d.sweetnessLevel.GetOr(0) != 0 && d.sournessLevel.GetOr(0) != 0
    ensures Split(TasteDescription(d), Separator) ==
      [SpicinessLabel + IntToString(d.spicinessLevel.value) + "/5",
       SaltinessLabel + IntToString(d.saltinessLevel.value) + "/5",
       SweetnessLabel + IntToString(d.sweetnessLevel.value) + "/5",
       SournessLabel + IntToString(d.sournessLevel.value) + "/5"]
  {
    var e := TasteEntries(d);
    assert e[0] == Some(SpicinessLabel + IntToString(d.spicinessLevel.value) + "/5");
    assert e[1] == Some(SaltinessLabel + IntToString(d.saltinessLevel.value) + "/5");
    assert e[2] == Some(SweetnessLabel + IntToString(d.sweetnessLevel.value) + "/5");
    assert e[3] == Some(SournessLabel + IntToString(d.sournessLevel.value) + "/5");
    TasteDescriptionParts(d);
    PresentOfFour(e);
  }

  // ---------------------------------------------------------------- the model's reply

  const OpeningFence := "```json"
  const ClosingFence := "```"

  /** `replace(/^```json\s*\/, '')`: a fence at the very start and the white space after it. */
  function StripOpeningFence(s: string): (r: string)
    ensures |r| <= |s|
  {
    if StartsWith(s, OpeningFence) then TrimStart(s[|OpeningFence|..]) else s
  }

  /** `replace(/```$/, '')`: a fence at the very end. */
  function StripClosingFence(s: string): (r: string)
    ensures |r| <= |s|
  {
    if EndsWith(s, ClosingFence) then s[..|s| - |ClosingFence|] else s
  }

  function CleanOutput(raw: string): (cleaned: string)
    ensures cleaned == "" || (!IsWhitespace(cleaned[0]) && !IsWhitespace(cleaned[|cleaned| - 1]))
    ensures |cleaned| <= |raw|
  {
    Trim(StripClosingFence(StripOpeningFence(raw)))
  }

  lemma TrimStartOfTrimmed(s: string)
    requires s != [] && !IsWhitespace(s[0])
    ensures TrimStart(s) == s
  {
  }

  /** A reply fenced as a JSON code block is cleaned to the block's content. */
  lemma CleanFencedReply(body: string)
    requires body != "" && !IsWhitespace(body[0]) && !IsWhitespace(body[|body| - 1])
    ensures CleanOutput(OpeningFence + "\n" + body + "\n" + ClosingFence) == body
  {
    StripFencedOpening(body);
    StripFencedClosing(body);
    TrimNewline(body);
  }

  lemma StripFencedOpening(body: string)
    requires body != "" && !IsWhitespace(body[0])
    ensures StripOpeningFence(OpeningFence + "\n" + body + "\n" + ClosingFence) == body + "\n" + ClosingFence
  {
    var raw := OpeningFence + "\n" + body + "\n" + ClosingFence;
    assert raw[..|OpeningFence|] == OpeningFence;
    var afterFence := body + "\n" + ClosingFence;
    assert raw[|OpeningFence|..] == "\n" + afterFence;
    assert TrimStart("\n" + afterFence) == TrimStart(afterFence) by {
      assert ("\n" + afterFence)[1..] == afterFence;
    }
    TrimStartOfTrimmed(afterFence);
  }

  lemma StripFencedClosing(body: string)
    ensures StripClosingFence(body + "\n" + ClosingFence) == body + "\n"
  {
    var afterFence := body + "\n" + ClosingFence;
    assert afterFence[|afterFence| - |ClosingFence|..] == ClosingFence;
    assert afterFence[..|afterFence| - |ClosingFence|] == body + "\n";
  }

  lemma TrimNewline(body: string)
    requires body != "" && !IsWhitespace(body[0]) && !IsWhitespace(body[|body| - 1])
    ensures Trim(body + "\n") == body
  {
    TrimStartOfTrimmed(body + "\n");
    assert (body + "\n")[..|body|] == body;
    assert TrimEnd(body + "\n") == TrimEnd(body);
    assert TrimEnd(body) == body;
  }

  /** A reply without fences is only trimmed. */
  lemma CleanPlainReply(raw: string)
    requires !StartsWith(raw, OpeningFence) && !EndsWith(TrimStart(raw), ClosingFence) && !EndsWith(raw, ClosingFence)
    ensures CleanOutput(raw) == Trim(raw)
  {
  }

  /** What `JSON.parse` yields for the two text fields; None when the text is not JSON or parses
      to null, whose field access throws. A missing field is undefined. */
  datatype ParsedReply = ParsedReply(generatedTextJa: JsValue, generatedTextVi: JsValue)

  /** The two texts: the parsed fields when both are truthy, else the cleaned reply twice. */
  function GeneratedTexts(cleaned: string, parse: string -> Option<ParsedReply>): (texts: (JsValue, JsValue))
    ensures parse(cleaned).Some? && Truthy(parse(cleaned).value.generatedTextJa) && Truthy(parse(cleaned).value.generatedTextVi)
            ==> texts == (parse(cleaned).value.generatedTextJa, parse(cleaned).value.generatedTextVi)
    ensures !(parse(cleaned).Some? && Truthy(parse(cleaned).value.generatedTextJa) && Truthy(parse(cleaned).value.generatedTextVi))
            ==> texts == (JsString(cleaned), JsString(cleaned))
    ensures (Truthy(texts.0) && Truthy(texts.1)) || (cleaned == "" && texts == (JsString(""), JsString("")))
  {
    var parsed := parse(cleaned);
    if parsed.Some? && Truthy(parsed.value.generatedTextJa) && Truthy(parsed.value.generatedTextVi) then
      (parsed.value.generatedTextJa, parsed.value.generatedTextVi)
    else
      (JsString(cleaned), JsString(cleaned))
  }

  // ---------------------------------------------------------------- generateIntroduction

  /** The model call: it throws, or answers with the first choice's content (possibly none). */
  datatype Completion = CompletionFailed | Completed(content: Option<string>)

  datatype NamedRef = NamedRef(id: nat, nameJapanese: string, nameVietnamese: string)

  datatype Introduction = Introduction(
    dishId: nat,
    dishNameJapanese: string,
    dishNameVietnamese: string,
    category: Option<NamedRef>,
    region: Option<NamedRef>,
    context: Option<string>,
    tasteDescription: Option<string>,
    ingredients: Option<string>,
    howToEat: Option<string>,
    generatedTextJa: JsValue,
    generatedTextVi: JsValue)

  datatype IntroError = DishMissing | ApiKeyMissing | GenerationFailed

  function CategoryRef(c: Option<Category>): (r: Option<NamedRef>)
    ensures r.Some? <==> c.Some?
  {
    if c.Some? then Some(NamedRef(c.value.id, c.value.nameJapanese, c.value.nameVietnamese)) else None
  }

  function RegionRef(r: Option<Region>): (n: Option<NamedRef>)
    ensures n.Some? <==> r.Some?
  {
    if r.Some? then Some(NamedRef(r.value.id, r.value.nameJapanese, r.value.nameVietnamese)) else None
  }

  /** The taste description as the response carries it: null when the dish has no taste level. */
  function TasteField(d: Dish): (t: Option<string>)
    ensures t.None? <==> Tasteless(d)
    ensures t.Some? ==> t.value == TasteDescription(d)
  {
    TasteDescriptionEmpty(d);
    NonEmptyOrNull(TasteDescription(d))
  }

  /** `text || null` on an optional column. */
  function NullIfEmpty(text: Option<string>): (r: Option<string>)
    ensures r.None? <==> text.None? || text.value == ""
    ensures r.Some? ==> r == text
  {
    OrElse(text, None)
  }

  /** The response for a dish once the reply has come: the dish's facts with the empty ones as
      null, and the texts drawn from the cleaned reply. */
  function Introduce(d: Dish, categories: map<nat, Category>, regions: map<nat, Region>, context: string,
                     content: Option<string>, parse: string -> Option<ParsedReply>): (i: Introduction)
    ensures (i.dishId, i.dishNameJapanese, i.dishNameVietnamese) == (d.id, d.nameJapanese, d.nameVietnamese)
    ensures i.category.Some? <==> d.categoryId.Some? && CategoryExists(categories, d.categoryId.value)
    ensures i.region.Some? <==> d.regionId.Some? && RegionExists(regions, d.regionId.value)
    ensures i.context.None? <==> context == ""
    ensures i.tasteDescription.None? <==> Tasteless(d)
    ensures i.ingredients.None? <==> d.ingredients.None? || d.ingredients.value == ""
    ensures i.howToEat.None? <==> d.howToEat.None? || d.howToEat.value == ""
    ensures (i.generatedTextJa, i.generatedTextVi) == GeneratedTexts(CleanOutput(content.GetOr("")), parse)
  {
    var texts := GeneratedTexts(CleanOutput(content.GetOr("")), parse);
    var category := CategoryRef(JoinedCategory(categories, d.categoryId));
    var region := RegionRef(JoinedRegion(regions, d.regionId));
    var ingredients := NullIfEmpty(d.ingredients);
    var howToEat := NullIfEmpty(d.howToEat);
    Introduction(d.id, d.nameJapanese, d.nameVietnamese, category, region,
      NonEmptyOrNull(context), TasteField(d), ingredients, howToEat, texts.0, texts.1)
  }

  /** generateIntroduction: a missing dish, then a missing key, then a failed call, in that order. */
  function GenerateIntroduction(dishes: map<nat, Dish>, categories: map<nat, Category>, regions: map<nat, Region>,
                                dishId: int, context: string, apiKeySet: bool, completion: Completion,
                                parse: string -> Option<ParsedReply>): (r: Result<Introduction, IntroError>)
    ensures r == Err(DishMissing) <==> !(dishId >= 0 && dishId as nat in dishes)
    ensures dishId >= 0 && dishId as nat in dishes ==> (r == Err(ApiKeyMissing) <==> !apiKeySet)
    ensures dishId >= 0 && dishId as nat in dishes && apiKeySet ==> (r.Err? <==> completion.CompletionFailed?)
    ensures r.Err? ==> r.error != GenerationFailed || completion.CompletionFailed?
    ensures r.Ok? ==> r.value == Introduce(dishes[dishId as nat], categories, regions, context, completion.content, parse)
  {
    if dishId < 0 || dishId as nat !in dishes then Err(DishMissing)
    else if !apiKeySet then Err(ApiKeyMissing)
    else if completion.CompletionFailed? then Err(GenerationFailed)
    else Ok(Introduce(dishes[dishId as nat], categories, regions, context, completion.content, parse))
  }

  // ---------------------------------------------------------------- saved templates

  datatype SavedTemplate = SavedTemplate(
    id: nat,
    userId: nat,
    dishId: nat,
    generatedTextJa: string,
    generatedTextVi: string,
    title: Option<string>,
    context: Option<string>,
    audioUrl: Option<string>,
    createdAt: int)

  /** A row with the dish it refers to. */
  datatype TemplateWithDish = TemplateWithDish(template: SavedTemplate, dish: Dish)

  /** FieldsRequired is the service's own check; InvalidArgument and UnknownDish are the database
      refusing a value of the wrong type and a dish id with no row. */
  datatype TemplateError = FieldsRequired | InvalidArgument | UnknownDish | TemplateNotFound | NotOwner

  function TemplateId(t: SavedTemplate): nat { t.id }
  function CreatedAt(t: SavedTemplate): int { t.createdAt }

  function OfUser(userId: nat): SavedTemplate -> bool {
    (t: SavedTemplate) => t.userId == userId
  }

  function HasId(id: int): SavedTemplate -> bool {
    (t: SavedTemplate) => t.id == id
  }

  function IdIsNot(id: int): SavedTemplate -> bool {
    (t: SavedTemplate) => t.id != id
  }

  /** Why a save is refused, in the order the checks happen; None when it goes through. The body
      arrives unvalidated, so its values are any JSON values. */
  function SaveRefusal(dishId: JsValue, generatedTextJa: JsValue, generatedTextVi: JsValue, dishes: map<nat, Dish>): Option<TemplateError> {
    if !Truthy(dishId) || !Truthy(generatedTextJa) || !Truthy(generatedTextVi) then Some(FieldsRequired)
    else if !dishId.JsNumber? || !generatedTextJa.JsString? || !generatedTextVi.JsString? then Some(InvalidArgument)
    else if dishId.n < 0 || dishId.n as nat !in dishes then Some(UnknownDish)
    else None
  }

  /** Whatever passes the checks names an existing dish and two non-empty texts. */
  lemma SaveAcceptsOnlyComplete(dishId: JsValue, generatedTextJa: JsValue, generatedTextVi: JsValue, dishes: map<nat, Dish>)
    requires SaveRefusal(dishId, generatedTextJa, generatedTextVi, dishes).None?
    ensures dishId.JsNumber? && dishId.n > 0 && dishId.n as nat in dishes
    ensures generatedTextJa.JsString? && generatedTextJa.s != ""
    ensures generatedTextVi.JsString? && generatedTextVi.s != ""
  {
  }

  /** The rows whose dish exists (the table's foreign key). */
  predicate ReferToDishes(templates: seq<SavedTemplate>, dishes: map<nat, Dish>) {
    forall t :: t in templates ==> t.dishId in dishes
  }

  /** Each row joined with the dish it refers to, in order. */
  function WithDishes(rows: seq<SavedTemplate>, dishes: map<nat, Dish>): (r: seq<TemplateWithDish>)
    requires ReferToDishes(rows, dishes)
    ensures |r| == |rows|
    ensures forall k :: 0 <= k < |r| ==> r[k] == TemplateWithDish(rows[k], dishes[rows[k].dishId])
  {
    if rows == [] then []
    else
      assert rows[0] in rows;
      assert forall t :: t in rows[1..] ==> t in rows;
      [TemplateWithDish(rows[0], dishes[rows[0].dishId])] + WithDishes(rows[1..], dishes)
  }

  /** The user's rows, newest first. */
  function NewestFirst(templates: seq<SavedTemplate>, userId: nat): (rows: seq<SavedTemplate>)
    ensures multiset(rows) == multiset(Filter(templates, OfUser(userId)))
    ensures |rows| == Count(templates, OfUser(userId))
    ensures forall t :: t in rows <==> t in templates && t.userId == userId
    ensures Ordering.SortedDesc(rows, CreatedAt)
  {
    var mine := Filter(templates, OfUser(userId));
    var rows := Ordering.SortDesc(mine, CreatedAt);
    CountIsFilterLength(templates, OfUser(userId));
    forall t ensures t in rows <==> t in mine {
      assert t in rows <==> t in multiset(rows);
      assert t in mine <==> t in multiset(mine);
    }
    rows
  }

  /** findUnique by id. */
  function FindTemplate(templates: seq<SavedTemplate>, id: int): (found: Option<SavedTemplate>)
    ensures found.Some? <==> exists t :: t in templates && t.id == id
    ensures found.Some? ==> found.value in templates && found.value.id == id
  {
    if templates == [] then None
    else if templates[0].id == id then Some(templates[0])
    else
      var rest := FindTemplate(templates[1..], id);
      assert forall t :: t in templates[1..] ==> t in templates;
      assert forall t :: t in templates && t != templates[0] ==> t in templates[1..];
      rest
  }

  /** With distinct ids, exactly one row carries an id that some row carries. */
  lemma {:induction false} OneRowWithId(templates: seq<SavedTemplate>, id: int)
    requires Ordering.KeysDistinct(templates, TemplateId)
    requires exists t :: t in templates && t.id == id
    ensures Count(templates, HasId(id)) == 1
  {
    var tail := templates[1..];
    assert Ordering.KeysDistinct(tail, TemplateId) by {
      forall i, j | 0 <= i < j < |tail| ensures tail[i].id != tail[j].id {
        assert tail[i] == templates[i + 1] && tail[j] == templates[j + 1];
      }
    }
    if templates[0].id == id {
      forall t | t in tail ensures !HasId(id)(t) {
        var m :| 0 <= m < |tail| && tail[m] == t;
        assert tail[m] == templates[m + 1];
      }
      CountNone(tail, HasId(id));
    } else {
      var t :| t in templates && t.id == id;
      assert t in tail;
      OneRowWithId(tail, id);
    }
  }

  class TemplateStore {
    var templates: seq<SavedTemplate>
    /** The id the next saved row receives. */
    var nextId: nat

    ghost predicate Valid()
      reads this
    {
      (forall t :: t in templates ==> t.id < nextId) && Ordering.KeysDistinct(templates, TemplateId)
    }

    constructor ()
      ensures Valid() && templates == [] && nextId == 1
    {
      templates := [];
      nextId := 1;
    }

    /** saveTemplate: a new row with title, context and audio URL null when not given, returned
        with its dish. */
    method SaveTemplate(userId: nat, dishId: JsValue, generatedTextJa: JsValue, generatedTextVi: JsValue,
                        title: Option<string>, context: Option<string>, audioUrl: Option<string>,
                        dishes: map<nat, Dish>, now: int) returns (r: Result<TemplateWithDish, TemplateError>)
      requires Valid()
      modifies this
      ensures Valid()
      ensures var refusal := SaveRefusal(dishId, generatedTextJa, generatedTextVi, dishes);
        && (r.Ok? <==> refusal.None?)
        && (r.Err? ==> r.error == refusal.value && templates == old(templates) && nextId == old(nextId))
      ensures r.Ok? ==>
        var row := SavedTemplate(old(nextId), userId, dishId.n as nat, generatedTextJa.s, generatedTextVi.s,
                                 title, context, audioUrl, now);
        && templates == old(templates) + [row] && nextId == old(nextId) + 1
        && r.value == TemplateWithDish(row, dishes[row.dishId])
    {
      var refusal := SaveRefusal(dishId, generatedTextJa, generatedTextVi, dishes);
      if refusal.Some? {
        return Err(refusal.value);
      }
      var row := SavedTemplate(nextId, userId, dishId.n as nat, generatedTextJa.s, generatedTextVi.s,
                               title, context, audioUrl, now);
      templates := templates + [row];
      nextId := nextId + 1;
      return Ok(TemplateWithDish(row, dishes[row.dishId]));
    }

    /** getSavedTemplates: the user's rows, newest first, each with its dish. */
    function GetSavedTemplates(userId: nat, dishes: map<nat, Dish>): (r: seq<TemplateWithDish>)
      reads this
      requires ReferToDishes(templates, dishes)
      ensures |r| == Count(templates, OfUser(userId))
      ensures forall k :: 0 <= k < |r| ==>
        r[k].template == NewestFirst(templates, userId)[k] && r[k].dish == dishes[r[k].template.dishId]
    {
      var rows := NewestFirst(templates, userId);
      CountIsFilterLength(templates, OfUser(userId));
      WithDishes(rows, dishes)
    }

    /** deleteTemplate: a missing row, then a row of someone else, are refused; otherwise exactly
        that row goes. */
    method DeleteTemplate(userId: nat, templateId: int) returns (r: Result<(), TemplateError>)
      requires Valid()
      modifies this
      ensures Valid() && nextId == old(nextId)
      ensures var found := FindTemplate(old(templates), templateId);
        && (found.None? ==> r == Err(TemplateNotFound))
        && (found.Some? && found.value.userId != userId ==> r == Err(NotOwner))
        && (found.Some? && found.value.userId == userId ==> r.Ok?)
      ensures r.Err? ==> templates == old(templates)
      ensures r.Ok? ==> templates == Filter(old(templates), IdIsNot(templateId))
                        && |templates| == |old(templates)| - 1
                        && forall t :: t in old(templates) && t.id != templateId ==> t in templates
    {
      var template := FindTemplate(templates, templateId);
      if template.None? {
        return Err(TemplateNotFound);
      }
      if template.value.userId != userId {
        return Err(NotOwner);
      }
      OneRowWithId(templates, templateId);
      CountComplement(templates, HasId(templateId), IdIsNot(templateId));
      Ordering.FilterKeepsKeysDistinct(templates, IdIsNot(templateId), TemplateId);
      templates := Filter(templates, IdIsNot(templateId));
      return Ok(());
    }
  }

  /** A deleted template is gone from every user's list and the owner's list is one shorter. */
  lemma DeletedLeavesList(templates: seq<SavedTemplate>, templateId: int, userId: nat)
    requires Ordering.KeysDistinct(templates, TemplateId)
    requires FindTemplate(templates, templateId).Some? && FindTemplate(templates, templateId).value.userId == userId
    ensures forall t :: t in NewestFirst(Filter(templates, IdIsNot(templateId)), userId) ==> t.id != templateId
    ensures |NewestFirst(Filter(templates, IdIsNot(templateId)), userId)| == |NewestFirst(templates, userId)| - 1
  {
    var after := Filter(templates, IdIsNot(templateId));
    var target := FindTemplate(templates, templateId).value;
    var mine := Filter(templates, OfUser(userId));
    var mineAfter := Filter(after, OfUser(userId));
    assert |NewestFirst(after, userId)| == |mineAfter| by {
      assert |multiset(NewestFirst(after, userId))| == |multiset(mineAfter)|;
    }
    assert |NewestFirst(templates, userId)| == |mine| by {
      assert |multiset(NewestFirst(templates, userId))| == |multiset(mine)|;
    }
    FilterCommutes(templates, IdIsNot(templateId), OfUser(userId));
    Ordering.FilterKeepsKeysDistinct(templates, OfUser(userId), TemplateId);
    assert target in mine;
    OneRowWithId(mine, templateId);
    CountComplement(mine, HasId(templateId), IdIsNot(templateId));
  }

  lemma {:induction false} FilterCommutes(s: seq<SavedTemplate>, p: SavedTemplate -> bool, q: SavedTemplate -> bool)
    ensures Filter(Filter(s, p), q) == Filter(Filter(s, q), p)
  {
    if s != [] {
      FilterCommutes(s[1..], p, q);
      FilterOfAppend([s[0]], Filter(s[1..], p), q);
      FilterOfAppend([s[0]], Filter(s[1..], q), p);
      FilterOfAppend([], Filter(s[1..], p), q);
      FilterOfAppend([], Filter(s[1..], q), p);
    }
  }

  lemma {:induction false} FilterOfAppend(a: seq<SavedTemplate>, b: seq<SavedTemplate>, p: SavedTemplate -> bool)
    ensures Filter(a + b, p) == Filter(a, p) + Filter(b, p)
  {
    if a == [] {
      assert a + b == b;
    } else {
      assert (a + b)[1..] == a[1..] + b;
      FilterOfAppend(a[1..], b, p);
    }
  }
}
