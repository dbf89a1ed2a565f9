/** The introduction generator panel (frontend/src/pages/ai-generator/AIIntroGenerator.jsx): its
    guards before a request, the list of the last six replies, the flattened list of texts it
    shows, and the tone read off a context. A reply is the JSON record the backend returns. */
module AiGenerator {
  import opened Common
  import Templates

  // ---------------------------------------------------------------- tone

  datatype Tone = Formal | Casual | Homestay | Presentation

  datatype ToneConfig = ToneConfig(tone: Tone, keywords: seq<string>)

  /** The tones in the order they are tried, with their keywords. */
  const ToneConfigs: seq<ToneConfig> := [
    ToneConfig(Formal, ["フォーマル", "formal", "thuyết trình", "ビジネス"]),
    ToneConfig(Casual, ["casual", "カジュアル", "bạn bè", "友達", "friend"]),
    ToneConfig(Homestay, ["home", "ホームステイ", "gia đình", "family"]),
    ToneConfig(Presentation, ["発表", "練習", "school", "học", "luyện nói"])]

  /** `keywords.some(k => value.includes(k.toLowerCase()))`. */
  function KeywordIn(value: string, keywords: seq<string>): (found: bool)
    ensures found <==> exists i :: 0 <= i < |keywords| && Contains(value, AsciiLower(keywords[i]))
  {
    if keywords == [] then false
    else if Contains(value, AsciiLower(keywords[0])) then true
    else
      var rest := KeywordIn(value, keywords[1..]);
      assert forall i :: 1 <= i < |keywords| ==> keywords[i] == keywords[1..][i - 1];
      rest
  }

  /** `configs.find(...)`: the first config with a keyword in the value. */
  function FindTone(value: string, configs: seq<ToneConfig>): (t: Option<Tone>)
    ensures t.None? <==> forall i :: 0 <= i < |configs| ==> !KeywordIn(value, configs[i].keywords)
    ensures t.Some? ==> exists i :: 0 <= i < |configs| && configs[i].tone == t.value && KeywordIn(value, configs[i].keywords)
                                    && forall j :: 0 <= j < i ==> !KeywordIn(value, configs[j].keywords)
  {
    if configs == [] then None
    else if KeywordIn(value, configs[0].keywords) then Some(configs[0].tone)
    else
      var t := FindTone(value, configs[1..]);
      assert forall i :: 1 <= i < |configs| ==> configs[i] == configs[1..][i - 1];
      if t.Some? then FirstMatchShifts(value, configs, t.value); t else t
  }

  /** A first match in the tail is a first match of the whole when the head does not match. */
  lemma FirstMatchShifts(value: string, configs: seq<ToneConfig>, t: Tone)
    requires |configs| > 0 && !KeywordIn(value, configs[0].keywords)
    requires exists i :: 0 <= i < |configs[1..]| && configs[1..][i].tone == t && KeywordIn(value, configs[1..][i].keywords)
                         && forall j :: 0 <= j < i ==> !KeywordIn(value, configs[1..][j].keywords)
    ensures exists i :: 0 <= i < |configs| && configs[i].tone == t && KeywordIn(value, configs[i].keywords)
                        && forall j :: 0 <= j < i ==> !KeywordIn(value, configs[j].keywords)
  {
    var i :| 0 <= i < |configs[1..]| && configs[1..][i].tone == t && KeywordIn(value, configs[1..][i].keywords)
             && forall j :: 0 <= j < i ==> !KeywordIn(value, configs[1..][j].keywords);
    assert configs[i + 1] == configs[1..][i];
    assert forall j :: 1 <= j < i + 1 ==> configs[j] == configs[1..][j - 1];
  }

  /** deriveToneMeta, up to the translated captions: the tone of the context, none when no keyword occurs. */
  function DeriveTone(text: Option<string>): (t: Option<Tone>)
    ensures var value := AsciiLower(text.GetOr(""));
      && (t.None? <==> forall i :: 0 <= i < |ToneConfigs| ==> !KeywordIn(value, ToneConfigs[i].keywords))
      && (t.Some? ==> exists i :: 0 <= i < |ToneConfigs| && ToneConfigs[i].tone == t.value
                                  && KeywordIn(value, ToneConfigs[i].keywords)
                                  && forall j :: 0 <= j < i ==> !KeywordIn(value, ToneConfigs[j].keywords))
  {
    FindTone(AsciiLower(text.GetOr("")), ToneConfigs)
  }

  /** A context that names a formal occasion is formal, whatever else it names. */
  lemma FormalWins(before: string, after: string)
    ensures DeriveTone(Some(before + "formal" + after)) == Some(Formal)
  {
    var value := AsciiLower(before + "formal" + after);
    assert value[|before|..|before| + 6] == "formal" by {
      forall i | 0 <= i < 6 ensures value[|before| + i] == "formal"[i] {
        assert (before + "formal" + after)[|before| + i] == "formal"[i];
      }
    }
    assert AsciiLower("formal") == "formal";
    ContainsAt(value, "formal", |before|);
    assert Contains(value, AsciiLower(ToneConfigs[0].keywords[1]));
  }

  // ---------------------------------------------------------------- results

  /** A reply as the page keeps it: a record of JSON values by key. */
  type Entry = map<string, JsValue>

  /** The record of the backend's reply, its nested category and region objects aside. */
  function IntroductionJson(i: Templates.Introduction): Entry {
    map["dishId" := JsNumber(i.dishId),
        "dishNameJapanese" := JsString(i.dishNameJapanese),
        "dishNameVietnamese" := JsString(i.dishNameVietnamese),
        "context" := OptionalText(i.context),
        "tasteDescription" := OptionalText(i.tasteDescription),
        "ingredients" := OptionalText(i.ingredients),
        "howToEat" := OptionalText(i.howToEat),
        "generatedTextJa" := i.generatedTextJa,
        "generatedTextVi" := i.generatedTextVi]
  }

  function OptionalText(s: Option<string>): JsValue {
    if s.Some? then JsString(s.value) else JsNull
  }

  /** `{ id, created_at, context, ...data }`: the reply's own keys win. */
  function NewEntry(id: string, createdAt: string, context: string, data: Entry): (e: Entry)
    ensures forall k :: k in data ==> k in e && e[k] == data[k]
    ensures "id" in e && "created_at" in e && "context" in e
  {
    map["id" := JsString(id), "created_at" := JsString(createdAt), "context" := JsString(context)] + data
  }

  const MaxResults := 6

  /** `[next, ...prev].slice(0, 6)`. */
  function PrependCapped(next: Entry, prev: seq<Entry>): (r: seq<Entry>)
    ensures 1 <= |r| <= MaxResults
    ensures r[0] == next && r[1..] == Take(prev, MaxResults - 1)
  {
    var r := Take([next] + prev, MaxResults);
    assert r[1..] == Take(prev, MaxResults - 1);
    r
  }

  datatype Lang = Ja | Vi

  datatype FlatItem = FlatItem(entry: Entry, lang: Lang, text: string)

  /** The text at a key, when it is a string. */
  function TextAt(e: Entry, key: string): Option<string> {
    if key in e && e[key].JsString? then Some(e[key].s) else None
  }

  function ItemIfShown(e: Entry, lang: Lang, text: Option<string>): (items: seq<FlatItem>)
    ensures |items| <= 1
    ensures items != [] <==> text.Some? && Trim(text.value) != ""
    ensures items != [] ==> items[0] == FlatItem(e, lang, text.value)
  {
    if text.Some? && Trim(text.value) != "" then [FlatItem(e, lang, text.value)] else []
  }

  /** One entry's items: its Japanese text, then its Vietnamese one, each only when not blank. */
  function EntryItems(e: Entry, jaKey: string, viKey: string): (items: seq<FlatItem>)
    ensures |items| <= 2
    ensures forall it :: it in items ==> it.entry == e && Trim(it.text) != ""
  {
    var ja := ItemIfShown(e, Ja, TextAt(e, jaKey));
    var vi := ItemIfShown(e, Vi, TextAt(e, viKey));
    assert forall it :: it in ja + vi ==> it in ja || it in vi;
    ja + vi
  }

  /** flattenedResults, reading the two texts at the given keys. */
  function Flatten(results: seq<Entry>, jaKey: string, viKey: string): (items: seq<FlatItem>)
    ensures |items| <= 2 * |results|
    ensures forall it :: it in items ==> it.entry in results && Trim(it.text) != ""
  {
    if results == [] then []
    else
      var rest := Flatten(results[1..], jaKey, viKey);
      assert forall e :: e in results[1..] ==> e in results;
      EntryItems(results[0], jaKey, viKey) + rest
  }

  /** Flattening a concatenation flattens each part, so items keep the order of the entries. */
  lemma {:induction false} FlattenAppend(a: seq<Entry>, b: seq<Entry>, jaKey: string, viKey: string)
    ensures Flatten(a + b, jaKey, viKey) == Flatten(a, jaKey, viKey) + Flatten(b, jaKey, viKey)
  {
    if a == [] {
      assert a + b == b;
    } else {
      assert (a + b)[1..] == a[1..] + b;
      FlattenAppend(a[1..], b, jaKey, viKey);
    }
  }

  /** The keys the page reads, as written. */
  const JaKeyAsWritten := "generated_text_ja"
  const ViKeyAsWritten := "generated_text_vi"

  /** The keys the backend's reply carries. */
  const JaKey := "generatedTextJa"
  const ViKey := "generatedTextVi"

  /** An entry made from a backend reply has no text under the keys the page reads. */
  lemma ReplyLacksReadKeys(id: string, createdAt: string, context: string, i: Templates.Introduction)
    ensures TextAt(NewEntry(id, createdAt, context, IntroductionJson(i)), JaKeyAsWritten).None?
    ensures TextAt(NewEntry(id, createdAt, context, IntroductionJson(i)), ViKeyAsWritten).None?
  {
  }

  /** Reading the keys as written, a list of entries without those keys shows no text at all. */
  lemma {:induction false} FlattenAsWrittenShowsNothing(results: seq<Entry>)
    requires forall k :: 0 <= k < |results| ==> TextAt(results[k], JaKeyAsWritten).None? && TextAt(results[k], ViKeyAsWritten).None?
    ensures Flatten(results, JaKeyAsWritten, ViKeyAsWritten) == []
  {
    if results != [] {
      assert forall k :: 0 <= k < |results[1..]| ==> results[1..][k] == results[k + 1];
      FlattenAsWrittenShowsNothing(results[1..]);
    }
  }

  /** The reply's texts sit under its own keys in the entry made from it. */
  lemma ReplyCarriesTexts(id: string, createdAt: string, context: string, i: Templates.Introduction)
    ensures var e := NewEntry(id, createdAt, context, IntroductionJson(i));
      && (i.generatedTextJa.JsString? ==> TextAt(e, JaKey) == Some(i.generatedTextJa.s))
      && (i.generatedTextVi.JsString? ==> TextAt(e, ViKey) == Some(i.generatedTextVi.s))
  {
    var data := IntroductionJson(i);
    assert JaKey in data && data[JaKey] == i.generatedTextJa;
    assert ViKey in data && data[ViKey] == i.generatedTextVi;
  }

  /** Reading the reply's own keys, an entry with a non-blank Japanese text shows it first. */
  lemma TextShownFirst(e: Entry, text: string, rest: seq<Entry>)
    requires TextAt(e, JaKey) == Some(text) && Trim(text) != ""
    ensures Flatten([e] + rest, JaKey, ViKey)[0] == FlatItem(e, Ja, text)
  {
    assert ([e] + rest)[1..] == rest;
    assert ItemIfShown(e, Ja, TextAt(e, JaKey)) == [FlatItem(e, Ja, text)];
  }

  /** As written: a reply put in front of a list that shows nothing shows nothing either, so the
      panel never displays a generated text. */
  lemma FreshReplyHidden(id: string, createdAt: string, context: string, i: Templates.Introduction, prev: seq<Entry>)
    requires forall k :: 0 <= k < |prev| ==> TextAt(prev[k], JaKeyAsWritten).None? && TextAt(prev[k], ViKeyAsWritten).None?
    ensures Flatten(PrependCapped(NewEntry(id, createdAt, context, IntroductionJson(i)), prev), JaKeyAsWritten, ViKeyAsWritten) == []
  {
    var results := PrependCapped(NewEntry(id, createdAt, context, IntroductionJson(i)), prev);
    ReplyLacksReadKeys(id, createdAt, context, i);
    forall k | 0 <= k < |results|
      ensures TextAt(results[k], JaKeyAsWritten).None? && TextAt(results[k], ViKeyAsWritten).None?
    {
      if k > 0 {
        assert results[k] == results[1..][k - 1] == prev[k - 1];
      }
    }
    FlattenAsWrittenShowsNothing(results);
  }

  /** Corrected: reading the reply's own keys, the newest entry's Japanese text is the first item
      shown; with ReplyCarriesTexts this is the case of every reply carrying a non-blank text. */
  lemma NewestShownFirst(e: Entry, text: string, prev: seq<Entry>)
    requires TextAt(e, JaKey) == Some(text) && Trim(text) != ""
    ensures Flatten(PrependCapped(e, prev), JaKey, ViKey)[0] == FlatItem(e, Ja, text)
  {
    var results := PrependCapped(e, prev);
    assert results == [e] + results[1..];
    TextShownFirst(e, text, results[1..]);
  }

  // ---------------------------------------------------------------- handleGenerate

  datatype GenError = DishMissing | ContextMissing | NeedLogin | RequestFailed

  /** The body sent to the backend. */
  datatype GenerateRequest = GenerateRequest(dishId: int, context: string)

  /** The guards of handleGenerate, in their order: a dish id, a context that is not blank, and a
      stored token. */
  function Refusal(dishId: Option<int>, context: string, token: Option<string>): (refused: Option<GenError>)
    ensures refused.None? <==> dishId.Some? && dishId.value != 0 && Trim(context) != "" && token.Some? && token.value != ""
    ensures dishId.None? || dishId.value == 0 ==> refused == Some(DishMissing)
    ensures dishId.Some? && dishId.value != 0 && Trim(context) == "" ==> refused == Some(ContextMissing)
    ensures dishId.Some? && dishId.value != 0 && Trim(context) != "" && (token.None? || token.value == "") ==> refused == Some(NeedLogin)
  {
    if dishId.None? || dishId.value == 0 then Some(DishMissing)
    else if Trim(context) == "" then Some(ContextMissing)
    else if token.None? || token.value == "" then Some(NeedLogin)
    else None
  }

  class Generator {
    var context: string
    var isGenerating: bool
    var error: Option<GenError>
    var results: seq<Entry>

    ghost predicate Valid()
      reads this
    {
      |results| <= MaxResults
    }

    constructor ()
      ensures Valid() && context == "" && !isGenerating && error.None? && results == []
    {
      context := "";
      isGenerating := false;
      error := None;
      results := [];
    }

    method EditContext(text: string)
      modifies this
      ensures context == text
      ensures isGenerating == old(isGenerating) && error == old(error) && results == old(results)
    {
      context := text;
    }

    /** handleGenerate. The guards, in order, set an error and send nothing; a sent request ends
        with isGenerating false, and a reply is put in front of the last five. `dishId` is the
        dish's id, `token` the stored access token, and `reply` the backend's answer (none when
        the call fails). */
    method Generate(dishId: Option<int>, token: Option<string>, reply: Option<Entry>, entryId: string, createdAt: string)
      returns (request: Option<GenerateRequest>)
      requires Valid()
      modifies this
      ensures Valid() && context == old(context)
      ensures var refused := Refusal(dishId, old(context), token);
        && (refused.Some? ==> request.None? && error == refused && isGenerating == old(isGenerating) && results == old(results))
        && (refused.None? ==>
              && request == Some(GenerateRequest(dishId.value, Trim(context)))
              && !isGenerating
              && (reply.None? ==> error == Some(RequestFailed) && results == old(results))
              && (reply.Some? ==> error.None? && results == PrependCapped(NewEntry(entryId, createdAt, Trim(context), reply.value), old(results))))
    {
      var refused := Refusal(dishId, context, token);
      if refused.Some? {
        error := refused;
        return None;
      }
      var trimmed := Trim(context);
      isGenerating := true;
      error := None;
      request := Some(GenerateRequest(dishId.value, trimmed));
      if reply.None? {
        error := Some(RequestFailed);
      } else {
        var nextEntry := NewEntry(entryId, createdAt, trimmed, reply.value);
        results := PrependCapped(nextEntry, results);
      }
      isGenerating := false;
    }
  }
}
