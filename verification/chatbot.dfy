/** The FastAPI service's `ChatbotService`: the conversation preamble, translation with fallback to
    the source text, and quick-reply suggestion with its validation of the model's JSON answer.

    The chat-completion service is an argument: for translation, a function from (text, language
    code) to the message content it returns (`None` for a message without content); for quick
    replies, the outcome of the one call and a JSON decoder. */
module Chatbot {
  import opened Wrappers
  import opened Text
  import opened Lists
  import opened Json
  import opened Transcript
  import opened Config

  /** Message content the translation model returns for (text, target language code). */
  type TranslationModel = (string, string) -> Option<string>

  /** One entry of prompts.yaml. */
  datatype Scenario = Scenario(role: string, context: string)

  /** `translate_text`: the stripped translation, or the stripped source text when the model
      returns no content or empty content (Python's `content or text`). */
  function TranslateText(text: string, code: string, model: TranslationModel): (r: string)
    ensures Stripped(Python, r)
    ensures (model(text, code) == None || model(text, code) == Some("")) ==> r == Strip(text)
    ensures model(text, code).Some? && model(text, code).value != "" ==>
      r == Strip(model(text, code).value)
  {
    var content := model(text, code);
    Strip(if content.Some? && content.value != "" then content.value else text)
  }

  /** A model that echoes its input, or answers with the input already stripped, leaves the
      stripped input: translating is then the strip alone, and translating its own result again
      changes nothing. */
  lemma EchoTranslationIsStrip(text: string, code: string, model: TranslationModel)
    requires model(text, code) == Some(text) || model(text, code) == Some(Strip(text))
    ensures TranslateText(text, code, model) == Strip(text)
    ensures model(Strip(text), code) == Some(Strip(text)) ==>
      TranslateText(TranslateText(text, code, model), code, model) == TranslateText(text, code, model)
  {
    StripIdempotent(Python, text);
  }

  /** What `initialize_conversation` returns: the history, the context text to show, and the
      role text placed in the history. */
  datatype Opening = Opening(history: History, context: string, role: string)

  /** `initialize_conversation(language_key)`. */
  function InitializeConversation(languageKey: string, scenarios: map<string, Scenario>,
                                  model: TranslationModel): (r: Result<Opening>)
    ensures ScenarioName !in scenarios <==> r == Failure(KeyError(ScenarioName))
    ensures r.Success? <==> ScenarioName in scenarios
    ensures r.Success? ==>
      var sc := scenarios[ScenarioName];
      var code := Resolve(languageKey).code;
      && r.value.history == [Message(System, r.value.role)]
      && r.value.role == TranslateText(sc.role, code, model)
      && (languageKey == "german" ==> r.value.context == sc.context)
      && (languageKey != "german" ==> r.value.context == TranslateText(sc.context, code, model))
  {
    var sc :- Lookup(scenarios, ScenarioName);
    var target := Resolve(languageKey);
    var translatedRole := TranslateText(sc.role, target.code, model);
    var translatedContext :=
      if languageKey != "german" then TranslateText(sc.context, target.code, model) else sc.context;
    Success(Opening([Message(System, translatedRole)], translatedContext, translatedRole))
  }

  /** An unknown language key behaves like German for the role, but its context is still sent
      through translation (into "de"), since only the key "german" skips it. */
  lemma UnknownLanguageFallsBackToGerman(languageKey: string, scenarios: map<string, Scenario>,
                                         model: TranslationModel)
    requires languageKey !in LanguageConfig && ScenarioName in scenarios
    ensures var u := InitializeConversation(languageKey, scenarios, model);
      var g := InitializeConversation(DefaultLanguage, scenarios, model);
      && u.Success? && g.Success?
      && u.value.history == g.value.history
      && u.value.role == g.value.role
      && g.value.context == scenarios[ScenarioName].context
      && u.value.context == TranslateText(scenarios[ScenarioName].context, "de", model)
  {
    DefaultIsConfigured();
  }

  // ---------------------------------------------------------------------------------------------
  // Quick replies

  const MaxQuickReplies: nat := 4
  const MaxQuickReplyLength: nat := 30

  /** How the one chat-completion call of `suggest_short_answers` ended. */
  datatype ModelCall = CallRaised | Returned(content: Option<string>)

  /** A stripped answer the service accepts. */
  predicate Acceptable(x: string) {
    x != [] && |x| <= MaxQuickReplyLength && Stripped(Python, x)
  }

  /** What one body of the normalising loop keeps of an answer item: its stripped text, when the
      item is a string whose stripped text is non-empty and at most 30 characters long. */
  function Kept(item: Json): (r: Option<string>)
    ensures r.Some? ==> Acceptable(r.value)
  {
    if item.JString? then
      var v := Strip(item.s);
      if v != [] && |v| <= MaxQuickReplyLength then Some(v) else None
    else None
  }

  /** The loop keeps exactly the string items whose stripped text is non-empty and at most 30
      characters long, and keeps that stripped text. */
  lemma KeptIsStrip(item: Json)
    ensures Kept(item).Some? <==>
      item.JString? && Strip(item.s) != [] && |Strip(item.s)| <= MaxQuickReplyLength
    ensures Kept(item).Some? ==> Kept(item).value == Strip(item.s)
  {
  }

  /** `x` is what the loop keeps of one of the model's answers. */
  predicate Offered(items: seq<Json>, x: string) {
    exists j :: 0 <= j < |items| && Kept(items[j]) == Some(x)
  }

  /** The normalising loop: the kept answers, in order. */
  function Normalized(items: seq<Json>): (r: seq<string>)
    ensures forall i :: 0 <= i < |r| ==> Offered(items, r[i])
    ensures forall j :: 0 <= j < |items| && Kept(items[j]).Some? ==> Kept(items[j]).value in r
  {
    FilterMap(items, Kept)
  }

  /** Every kept answer is acceptable. */
  lemma OfferedIsAcceptable(items: seq<Json>, x: string)
    requires Offered(items, x)
    ensures Acceptable(x)
  {
  }

  /** `list(dict.fromkeys(normalized))[:4]`. */
  function NormalizeAnswers(items: seq<Json>): (r: seq<string>)
    ensures |r| <= MaxQuickReplies && Distinct(r)
    ensures forall i :: 0 <= i < |r| ==> Offered(items, r[i]) && Acceptable(r[i])
    ensures r <= Dedup(Normalized(items))
    ensures var d := Dedup(Normalized(items));
      |r| == if |d| <= MaxQuickReplies then |d| else MaxQuickReplies
    ensures |Dedup(Normalized(items))| <= MaxQuickReplies ==>
      forall j :: 0 <= j < |items| && Kept(items[j]).Some? ==> Kept(items[j]).value in r
  {
    var r := Take(Dedup(Normalized(items)), MaxQuickReplies);
    NormalizeAnswersFacts(items, r);
    r
  }

  lemma NormalizeAnswersFacts(items: seq<Json>, r: seq<string>)
    requires r == Take(Dedup(Normalized(items)), MaxQuickReplies)
    ensures Distinct(r)
    ensures forall i :: 0 <= i < |r| ==> Offered(items, r[i]) && Acceptable(r[i])
    ensures |Dedup(Normalized(items))| <= MaxQuickReplies ==>
      forall j :: 0 <= j < |items| && Kept(items[j]).Some? ==> Kept(items[j]).value in r
  {
    var n := Normalized(items);
    TakeOfDedup(n, MaxQuickReplies);
    forall i | 0 <= i < |r| ensures Offered(items, r[i]) && Acceptable(r[i]) {
      assert r[i] in n;
      OfferedIsAcceptable(items, r[i]);
    }
    if |Dedup(n)| <= MaxQuickReplies {
      forall j | 0 <= j < |items| && Kept(items[j]).Some? ensures Kept(items[j]).value in r {
        assert Kept(items[j]).value in n;
      }
    }
  }

  /** The model's parsed answer is in the service's vocabulary only when it is an object. */
  function AnswersOf(fields: map<string, Json>): Json {
    if "answers" in fields then fields["answers"] else JArray([])
  }

  /** `suggest_short_answers(text, language_key)`. */
  function SuggestShortAnswers(text: string, languageKey: string, call: ModelCall,
                               decode: string -> Option<Json>): (r: Result<seq<string>>)
    ensures AllSpace(Python, text) ==> r == Success([])
    ensures call.CallRaised? ==> r == Success([])
    ensures call.Returned? && AllSpace(Python, call.content.GetOr("")) ==> r == Success([])
    ensures r.Failure? <==>
      && !AllSpace(Python, text)
      && call.Returned?
      && !AllSpace(Python, call.content.GetOr(""))
      && decode(Strip(call.content.GetOr(""))).Some?
      && !decode(Strip(call.content.GetOr(""))).value.JObject?
    ensures r.Failure? ==> r.error == AttributeError("get")
    ensures !AllSpace(Python, text) && call.Returned? && !AllSpace(Python, call.content.GetOr("")) ==>
      var payload := decode(Strip(call.content.GetOr("")));
      payload.Some? && payload.value.JObject? && AnswersOf(payload.value.fields).JArray? ==>
        r == Success(NormalizeAnswers(AnswersOf(payload.value.fields).items))
    ensures !AllSpace(Python, text) && call.Returned? && !AllSpace(Python, call.content.GetOr("")) ==>
      decode(Strip(call.content.GetOr(""))).None? ==> r == Success([])
    ensures !AllSpace(Python, text) && call.Returned? && !AllSpace(Python, call.content.GetOr("")) ==>
      var payload := decode(Strip(call.content.GetOr("")));
      payload.Some? && payload.value.JObject? && !AnswersOf(payload.value.fields).JArray? ==>
        r == Success([])
    ensures r.Success? ==> |r.value| <= MaxQuickReplies && Distinct(r.value)
    ensures r.Success? ==> forall i :: 0 <= i < |r.value| ==> Acceptable(r.value[i])
  {
    var cleaned := Strip(text);
    if cleaned == [] then Success([])
    else
      match call
      case CallRaised => Success([])
      case Returned(content) =>
        var raw := Strip(content.GetOr(""));
        if raw == [] then Success([])
        else
          match decode(raw)
          case None => Success([])
          case Some(payload) =>
            if !payload.JObject? then Failure(AttributeError("get"))
            else
              match AnswersOf(payload.fields)
              case JArray(items) => Success(NormalizeAnswers(items))
              case _ => Success([])
  }

  /** Every suggestion is one of the model's own string answers, stripped: nothing is invented;
      and when the model offers at most four distinct acceptable answers, none is lost. */
  lemma SuggestionsComeFromModel(text: string, languageKey: string, content: string,
                                 decode: string -> Option<Json>, fields: map<string, Json>)
    requires !AllSpace(Python, text) && !AllSpace(Python, content)
    requires decode(Strip(content)) == Some(JObject(fields))
    requires "answers" in fields && fields["answers"].JArray?
    ensures var r := SuggestShortAnswers(text, languageKey, Returned(Some(content)), decode);
      var items := fields["answers"].items;
      && r.Success?
      && (forall i :: 0 <= i < |r.value| ==> Offered(items, r.value[i]))
      && (|Dedup(Normalized(items))| <= MaxQuickReplies ==>
            forall j :: 0 <= j < |items| && Kept(items[j]).Some? ==> Kept(items[j]).value in r.value)
  {
    var items := fields["answers"].items;
    assert Strip(text) != [];
    assert Strip(content) != [];
    assert AnswersOf(fields) == JArray(items);
    assert SuggestShortAnswers(text, languageKey, Returned(Some(content)), decode)
      == Success(NormalizeAnswers(items));
  }

  /** `text_to_speech`: the spoken form of a text. */
  datatype Speech = Speech(audio: seq<bv8>, mimeType: string)

  /** The speech service's answer: audio bytes for (text, voice locale). */
  type Synthesizer = (string, string) -> seq<bv8>

  /** `text_to_speech(text, language_key)`: nothing without credentials or when the service
      returns no audio; otherwise MP3 audio spoken with the language's speech locale. */
  function TextToSpeech(text: string, languageKey: string, credentials: Option<string>,
                        synthesize: Synthesizer): (r: Option<Speech>)
    ensures (credentials == None || credentials == Some("")) ==> r == None
    ensures credentials.Some? && credentials.value != "" ==>
      var audio := synthesize(text, Resolve(languageKey).speechLocale);
      (audio == [] <==> r == None)
      && (r.Some? ==> r.value == Speech(audio, "audio/mpeg"))
  {
    if credentials.None? || credentials.value == "" then None
    else
      var locale := Resolve(languageKey).speechLocale;
      var audio := synthesize(text, locale);
      if audio == [] then None else Some(Speech(audio, "audio/mpeg"))
  }

  /** Speech is synthesised in the locale of the requested language, and in German ("de-DE")
      for a language the table does not list. */
  lemma SpeechLocaleOfKey(text: string, languageKey: string, credentials: string,
                          synthesize: Synthesizer)
    requires credentials != "" && synthesize(text, Resolve(languageKey).speechLocale) != []
    ensures var r := TextToSpeech(text, languageKey, Some(credentials), synthesize);
      && r.Some?
      && (languageKey in LanguageConfig ==>
            r.value.audio == synthesize(text, LanguageConfig[languageKey].speechLocale))
      && (languageKey !in LanguageConfig ==> r.value.audio == synthesize(text, "de-DE"))
  {
  }
}
