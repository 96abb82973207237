/** The Gradio teacher app (app.py): the scenario preamble, one conversation turn, the visible
    chat of (user, assistant) pairs, the translation toggle and the proposed answer.

    The translator, the chat model and the speech synthesiser are arguments or left out: the
    translator maps (text, language code) to the translated text, the chat model maps the
    message list it is sent to its reply. */
module TeacherApp {
  import opened Wrappers
  import opened Transcript
  import opened Prompts

  /** One entry of `language_dict`: the translation code and the speech-recognition locale. */
  datatype Codes = Codes(translation: string, speech: string)

  const LanguageDict: map<string, Codes> := map[
    "swedish" := Codes("sv", "sv-SV"),
    "english" := Codes("en", "en-EN"),
    "german" := Codes("de", "de-DE"),
    "french" := Codes("fr", "fr-FR"),
    "spanish" := Codes("es", "es-ES"),
    "portugese(BR)" := Codes("pt", "pt-BR"),
    "hindi" := Codes("hi", "hi-IN")
  ]

  /** Every speech locale is the translation code, a dash and a two-letter region. */
  lemma SpeechLocalesExtendCodes()
    ensures forall k :: k in LanguageDict ==>
      var c := LanguageDict[k];
      |c.speech| == |c.translation| + 3 && c.speech[..|c.translation| + 1] == c.translation + "-"
  {
  }

  /** `language_dict[key][0]`: `KeyError` for a language the table does not list. */
  function TranslationCode(key: string): (r: Result<string>)
    ensures key in LanguageDict <==> r.Success?
    ensures r.Success? ==> r.value == LanguageDict[key].translation
    ensures r.Failure? ==> r.error == KeyError(key)
  {
    var codes :- Lookup(LanguageDict, key);
    Success(codes.translation)
  }

  /** googletrans: the text translated into the language with the given code. */
  type Translator = (string, string) -> string

  /** `text2bot`: the chat model's reply to the messages it is sent. */
  type ChatModel = History -> string

  /** One level of `setup`: the teacher prompt and the scenario texts by title. */
  datatype LevelSetup = LevelSetup(teacher: string, scenarios: map<string, string>)

  type Setup = map<string, LevelSetup>

  const ScenarioTitle: string := "Uppgift 1: Möt Sabrina"

  /** `setup`: both levels share the one scenario, under its title; each level has its own
      teacher prompt (for the levels named by `BeginnerDef` and `AdvancedDef`, see
      `Prompts.BeginnerLevel` and `Prompts.AdvancedLevel`). */
  function AppSetup(beginnerTeacher: string, advancedTeacher: string, scenarioText: string): (s: Setup)
    ensures s.Keys == {BeginnerDef, AdvancedDef}
    ensures s[BeginnerDef].scenarios == s[AdvancedDef].scenarios == map[ScenarioTitle := scenarioText]
    ensures s[BeginnerDef].teacher == beginnerTeacher && s[AdvancedDef].teacher == advancedTeacher
  {
    var scenarios := map[ScenarioTitle := scenarioText];
    assert BeginnerDef[0] != AdvancedDef[0];
    map[BeginnerDef := LevelSetup(beginnerTeacher, scenarios),
        AdvancedDef := LevelSetup(advancedTeacher, scenarios)]
  }

  /** Initialising the app's one scenario succeeds for every level and every listed language. */
  lemma AppScenarioStarts(beginnerTeacher: string, advancedTeacher: string, scenarioText: string,
                          level: string, targetLanguage: string, history: History, translate: Translator)
    requires level == BeginnerDef || level == AdvancedDef
    requires targetLanguage in LanguageDict
    ensures var setup := AppSetup(beginnerTeacher, advancedTeacher, scenarioText);
      var r := InitializeScenario(level, ScenarioTitle, targetLanguage, history, setup, translate);
      && r.Success?
      && r.value[1].content == translate(scenarioText, LanguageDict[targetLanguage].translation)
  {
  }

  // ---------------------------------------------------------------------------------------------
  // The preamble and the turns

  /** `initialize_scenario`: the incoming history is ignored; the result is the level's teacher
      prompt and the scenario text, both translated into the target language, as two system
      messages. The lookups fail in source order: level, scenario, language. */
  function InitializeScenario(level: string, scenario: string, targetLanguage: string,
                              history: History, setup: Setup, translate: Translator): (r: Result<History>)
    ensures level !in setup ==> r == Failure(KeyError(level))
    ensures level in setup && scenario !in setup[level].scenarios ==> r == Failure(KeyError(scenario))
    ensures level in setup && scenario in setup[level].scenarios && targetLanguage !in LanguageDict ==>
      r == Failure(KeyError(targetLanguage))
    ensures r.Success? <==>
      level in setup && scenario in setup[level].scenarios && targetLanguage in LanguageDict
    ensures r.Success? ==>
      var code := LanguageDict[targetLanguage].translation;
      && |r.value| == 2
      && r.value[0] == Message(System, translate(setup[level].teacher, code))
      && r.value[1] == Message(System, translate(setup[level].scenarios[scenario], code))
  {
    var levelSetup :- Lookup(setup, level);
    var rolePrompt :- Lookup(levelSetup.scenarios, scenario);
    var code :- TranslationCode(targetLanguage);
    Success([Message(System, translate(levelSetup.teacher, code)),
             Message(System, translate(rolePrompt, code))])
  }

  /** `[(h[i].content, h[i + 1].content) for i in range(start, len(h) - 1, 2)]`. */
  function PairsFrom(h: History, start: nat): (r: seq<(string, string)>)
    ensures |r| == if start <= |h| then (|h| - start) / 2 else 0
    ensures forall k :: 0 <= k < |r| ==>
      start + 2 * k + 1 < |h| && r[k] == (h[start + 2 * k].content, h[start + 2 * k + 1].content)
    decreases |h| - start
  {
    if start + 1 < |h| then [(h[start].content, h[start + 1].content)] + PairsFrom(h, start + 2)
    else []
  }

  /** The chat the app shows: the messages after the two-message preamble, paired as (user,
      assistant), dropping a trailing unpaired message. */
  function VisibleChat(h: History): (r: seq<(string, string)>)
    ensures |r| == if |h| < 2 then 0 else (|h| - 2) / 2
    ensures forall k :: 0 <= k < |r| ==> r[k] == (h[2 + 2 * k].content, h[3 + 2 * k].content)
  {
    PairsFrom(h, 2)
  }

  /** The history of a running conversation: the preamble, then user and assistant messages
      alternating, ending with an assistant message. */
  predicate Alternates(h: History) {
    && |h| >= 2 && |h| % 2 == 0
    && (forall j :: 2 <= j < |h| ==> h[j].role == (if j % 2 == 0 then User else Assistant))
  }

  datatype Turn = Turn(chat: seq<(string, string)>, history: History)

  /** `main`: the preview text as a user message, the model's reply to the history so far as an
      assistant message, and the chat shown afterwards. The reply is spoken in the target
      language, whose code lookup fails for a language not in the table. */
  function Main(previewText: string, targetLanguage: string, history: History,
                bot: ChatModel): (r: Result<Turn>)
    ensures targetLanguage !in LanguageDict <==> r == Failure(KeyError(targetLanguage))
    ensures r.Success? <==> targetLanguage in LanguageDict
    ensures r.Success? ==>
      var asked := history + [Message(User, previewText)];
      && r.value.history == asked + [Message(Assistant, bot(asked))]
      && r.value.chat == VisibleChat(r.value.history)
  {
    var asked := history + [Message(User, previewText)];
    var reply := bot(asked);
    var updated := asked + [Message(Assistant, reply)];
    var _ :- TranslationCode(targetLanguage);
    Success(Turn(VisibleChat(updated), updated))
  }

  /** A turn keeps the history alternating and leaves the earlier messages as they were. */
  lemma TurnKeepsAlternation(previewText: string, targetLanguage: string, history: History,
                             bot: ChatModel)
    requires Alternates(history) && targetLanguage in LanguageDict
    ensures var r := Main(previewText, targetLanguage, history, bot);
      && r.Success?
      && Alternates(r.value.history)
      && |r.value.history| == |history| + 2
      && r.value.history[..|history|] == history
  {
    var h := Main(previewText, targetLanguage, history, bot).value.history;
    assert h[..|history|] == history;
  }

  /** A turn adds exactly one pair to the chat: the preview text and the reply. */
  lemma TurnAppendsOnePair(previewText: string, targetLanguage: string, history: History,
                           bot: ChatModel)
    requires Alternates(history) && targetLanguage in LanguageDict
    ensures var r := Main(previewText, targetLanguage, history, bot);
      var asked := history + [Message(User, previewText)];
      r.Success? && r.value.chat == VisibleChat(history) + [(previewText, bot(asked))]
  {
    var asked := history + [Message(User, previewText)];
    var h := asked + [Message(Assistant, bot(asked))];
    ChatOfLonger(history, h);
  }

  /** Appending a pair to an even-length history appends its pair to the chat. */
  lemma ChatOfLonger(history: History, h: History)
    requires |history| >= 2 && |history| % 2 == 0
    requires |h| == |history| + 2 && h[..|history|] == history
    ensures VisibleChat(h) == VisibleChat(history) + [(h[|history|].content, h[|history| + 1].content)]
  {
    var before := VisibleChat(history);
    var after := VisibleChat(h);
    assert |after| == |before| + 1;
    forall k | 0 <= k < |before| ensures after[k] == before[k] {
      assert h[2 + 2 * k] == history[2 + 2 * k] && h[3 + 2 * k] == history[3 + 2 * k];
    }
  }

  /** Starting over with `initialize_scenario` and taking turns: the history alternates, and the
      chat has one pair per turn. */
  lemma PreambleAlternates(level: string, scenario: string, targetLanguage: string, history: History,
                           setup: Setup, translate: Translator)
    ensures var r := InitializeScenario(level, scenario, targetLanguage, history, setup, translate);
      r.Success? ==> Alternates(r.value) && VisibleChat(r.value) == []
  {
  }

  // ---------------------------------------------------------------------------------------------
  // Reset and setup

  /** `reset_history`: the chat is cleared and the history starts over with the preamble, whatever
      it held before. */
  function ResetHistory(targetLanguage: string, level: string, scenario: string, history: History,
                        setup: Setup, translate: Translator): (r: Result<History>)
    ensures r.Success? <==>
      level in setup && scenario in setup[level].scenarios && targetLanguage in LanguageDict
    ensures r.Success? ==> Alternates(r.value) && VisibleChat(r.value) == []
    ensures r.Success? ==>
      var code := LanguageDict[targetLanguage].translation;
      r.value == [Message(System, translate(setup[level].teacher, code)),
                  Message(System, translate(setup[level].scenarios[scenario], code))]
  {
    InitializeScenario(level, scenario, targetLanguage, history, setup, translate)
  }

  datatype Introduction = Introduction(text: string, history: History)

  /** `setup_main`: the preamble, and its second message, the translated scenario, as the
      introduction text that is shown and spoken. */
  function SetupMain(targetLanguage: string, level: string, scenario: string, history: History,
                     setup: Setup, translate: Translator): (r: Result<Introduction>)
    ensures r.Success? <==>
      level in setup && scenario in setup[level].scenarios && targetLanguage in LanguageDict
    ensures r.Success? ==>
      && |r.value.history| == 2
      && r.value.text == r.value.history[1].content
      && r.value.text == translate(setup[level].scenarios[scenario], LanguageDict[targetLanguage].translation)
  {
    var h :- InitializeScenario(level, scenario, targetLanguage, history, setup, translate);
    Success(Introduction(h[1].content, h))
  }

  // ---------------------------------------------------------------------------------------------
  // Translated view

  datatype ChatView = ChatView(chat: seq<(string, string)>, translated: bool, history: History)

  /** The number of pairs the app shows for a history. */
  function Pairs(h: History): nat {
    if |h| < 2 then 0 else (|h| - 2) / 2
  }

  /** What the translation toggle shows when it turns translation on: every shown message
      translated on its own. */
  function TranslatedChat(h: History, code: string, translate: Translator): (r: seq<(string, string)>)
  {
    seq(Pairs(h), k requires 0 <= k < Pairs(h) =>
      (translate(h[2 + 2 * k].content, code), translate(h[3 + 2 * k].content, code)))
  }

  /** The outcome of `trans_chat`, stated per case. */
  function TransChatOutcome(nativeLanguage: string, translated: bool, history: History,
                         translate: Translator): Result<ChatView>
  {
    if translated then Success(ChatView(VisibleChat(history), false, history))
    else if |history| < 4 then Failure(UnboundLocalError("msg_chat"))
    else if nativeLanguage !in LanguageDict then Failure(KeyError(nativeLanguage))
    else
      var code := LanguageDict[nativeLanguage].translation;
      Success(ChatView(TranslatedChat(history, code, translate), true, history))
  }

  /** The history with the messages before index `upTo` from index 2 on translated. */
  predicate TranslatedUpTo(copy: History, h: History, upTo: nat, code: string, translate: Translator) {
    && |copy| == |h|
    && (forall j :: 0 <= j < |h| && (j < 2 || j >= upTo) ==> copy[j] == h[j])
    && (forall j :: 2 <= j < upTo && j < |h| ==>
          copy[j] == h[j].(content := translate(h[j].content, code)))
  }

  /** `trans_chat`: flips the flag; turning translation off shows the history as it is, turning it
      on translates a deep copy pair by pair, rebuilding the shown chat after each pair. With
      fewer than four messages the loop never runs and the chat variable is never bound. */
  method TransChat(nativeLanguage: string, translated: bool, history: History,
                   translate: Translator) returns (r: Result<ChatView>)
    ensures r == TransChatOutcome(nativeLanguage, translated, history, translate)
  {
    var nowTranslated := !translated;
    if !nowTranslated {
      return Success(ChatView(VisibleChat(history), nowTranslated, history));
    }
    var copy := history;
    var chat: Option<seq<(string, string)>> := None;
    var i := 2;
    var code := "";
    while i < |history| - 1
      invariant 2 <= i && i % 2 == 0
      invariant i <= |history| || i == 2
      invariant chat.None? <==> i == 2
      invariant i > 2 ==> nativeLanguage in LanguageDict && code == LanguageDict[nativeLanguage].translation
      invariant TranslatedUpTo(copy, history, i, code, translate)
      invariant chat.Some? ==> chat.value == VisibleChat(copy)
      decreases |history| - i
    {
      var c := TranslationCode(nativeLanguage);
      if c.Failure? {
        return Failure(c.error);
      }
      code := c.value;
      copy := copy[i := copy[i].(content := translate(history[i].content, code))];
      copy := copy[i + 1 := copy[i + 1].(content := translate(history[i + 1].content, code))];
      chat := Some(VisibleChat(copy));
      i := i + 2;
    }
    if chat.None? {
      return Failure(UnboundLocalError("msg_chat"));
    }
    TranslatedCopyShows(copy, history, i, code, translate);
    return Success(ChatView(chat.value, nowTranslated, history));
  }

  /** Once every pair is translated, the copy shows the translated chat. */
  lemma TranslatedCopyShows(copy: History, h: History, upTo: nat, code: string, translate: Translator)
    requires |h| >= 4 && upTo >= |h| - 1 && upTo % 2 == 0
    requires TranslatedUpTo(copy, h, upTo, code, translate)
    ensures VisibleChat(copy) == TranslatedChat(h, code, translate)
  {
    var a := VisibleChat(copy);
    var b := TranslatedChat(h, code, translate);
    assert |a| == |b|;
    forall k | 0 <= k < |a| ensures a[k] == b[k] {
      assert 3 + 2 * k < upTo;
    }
  }

  /** Turning translation on and off again shows the untranslated chat, and no toggle changes
      the history. */
  lemma ToggleTwiceRestores(nativeLanguage: string, history: History, translate: Translator)
    requires |history| >= 4 && nativeLanguage in LanguageDict
    ensures var on := TransChatOutcome(nativeLanguage, false, history, translate);
      && on.Success? && on.value.translated && on.value.history == history
      && |on.value.chat| == |VisibleChat(history)|
      && var off := TransChatOutcome(nativeLanguage, on.value.translated, on.value.history, translate);
         off == Success(ChatView(VisibleChat(history), false, history))
  {
  }

  /** With the identity translator the translated chat is the chat. */
  lemma IdentityTranslationShowsChat(h: History, code: string)
    ensures TranslatedChat(h, code, (text, c) => text) == VisibleChat(h)
  {
    var a := TranslatedChat(h, code, (text, c) => text);
    var b := VisibleChat(h);
    assert |a| == |b|;
    forall k | 0 <= k < |a| ensures a[k] == b[k] {
    }
  }

  // ---------------------------------------------------------------------------------------------
  // Proposed answer

  /** The message with the opposite conversational role; the system role stays. */
  function Flip(role: Role): Role {
    match role
    case User => Assistant
    case Assistant => User
    case System => System
  }

  /** A copy of the history with the pair at `i`, `i + 1` given the roles assistant and user. */
  function SwapPair(h: History, i: nat): (r: History)
    requires i + 1 < |h|
    ensures |r| == |h| && r[i].content == h[i].content && r[i + 1].content == h[i + 1].content
    ensures r[i].role == Assistant && r[i + 1].role == User
    ensures forall j :: 0 <= j < |h| && j != i && j != i + 1 ==> r[j] == h[j]
  {
    h[i := h[i].(role := Assistant)][i + 1 := h[i + 1].(role := User)]
  }

  /** The index of the last shown pair. */
  function LastPair(h: History): (i: nat)
    requires |h| >= 4
    ensures i % 2 == 0 && 2 <= i && i + 1 < |h| && i + 3 >= |h|
  {
    2 + 2 * (Pairs(h) - 1)
  }

  datatype Proposal = Proposal(target: string, native: string)

  /** `propose_answer` after its loop: the model's reply to the switched copy, and that reply
      translated into the native language; the reply is spoken in the target language. */
  function ProposalFor(switched: History, targetLanguage: string, nativeLanguage: string,
                       bot: ChatModel, translate: Translator): (r: Result<Proposal>)
    ensures nativeLanguage !in LanguageDict ==> r == Failure(KeyError(nativeLanguage))
    ensures nativeLanguage in LanguageDict && targetLanguage !in LanguageDict ==>
      r == Failure(KeyError(targetLanguage))
    ensures r.Success? ==>
      r.value.target == bot(switched)
      && r.value.native == translate(bot(switched), LanguageDict[nativeLanguage].translation)
  {
    var response := bot(switched);
    var nativeCode :- TranslationCode(nativeLanguage);
    var _ :- TranslationCode(targetLanguage);
    Success(Proposal(response, translate(response, nativeCode)))
  }

  /** `propose_answer` as written: the deep copy is remade in every round of the loop, so only
      the last pair ends up swapped; with fewer than four messages the copy is never bound. */
  function ProposeAnswerAsWritten(targetLanguage: string, nativeLanguage: string, history: History,
                             bot: ChatModel, translate: Translator): Result<Proposal>
  {
    if |history| < 4 then Failure(UnboundLocalError("switched_msg_history"))
    else ProposalFor(SwapPair(history, LastPair(history)), targetLanguage, nativeLanguage, bot, translate)
  }

  method ProposeAnswer(targetLanguage: string, nativeLanguage: string, history: History,
                       bot: ChatModel, translate: Translator) returns (r: Result<Proposal>)
    ensures r == ProposeAnswerAsWritten(targetLanguage, nativeLanguage, history, bot, translate)
  {
    var switched: Option<History> := None;
    var i := 2;
    while i < |history| - 1
      invariant 2 <= i && i % 2 == 0
      invariant i <= |history| || i == 2
      invariant switched.None? <==> i == 2
      invariant switched.Some? ==> i - 1 < |history| && switched.value == SwapPair(history, i - 2)
      decreases |history| - i
    {
      switched := Some(SwapPair(history, i));
      i := i + 2;
    }
    if switched.None? {
      return Failure(UnboundLocalError("switched_msg_history"));
    }
    assert i - 2 == LastPair(history);
    r := ProposalFor(switched.value, targetLanguage, nativeLanguage, bot, translate);
  }

  /** As written, a longer conversation reaches the model with its first user message still
      marked as the user's: the roles are not exchanged throughout. */
  lemma OnlyLastPairSwapped(h: History)
    requires Alternates(h) && |h| >= 6
    ensures SwapPair(h, LastPair(h))[2].role == User
    ensures SwapPair(h, LastPair(h))[2].role != Flip(h[2].role)
  {
  }

  /** The evidently intended copy: every shown pair swapped, so that the model answers in the
      learner's place; the preamble and a trailing unpaired message stay. */
  function SwapAll(h: History): (r: History)
    ensures |r| == |h|
    ensures forall j :: 0 <= j < |h| ==> r[j].content == h[j].content
  {
    seq(|h|, j requires 0 <= j < |h| =>
      if 2 <= j < 2 + 2 * Pairs(h) then h[j].(role := if j % 2 == 0 then Assistant else User)
      else h[j])
  }

  /** In an alternating history the intended copy exchanges the role of every message after the
      preamble. */
  lemma SwapAllFlipsEveryRole(h: History)
    requires Alternates(h)
    ensures forall j :: 2 <= j < |h| ==> SwapAll(h)[j].role == Flip(h[j].role)
    ensures forall j :: 0 <= j < 2 ==> SwapAll(h)[j] == h[j]
  {
  }

  /** `propose_answer` with the intended copy: defined for every history. */
  function ProposeAnswerIntended(targetLanguage: string, nativeLanguage: string, history: History,
                                 bot: ChatModel, translate: Translator): (r: Result<Proposal>)
    ensures nativeLanguage in LanguageDict && targetLanguage in LanguageDict ==> r.Success?
    ensures r.Success? ==> r.value.target == bot(SwapAll(history))
  {
    ProposalFor(SwapAll(history), targetLanguage, nativeLanguage, bot, translate)
  }

  /** The intended and the written copies agree on a conversation of exactly one pair, and there
      only. */
  lemma SwapsAgreeOnOnePair(h: History)
    requires Alternates(h) && |h| >= 4
    ensures SwapAll(h) == SwapPair(h, LastPair(h)) <==> |h| == 4
  {
    if |h| == 4 {
      assert LastPair(h) == 2;
      assert SwapAll(h) == SwapPair(h, 2);
    } else {
      assert SwapAll(h)[2].role != SwapPair(h, LastPair(h))[2].role;
    }
  }
}
