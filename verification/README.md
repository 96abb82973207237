# SoziCheckSG and the Loqui teacher app in Dafny

This project models the logic of a small language-learning and social-assistance chat
application. The application has two generations that share a repository:

- the Gradio teacher app (`app.py` with its `assets/` helpers): a role play with a persona,
  a visible chat of (user, assistant) pairs, a translation toggle and a proposed answer;
- the FastAPI service (`app/`): an in-memory session store, three route handlers, a chatbot
  service (preamble, translation, quick replies, speech) and a conversation analysis that ends
  in a PDF report; and its browser client (`app/static/js/app.js`), a four-phase button
  state machine with quick-reply chips.

Every call to an outside service becomes an argument:

- chat completion, translation and speech synthesis are function-typed parameters;
- parsed JSON is a `Json` value;
- the uuid4 oracle is a fresh-id argument;
- the outcome of each awaited browser call is an input value.

The model keeps only what the code computes on top of these calls.

Modules follow the source files:

- `Wrappers`: `Option`, `Result` and the Python exceptions that escape.
- `Text`: `str.strip`, JS `trim`, one-character `split`/`join`/`replace`, ASCII `lower`/`capitalize`.
- `Lists`: insertion-ordered dedup, prefix slicing, filter-map.
- `Json`: the parsed payload.
- `Transcript`: message records.
- `Config`: `config.py`.
- `Session`: `session.py`.
- `Actions`: `routes/actions.py`.
- `Chatbot`: `chatbot.py`.
- `Emoji`: the three emoji filters.
- `Analysis`: `analysis.py`.
- `Prompts`: `auxiliary_prompts.py`.
- `TeacherApp`: `app.py`.
- `ClientUi`: `app.js`.

Most operations come with a partner:

- `Emoji.Substitute`, the left-to-right scan of `re.sub`, is proved equal to the per-character
  reference `Survivors`.
- The conclusion test is proved equivalent to an independent reading of the answer, `SaysTrue`.
- The loops of `trans_chat` and `propose_answer` are methods proved equal to case-by-case
  definitions.
- The report is checked through three views of its blocks: section titles, transcript
  entries and summary bullets.
- The client invariant `Valid` is preserved by every event.

Strings are sequences of Unicode scalar values, so the emoji ranges above U+FFFF are plain
character comparisons.

`config.py` stores its non-ASCII labels and flags double-encoded. The Portuguese label, for
example, is the text "PortuguÃªs". `Config.LanguageConfig` keeps these strings exactly as the
file holds them. The logic only uses the codes and locales.

## Model

| member | source | states |
|---|---|---|
| `Wrappers.Lookup` | app/services/session.py:36-38 | dictionary subscription succeeds exactly for a present key, with its value, and raises `KeyError` naming the key otherwise |
| `Session.NewSession` | app/services/session.py:23-27 | adds exactly one entry, under the fresh id, uninitialised, with an empty chat and the given language or "de"; the store grows by one and every existing session keeps its state |
| `Session.GetOrCreate` | app/services/session.py:29-34 | a non-empty id already in the store comes back with the store unchanged; a missing, empty or unknown id yields the fresh id and one new default session; no session is removed or replaced, and the returned id is always in the store |
| `Session.Get` | app/services/session.py:36-38 | returns the stored state of a present id and raises `KeyError` for an absent one |
| `Session.GetOrCreateIdempotent` | app/services/session.py:29-34 | calling `get_or_create` again with the id it returned changes nothing and returns the same id |
| `Actions.Initialize` | app/routes/actions.py:9-33 | always responds ok; the cookie id is in the store, marked initialised, with the submitted language; the chat gets the welcome only when it was empty; a known cookie keeps its id and key set, an unknown or missing one gets a new session; other sessions are untouched |
| `Actions.UploadAudio` | app/routes/actions.py:36-63 | no cookie gives status 400 with "Session not initialized." and an unchanged store; an unknown id raises `KeyError`; a known id gets exactly one placeholder assistant message appended, an empty transcript, and nothing else changes |
| `Actions.GeneratePdf` | app/routes/actions.py:66-78 | never changes the store; 400 exactly when the cookie is missing or empty, otherwise ok with no download URL |
| `Actions.RepeatedInitializeKeepsOneWelcome` | app/routes/actions.py:16-22 | initialising a new session twice keeps its id and leaves exactly one welcome message, with the second request's language |
| `Actions.UploadAfterInitialize` | app/routes/actions.py:48-63 | after initialisation an upload leaves the chat as the welcome followed by the placeholder |
| `Config.DefaultIsConfigured` | app/services/config.py:3-16 | the default key "german" is in the table, with code "de" and locale "de-DE", so the fallback lookup is total |
| `Config.LocalesExtendCodes` | app/services/config.py:3-14 | every entry's speech locale is its code, a dash and a two-letter region |
| `Config.Resolve` | app/services/chatbot.py:29 | a configured key gets its own entry, any other key exactly the German entry (code "de", locale "de-DE"); the result's locale extends its code |
| `Chatbot.TranslateText` | app/services/chatbot.py:54-63 | the result is stripped; it is the stripped model output when that is non-empty, and the stripped source text when the model gives no or empty content |
| `Chatbot.EchoTranslationIsStrip` | app/services/chatbot.py:54-63 | a model that echoes the text (or its stripped form) makes translation the strip alone, and translating that result again changes nothing |
| `Chatbot.InitializeConversation` | app/services/chatbot.py:26-34 | succeeds exactly when the scenario is present and otherwise fails with `KeyError`; the history is exactly one system message holding the translated role, which is also the third component; the context is translated exactly when the key is not "german" |
| `Chatbot.UnknownLanguageFallsBackToGerman` | app/services/chatbot.py:29-32 | an unknown key gives the same history and role as "german", but its context still goes through translation into "de" |
| `Chatbot.KeptIsStrip` | app/services/chatbot.py:116-124 | the loop keeps an item exactly when it is a string whose stripped text is non-empty and at most 30 characters, and keeps that stripped text |
| `Chatbot.Normalized` | app/services/chatbot.py:115-124 | every normalised answer is the kept form of some model answer, and every kept answer appears |
| `Chatbot.NormalizeAnswers` | app/services/chatbot.py:115-126 | distinct, stripped, non-empty answers of at most 30 characters, each kept from the model: exactly the first min(4, n) of the n first-occurrence-deduplicated kept answers |
| `Chatbot.SuggestShortAnswers` | app/services/chatbot.py:66-126 | blank text, a raising call, empty output, undecodable JSON or a non-list `answers` give `[]`; a decoded non-object payload raises `AttributeError` from `.get`, and only that; otherwise the normalised answers, with the bounds above |
| `Chatbot.SuggestionsComeFromModel` | app/services/chatbot.py:111-126 | for a well-formed answer every suggestion is one of the model's own answers, stripped, and none is dropped when there are at most four distinct ones |
| `Chatbot.TextToSpeech` | app/services/chatbot.py:128-147 | nothing without credentials or without audio; otherwise the service's audio for the language's speech locale (German for unknown keys), as MP3 |
| `Chatbot.SpeechLocaleOfKey` | app/services/chatbot.py:128-147 | with credentials and audio, speech is synthesised in the listed language's locale, and in "de-DE" for a language the table does not list |
| `Lists.Dedup` | app/services/chatbot.py:126 | the result has no repeats, contains every input value and only input values, and is no longer than the input |
| `Lists.DedupKeepsFirstOccurrenceOrder` | app/services/chatbot.py:126 | deduplicated values appear in the order of their first occurrences |
| `Lists.DedupOfDistinct` | app/static/js/app.js:125 | a list without repeats is its own deduplication |
| `Lists.TakeOfDedup` | app/static/js/app.js:125 | the first n deduplicated values are distinct input values, and all of them when there are at most n |
| `Lists.FilterMap` | app/static/js/app.js:171-174 | each kept value comes from some input element, every element the filter keeps appears, and the result is no longer than the input |
| `Text.StripWith` | app/services/chatbot.py:119 | the result has no whitespace at either end, is the contiguous slice after the leading whitespace, is followed only by whitespace, and is empty exactly for all-whitespace text |
| `Text.Split` | app/services/analysis.py:209 | at least one piece, no piece contains the separator, joining the pieces gives back the text, and text without the separator is one piece |
| `Text.SplitJoin` | app/services/analysis.py:62 | splitting a join of separator-free pieces gives the pieces back |
| `Text.ReplaceChar` | app/services/analysis.py:217 | every character of the result comes from the replacement or is a non-replaced character of the input; text without the character is unchanged |
| `Text.ReplaceCharOne` | app/services/analysis.py:217 | a single character becomes the replacement exactly when it is the pattern, and is kept otherwise |
| `Text.ReplaceCharConcat` | app/services/analysis.py:217 | replacing a concatenation is the concatenation of the replacements; with `ReplaceCharOne` this fixes every result character by character |
| `Emoji.SubstituteIsSurvivors` | assets/auxiliary_functions.py:7-26 | the regular-expression scan deletes exactly the characters that are in the class or are modifiers directly after a deleted character |
| `Emoji.RemoveEmojisPlain` | app.py:208-228 | exactly the characters outside the twelve ranges survive, in order |
| `Emoji.RemoveEmojis` | app/services/analysis.py:39-58 | no class character (ranges, `*`, `#`) survives; ignoring U+200D, exactly the characters outside the class survive, in order |
| `Emoji.ModifierOutsideClassIsZwj` | assets/auxiliary_functions.py:9-22 | of the trailing modifiers only U+200D lies outside the class, because U+FE0F and the skin tones fall inside the ranges |
| `Emoji.ZwjAfterEmojiVanishes` | assets/auxiliary_functions.py:21-22 | a U+200D right after a removed character is removed with it |
| `Emoji.ZwjAfterTextSurvives` | assets/auxiliary_functions.py:22 | a U+200D at the start or after a kept non-joiner survives and splits the cleaning into two independent halves |
| `Emoji.ClassFreeTextUnchanged` | assets/auxiliary_functions.py:26 | text with no class character is returned unchanged by both filters |
| `Emoji.RemoveEmojisIdempotent` | assets/auxiliary_functions.py:7-26 | cleaning twice equals cleaning once, for both filters |
| `Emoji.HighBmpTextVanishes` | assets/auxiliary_functions.py:20 | text made only of BMP code points from U+24C2 up, such as CJK or Hangul, is erased entirely |
| `Analysis.ChatLine` | app/services/analysis.py:62 | a transcript line is the capitalised role, ": ", then the content unchanged |
| `Analysis.ChatTextLines` | app/services/analysis.py:61-62 | for messages without line breaks, the transcript text splits into exactly one line per message after the first, each "Role: content" |
| `Analysis.ConversationConcluded` | app/services/analysis.py:65-67 | a history of at most two messages is never concluded |
| `Analysis.ConcludedIffSaysTrue` | app/services/analysis.py:80-81 | concluded exactly when the history has more than two messages and the answer, after leading whitespace, spells "true" in either case; a missing answer gives false |
| `Analysis.CreateSummary` | app/services/analysis.py:84-96 | the summary is the model's answer stripped of surrounding whitespace, and empty when the model gives no content |
| `Analysis.SummaryKeepsStrippedAnswer` | app/services/analysis.py:84-96 | an answer without surrounding whitespace is the summary verbatim, and every summary is its own strip |
| `Analysis.ProtocolText` | app/services/analysis.py:217 | a printed message holds no line break and no emoji-class character, and an emoji-free text without line breaks is printed as it is |
| `Analysis.ProtocolTextBreaksLines` | app/services/analysis.py:217 | the first line break of the emoji-free text becomes `<br/>`, with the first line before it unchanged and the rest replaced in turn |
| `Analysis.ReportSections` | app/services/analysis.py:198-235 | the report's sections are the overview and the German transcript, plus "Gesprächsprotokoll (Target)" exactly when the target is not "german" |
| `Analysis.ReportEntries` | app/services/analysis.py:216-235 | one entry per message from the third on, in order, labelled "Beantragende Person" for user messages and "Sozi-Bot" otherwise; translated to "de" exactly when the target is not German, then the same messages untranslated exactly in that case |
| `Analysis.ReportBullets` | app/services/analysis.py:208-212 | one bullet "• " + line per kept summary line, in order |
| `Analysis.SummaryItemsOfLines` | app/services/analysis.py:208-211 | every kept summary line is the non-empty stripped text of a summary line, and every non-blank summary line is kept |
| `Analysis.OneLineSummary` | app/services/analysis.py:209-211 | a stripped one-line summary yields exactly one bullet text, itself |
| `Prompts.ExtractLevel` | assets/auxiliary_prompts.py:4 | raises `IndexError` exactly when the definition has no "("; a level never contains "(" or ")" |
| `Prompts.ExtractLevelOf` | assets/auxiliary_prompts.py:4 | the level is the text after the first "(" up to the next "(" or ")" |
| `Prompts.BeginnerLevel` | app.py:29-33 | the beginner definition yields "easy reader level 1-2" |
| `Prompts.AdvancedLevel` | app.py:30-37 | the advanced definition yields "easy reader level 3-4" |
| `Prompts.TeacherPrompt` | assets/auxiliary_prompts.py:3-9 | a teacher prompt fails with `IndexError` exactly when the definition has no "(" |
| `Prompts.TeacherPromptsEmbedLevel` | assets/auxiliary_prompts.py:12-17 | the beginner and advanced prompts succeed or fail together and both carry the extracted level verbatim right after their opening passage |
| `Prompts.FillHole` | assets/auxiliary_prompts.py:20-22 | each parameter hole of a prompt holds its parameter verbatim right after the text of the parts before it |
| `Prompts.AnalysisPromptEmbeds` | assets/auxiliary_prompts.py:20-95 | the analysis prompt holds the target language once and the level three times, verbatim, at the positions of the opening sentence, the observations and the improvement focus |
| `TeacherApp.SpeechLocalesExtendCodes` | app.py:52 | every speech locale of the teacher app's table is its translation code, a dash and a region |
| `TeacherApp.TranslationCode` | app.py:112 | the translation code of a listed language, `KeyError` for any other |
| `TeacherApp.AppSetup` | app.py:43-49 | both levels are keys, share the one scenario under its title, and have their own teacher prompts |
| `TeacherApp.AppScenarioStarts` | app.py:43-52 | the app's scenario starts for both levels and every listed language, its second message being the translated scenario |
| `TeacherApp.InitializeScenario` | app.py:101-114 | the incoming history is ignored; lookups fail with `KeyError` in the order level, scenario, language; success is exactly two system messages, the translated teacher prompt then the translated scenario |
| `TeacherApp.PairsFrom` | app.py:143 | the pairing comprehension has (len - start) div 2 pairs, the k-th being the contents at start + 2k and start + 2k + 1 |
| `TeacherApp.VisibleChat` | app.py:181 | the visible chat has max(0, (len - 2) div 2) pairs of consecutive messages from index 2 on, dropping a trailing unpaired message |
| `TeacherApp.Main` | app.py:127-144 | appends the preview as a user message and the model's reply to that history as an assistant message; succeeds exactly for a listed target language and otherwise fails with `KeyError` |
| `TeacherApp.TurnKeepsAlternation` | app.py:132-137 | a turn keeps the history alternating (user at even, assistant at odd indices from 2), adds two messages and leaves earlier ones unchanged |
| `TeacherApp.TurnAppendsOnePair` | app.py:133-143 | a turn adds exactly one chat pair, (preview, reply), after the previous chat |
| `TeacherApp.PreambleAlternates` | app.py:107-110 | a freshly initialised history is alternating with an empty chat |
| `TeacherApp.ResetHistory` | app.py:156-159 | the history restarts as exactly the two system messages, the teacher prompt and the scenario translated into the target's code, whatever it held, with an empty chat; fails exactly when a lookup fails |
| `TeacherApp.SetupMain` | app.py:161-169 | the introduction text is the preamble's second message, the translated scenario |
| `TeacherApp.TransChat` | app.py:171-183 | the toggle negates the flag and never changes the history; turning off shows the plain chat; turning on with fewer than four messages raises `UnboundLocalError`, with an unlisted language `KeyError`, otherwise every shown message translated on its own |
| `TeacherApp.TranslatedCopyShows` | app.py:176-179 | once the loop has translated every pair of the deep copy, the copy's chat is the chat of translated messages |
| `TeacherApp.ToggleTwiceRestores` | app.py:173-183 | toggling on and off again shows the untranslated chat with the history unchanged |
| `TeacherApp.IdentityTranslationShowsChat` | app.py:179-181 | with an identity translator the translated view equals the plain view |
| `TeacherApp.SwapPair` | app.py:189-191 | one pair's roles become assistant then user, contents kept, every other message unchanged |
| `TeacherApp.ProposalFor` | app.py:193-202 | the proposal is the model's reply to the switched copy and its translation into the native language; unlisted native then target languages raise `KeyError` |
| `TeacherApp.ProposeAnswer` | app.py:185-202 | with fewer than four messages the copy is unbound (`UnboundLocalError`); otherwise the model sees the history with only the last pair swapped |
| `TeacherApp.OnlyLastPairSwapped` | app.py:188-191 | as written, in a conversation of two or more pairs the first user message reaches the model still marked as the user's |
| `TeacherApp.SwapAll` | app.py:188-191 | the intended copy keeps every message's content and its length |
| `TeacherApp.SwapAllFlipsEveryRole` | app.py:188-191 | in an alternating history the intended copy exchanges user and assistant for every message after the preamble and keeps the preamble |
| `TeacherApp.ProposeAnswerIntended` | app.py:185-202 | with the intended copy a proposal exists for every history when both languages are listed |
| `TeacherApp.SwapsAgreeOnOnePair` | app.py:188-191 | the written and the intended copies agree exactly on a conversation of one pair |
| `ClientUi.SetPhase` | app/static/js/app.js:201-243 | the phase changes; chips are hidden outside the idle phase and otherwise kept until fresh ones arrive; nothing else changes |
| `ClientUi.InitializeSession` | app/static/js/app.js:251-271 | success leads to idle, any failure back to init; one assistant bubble is added; the working flag ends false |
| `ClientUi.StartRecording` | app/static/js/app.js:273-307 | a granted microphone leads to recording with a fresh recorder and no chunks; otherwise one error bubble with the thrown message (or the default) and idle; a stream obtained before the recorder failed stays open for the next start; the working flag ends false |
| `ClientUi.StopFailure` | app/static/js/app.js:323-363 | the stop-and-transcribe fails exactly when the recorder errs, no chunk was captured, or the upload raises or is not ok, always with a non-empty message |
| `ClientUi.StopRecording` | app/static/js/app.js:315-371 | without a recording recorder nothing changes; otherwise success gives review with the transcription as draft, failure an error bubble and idle; chunks, recorder and stream are released either way |
| `ClientUi.SendEditedMessage` | app/static/js/app.js:373-407 | blank text only adds a hint bubble and keeps the state; a reply adds the user and assistant bubbles, clears the draft and goes idle; a failure keeps every earlier bubble and appends exactly one assistant bubble, the raised error's message or "Something went wrong while sending.", or "Send failed." for a response that is not ok, and stays in review |
| `ClientUi.Click` | app/static/js/app.js:409-430 | while working a click changes nothing; otherwise each phase runs its action and lands in the listed phases with the working flag cleared |
| `ClientUi.DataAvailable` | app/static/js/app.js:292-296 | a non-empty chunk of a recording recorder is counted, nothing else changes |
| `ClientUi.Edit` | app/static/js/app.js:432-434 | typing sets the draft to the field's value and changes nothing else |
| `ClientUi.DetectQuickReplies` | app/static/js/app.js:99-126 | empty text gives no replies; otherwise exactly the first min(4, n) of the n first-occurrence-deduplicated candidates |
| `ClientUi.FetchSmartQuickReplies` | app/static/js/app.js:152-179 | blank text or any failure gives nothing; a body with a `quick_replies` list gives the first four of its trimmed, non-empty string replies |
| `ClientUi.ServerChipsOf` | app/static/js/app.js:171-175 | exactly the first min(4, n) of the n kept server replies, each non-empty and trimmed |
| `ClientUi.ServerRepliesMayRepeat` | app/static/js/app.js:171-175 | server replies are not deduplicated: a repeated reply is shown twice |
| `ClientUi.Paint` | app/static/js/app.js:128-150 | chips show exactly in the idle phase with a non-empty list, and then show that list |
| `ClientUi.ChipsArrive` | app/static/js/app.js:181-195 | fetched replies are dropped when the phase or the last assistant text changed meanwhile; otherwise the server's replies are shown, or the detected ones when there are none |
| `ClientUi.ChipClick` | app/static/js/app.js:141-145 | a chip's text becomes the draft and the review phase follows, hiding the chips |
| `ClientUi.StartIsValid` | app/static/js/app.js:443-444 | the loaded page, welcome bubble in the init phase, satisfies the client invariant |
| `ClientUi.ClickKeepsValid` | app/static/js/app.js:409-430 | every click keeps the invariant: not working, recording exactly in the recording phase and only with an open stream (a stream may stay open without recording), chips only when idle, draft equal to the field, last assistant text that of the last assistant bubble |
| `ClientUi.SendKeepsValid` | app/static/js/app.js:373-407 | sending from review keeps the invariant |
| `ClientUi.OtherEventsKeepValid` | app/static/js/app.js:141-195 | chunks, typing, arriving chips and chip clicks keep the invariant |
| `ClientUi.ClickPhases` | app/static/js/app.js:409-430 | from a valid state each phase moves on exactly on its success (init to idle, idle to recording, recording to review, review to idle) and otherwise stays or falls back to idle |

## Left out

- User interface and framework plumbing are not modelled:
  - the Gradio layout and event wiring (`app.py` from line 230);
  - the FastAPI application, router, templates, cookies and JSON responses (`app/main.py`, `app/routes/pages.py`).

  The handlers appear only as store transitions.
- Outside services are not modelled. OpenAI chat, transcription and translation, googletrans, gTTS, Google Cloud TTS and speech_recognition are parameters or inputs.
- The following are I/O wrappers around outside services that carry no logic of their own, so the model has no counterpart for them:
  - `transcribe_audio` and `generate_reply` (`chatbot.py`);
  - `audio2text`, `text2bot`, `text2speach`, `conv_preview_recording`, `trans_preview_recording` and `translator_main` (`app.py`).
- `assets/auxiliary_classes.py` is not part of this model. It holds TTS clients, a random voice choice and audio durations.
- The `threading.Lock` in `session.py` is not modelled, because every modelled operation is one atomic map update.
- `uuid4` is a fresh-id argument that is non-empty and not yet in the store.
- JSON decoding is not modelled. `suggest_short_answers` receives a decoder argument, and the client receives the parsed body.
- JSON numbers are integers only. No modelled decision looks at them.
- reportlab styles, tables, the page header and footer drawing, the temporary file and the clock are left out. The report is its list of content blocks, and the export date is an argument.
- The candidate texts of `detectQuickReplies` are an input. Its yes/no, threshold and either-or regular expressions are not modelled.
- The DOM, MediaRecorder audio, the audio player, base64 encoding and the status line are not modelled.
- `Text.Lower` and `Text.Capitalize` map ASCII letters only. Python's full Unicode case mapping is not modelled. No other character lower-cases to a letter of "true", so the conclusion test is unaffected.
- `Chatbot.TextToSpeech`: returns the audio bytes, not their base64 text. It does not model a credentials string that fails to parse as JSON, which raises in the source.
- `Chatbot.InitializeConversation`: a scenario is a record holding both a role and a context, so a scenario entry in the prompt file that lacks either key is not modelled. In the source that also raises `KeyError`.
- `TeacherApp.Main`: `msg_history` is appended to in place before the language lookup can raise. The model returns the failure without the mutated list.
- `TeacherApp.Main`: a model reply with no content is not modelled.
- `TeacherApp.ProposalFor`: a model reply with no content is not modelled. In the source that `None` reaches the translator and the speech call, which would raise.
- `TeacherApp.ProposeAnswer`: a model reply with no content is not modelled, for the reason given for `TeacherApp.ProposalFor`.
- `ClientUi.Click`: each click's action runs to its end in one step. Between the awaits of the source, `isWorking` is true while other handlers can still run: a chip click, typing, or arriving chips. Those interleavings are not modelled, and `Valid` holds only between whole actions.
- `Analysis.ReportEntries`: message roles are the three the services write. A role other than "user" gets the bot label in the source, as `Analysis.Speaker` does here for system and assistant.
- No translation cache is modelled, because `trans_chat` keeps none: it re-translates every shown message each time translation is turned on.
- The teacher app's preamble is two system messages, as `initialize_scenario` builds it, not the single message of the newer service.
- `config.py` stores its labels and flags double-encoded. The model keeps these strings as stored rather than as the evidently intended "Português" and flag emoji. Only codes and locales take part in the modelled logic.

## Findings

| source | as written | input that shows it | evidently intended | confidence | as-written member | corrected member |
|---|---|---|---|---|---|---|
| app.py:188-191 | the deep copy is remade in every round of the loop, so only the last (user, assistant) pair has its roles exchanged; with fewer than four messages the copy is never bound and `propose_answer` raises `UnboundLocalError` | an alternating history of six messages: the message at index 2 reaches the model still with role "user" | every pair after the preamble swapped, so the model answers in the learner's place | not executed | `TeacherApp.OnlyLastPairSwapped` | `TeacherApp.SwapAllFlipsEveryRole` |
