/** The FastAPI route handlers `/initialize`, `/upload-audio` and `/generate-pdf` as transitions of
    the session store. The request is reduced to its `session_id` cookie (and form language); the
    JSON response is reduced to a `Reply` value; the cookie a response sets is `InitReply.cookie`. */
module Actions {
  import opened Wrappers
  import opened Transcript
  import opened Session

  const WelcomeText: string := "Willkommen! Die Unterhaltung wurde initialisiert."
  const AudioPlaceholderText: string := "Audio processing is not implemented in Step 1 scaffold yet."
  const NotInitializedText: string := "Session not initialized."

  /** The assistant message `/initialize` puts into an empty chat. */
  const Welcome: Message := Message(Assistant, WelcomeText)

  /** The assistant message `/upload-audio` appends. */
  const AudioPlaceholder: Message := Message(Assistant, AudioPlaceholderText)

  /** The JSON body and status code of a handler's response. */
  datatype Reply =
    | ErrorReply(status: int, error: string)
    | InitReply(state: string, chat: History, message: string, cookie: string)
    | AudioReply(transcript: string, assistantResponse: string, chat: History)
    | PdfReply(message: string, downloadUrl: Option<string>)
  {
    /** The `ok` field. */
    predicate Ok() {
      !ErrorReply?
    }

    function Status(): int {
      if ErrorReply? then status else 200
    }
  }

  /** A handler either responds, leaving the store in a new state, or raises an exception that
      escapes the handler, having changed nothing. */
  datatype Outcome = Responded(store: Store, reply: Reply) | Raised(error: Error)

  /** The chat a session had before a request: empty for a session the request creates. */
  function PriorChat(store: Store, cookie: Option<string>): History {
    if Present(cookie) && cookie.value in store then store[cookie.value].chat else []
  }

  /** `POST /initialize`. */
  function Initialize(store: Store, cookie: Option<string>, formLanguage: Option<string>,
                      freshId: string): (r: Outcome)
    requires FreshFor(store, freshId)
    ensures r.Responded? && r.reply.InitReply? && r.reply.Ok()
    ensures var id := r.reply.cookie;
      && id in r.store
      && r.store[id].initialized
      && r.store[id].language == formLanguage.GetOr(DefaultSessionLanguage)
      && r.store[id].chat == r.reply.chat
      && r.reply.chat == (if PriorChat(store, cookie) == [] then [Welcome] else PriorChat(store, cookie))
    ensures Present(cookie) && cookie.value in store ==>
      r.reply.cookie == cookie.value && r.store.Keys == store.Keys
    ensures !(Present(cookie) && cookie.value in store) ==>
      r.reply.cookie == freshId && r.store.Keys == store.Keys + {freshId}
    ensures forall k :: k in store && k != r.reply.cookie ==> k in r.store && r.store[k] == store[k]
  {
    var language := formLanguage.GetOr(DefaultSessionLanguage);
    var (s1, id) := GetOrCreate(store, cookie, freshId, Some(language));
    match Get(s1, id)
    case Failure(e) => Raised(e)
    case Success(st) =>
      var chat := if st.chat == [] then [Welcome] else st.chat;
      var s2 := s1[id := SessionState(language, true, chat)];
      Responded(s2, InitReply("recording", chat, "Session initialized (scaffold).", id))
  }

  /** `POST /upload-audio`. */
  function UploadAudio(store: Store, cookie: Option<string>): (r: Outcome)
    ensures !Present(cookie) ==> r == Responded(store, ErrorReply(400, NotInitializedText))
    ensures Present(cookie) && cookie.value !in store ==> r == Raised(KeyError(cookie.value))
    ensures Present(cookie) && cookie.value in store ==>
      var id := cookie.value;
      && r.Responded? && r.reply.AudioReply? && r.reply.Ok()
      && r.reply.transcript == ""
      && r.store.Keys == store.Keys
      && r.store[id].chat == store[id].chat + [AudioPlaceholder]
      && r.store[id].language == store[id].language
      && r.store[id].initialized == store[id].initialized
      && r.reply.chat == r.store[id].chat
      && (forall k :: k in store && k != id ==> r.store[k] == store[k])
  {
    if !Present(cookie) then
      Responded(store, ErrorReply(400, NotInitializedText))
    else
      var id := cookie.value;
      match Get(store, id)
      case Failure(e) => Raised(e)
      case Success(st) =>
        var chat := st.chat + [AudioPlaceholder];
        Responded(store[id := st.(chat := chat)],
                  AudioReply("", "Audio processing placeholder.", chat))
  }

  /** `POST /generate-pdf`: a scaffold that only checks for the cookie, not for the session. */
  function GeneratePdf(store: Store, cookie: Option<string>): (r: Outcome)
    ensures r.Responded? && r.store == store
    ensures !Present(cookie) <==> r.reply == ErrorReply(400, NotInitializedText)
    ensures Present(cookie) ==> r.reply.PdfReply? && r.reply.downloadUrl == None
  {
    if !Present(cookie) then
      Responded(store, ErrorReply(400, NotInitializedText))
    else
      Responded(store, PdfReply("PDF generation scaffold endpoint ready.", None))
  }

  /** Initialising a new session and then initialising it again leaves exactly one message, the
      welcome, whatever languages the two requests carry. */
  lemma RepeatedInitializeKeepsOneWelcome(store: Store, lang1: Option<string>, lang2: Option<string>,
                                          freshId: string, freshId2: string)
    requires FreshFor(store, freshId)
    requires FreshFor(Initialize(store, None, lang1, freshId).store, freshId2)
    ensures var first := Initialize(store, None, lang1, freshId);
      var second := Initialize(first.store, Some(first.reply.cookie), lang2, freshId2);
      && second.reply.cookie == first.reply.cookie
      && second.store[second.reply.cookie].chat == [Welcome]
      && second.store[second.reply.cookie].language == lang2.GetOr(DefaultSessionLanguage)
  {
  }

  /** An upload after initialisation appends the placeholder after the welcome. */
  lemma UploadAfterInitialize(store: Store, lang: Option<string>, freshId: string)
    requires FreshFor(store, freshId)
    ensures var first := Initialize(store, None, lang, freshId);
      var second := UploadAudio(first.store, Some(first.reply.cookie));
      second.Responded? && second.store[first.reply.cookie].chat == [Welcome, AudioPlaceholder]
  {
  }
}
