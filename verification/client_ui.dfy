/** The browser client (app/static/js/app.js): the main button's state machine, the quick-reply
    chips and their two sources.

    Each click runs its action to the end; what the awaited browser and server calls return is
    an argument (`Outcomes`), so every success and failure path is a separate input. The DOM,
    the recorder's audio and the audio player are not modelled; the recorder and the microphone
    stream are reduced to whether they exist. */
module ClientUi {
  import opened Wrappers
  import opened Text
  import opened Lists
  import opened Json

  datatype Phase = Init | Idle | Recording | Review

  datatype Speaker = UserBubble | AssistantBubble

  datatype Bubble = Bubble(speaker: Speaker, text: string)

  /** The client's variables: the phase, `isWorking`, whether a recorder is recording and a
      microphone stream is open, the number of recorded chunks, the draft and the text field,
      the chat bubbles, the last assistant text and the chips on show. */
  datatype Ui = Ui(
    phase: Phase,
    working: bool,
    recording: bool,
    streamOpen: bool,
    chunks: nat,
    draft: string,
    input: string,
    bubbles: seq<Bubble>,
    lastAssistant: string,
    chips: seq<string>)

  const WelcomeBubbleText: string := "Welcome — tap Initialize to start."

  /** The page after loading: the welcome bubble, in the initial phase. */
  const Start: Ui := Ui(Init, false, false, false, 0, "", "", [Bubble(AssistantBubble, WelcomeBubbleText)],
                        WelcomeBubbleText, [])

  /** JavaScript `value || fallback` for a string. */
  function OrElse(value: string, fallback: string): (r: string)
    ensures r == (if value == "" then fallback else value)
    ensures r != "" <== fallback != ""
  {
    if value == "" then fallback else value
  }

  /** `appendBubble`: an assistant bubble also becomes the last assistant text. */
  function AppendBubble(u: Ui, speaker: Speaker, text: string): (r: Ui)
    ensures r.bubbles == u.bubbles + [Bubble(speaker, text)]
    ensures r.lastAssistant == (if speaker == AssistantBubble then text else u.lastAssistant)
    ensures r.(bubbles := u.bubbles, lastAssistant := u.lastAssistant) == u
  {
    u.(bubbles := u.bubbles + [Bubble(speaker, text)],
       lastAssistant := if speaker == AssistantBubble then text else u.lastAssistant)
  }

  /** `setState`: the phase changes; outside the idle phase the chips are cleared at once, in the
      idle phase they stay until fresh ones arrive (`ChipsArrive`). */
  function SetPhase(u: Ui, next: Phase): (r: Ui)
    ensures r.phase == next
    ensures next != Idle ==> r.chips == []
    ensures next == Idle ==> r.chips == u.chips
    ensures r.(phase := u.phase, chips := u.chips) == u
  {
    u.(phase := next, chips := if next == Idle then u.chips else [])
  }

  // ---------------------------------------------------------------------------------------------
  // Outcomes of the awaited calls

  /** `fetch("/initialize")`: a thrown error, a non-ok response, or the response's intro text. */
  datatype InitOutcome = InitRaised | InitNotOk | Initialized(intro: string)

  /** `ensureMicSupportAndPermission`, `new MediaRecorder` and `start()`: recording unsupported;
      the microphone refused, with the error's message; a stream obtained (or reused) but the
      recorder failing to be created or started, with the error's message; or granted. */
  datatype MicOutcome =
    | MicUnsupported
    | MicRefused(message: string)
    | RecorderRefused(message: string)
    | MicGranted

  /** The recorder's `error` event, or its `stop` event. */
  datatype StopOutcome = RecorderFailed | RecorderStopped

  /** `fetch("/upload-audio")`: a thrown error with its message, a non-ok response, or the
      transcription. */
  datatype UploadOutcome = UploadRaised(message: string) | UploadNotOk | Transcribed(text: string)

  /** `fetch("/send-message")`: a thrown error with its message, a non-ok response, or the reply. */
  datatype SendOutcome = SendRaised(message: string) | SendNotOk | Sent(reply: string)

  /** What every awaited call of a click would return. */
  datatype Outcomes = Outcomes(init: InitOutcome, mic: MicOutcome, stop: StopOutcome,
                               upload: UploadOutcome, send: SendOutcome)

  // ---------------------------------------------------------------------------------------------
  // The actions

  /** `initializeSession`: the intro (or a default) on success, a failure bubble otherwise. */
  function InitializeSession(u: Ui, o: InitOutcome): (r: Ui)
    ensures r.phase == (if o.Initialized? then Idle else Init)
    ensures !r.working
    ensures |r.bubbles| == |u.bubbles| + 1 && r.bubbles[..|u.bubbles|] == u.bubbles
    ensures r.bubbles[|u.bubbles|].speaker == AssistantBubble
  {
    match o
    case Initialized(intro) =>
      SetPhase(AppendBubble(u, AssistantBubble, OrElse(intro, "Initialized. You can start recording.")), Idle)
        .(working := false)
    case _ =>
      SetPhase(AppendBubble(u, AssistantBubble, "Initialization failed. Please try again."), Init)
        .(working := false)
  }

  /** The bubble text of a failed start: the thrown error's message, or the default. */
  function MicFailureText(o: MicOutcome): (r: string)
    requires !o.MicGranted?
    ensures r != ""
    ensures o.MicUnsupported? ==> r == "Audio recording is not supported in this browser."
    ensures !o.MicUnsupported? && o.message != "" ==> r == o.message
  {
    if o.MicUnsupported? then "Audio recording is not supported in this browser."
    else OrElse(o.message, "Microphone permission was denied.")
  }

  /** `startRecording`: a fresh recorder with no chunks on success; an error bubble and the idle
      phase otherwise. Once the stream is obtained it stays open, even when the recorder then
      fails: the next start reuses it. */
  function StartRecording(u: Ui, o: MicOutcome): (r: Ui)
    ensures r.phase == (if o.MicGranted? then Recording else Idle)
    ensures !r.working
    ensures o.MicGranted? ==> r.recording && r.streamOpen && r.chunks == 0 && r.bubbles == u.bubbles
    ensures o.RecorderRefused? ==> !r.recording && r.streamOpen && r.chunks == 0
    ensures o.MicUnsupported? || o.MicRefused? ==>
      r.recording == u.recording && r.streamOpen == u.streamOpen && r.chunks == u.chunks
    ensures !o.MicGranted? ==> r.bubbles == u.bubbles + [Bubble(AssistantBubble, MicFailureText(o))]
    ensures r.draft == u.draft && r.input == u.input
  {
    match o
    case MicGranted =>
      SetPhase(u.(chunks := 0, recording := true, streamOpen := true), Recording).(working := false)
    case RecorderRefused(_) =>
      SetPhase(AppendBubble(u.(chunks := 0, recording := false, streamOpen := true), AssistantBubble,
                            MicFailureText(o)), Idle)
        .(working := false)
    case _ =>
      SetPhase(AppendBubble(u, AssistantBubble, MicFailureText(o)), Idle).(working := false)
  }

  /** The error message of a failed stop-and-transcribe, or `None` for the transcription. */
  function StopFailure(chunks: nat, stop: StopOutcome, upload: UploadOutcome): (r: Option<string>)
    ensures r.None? <==> stop.RecorderStopped? && chunks > 0 && upload.Transcribed?
    ensures r.Some? ==> r.value != ""
  {
    if stop.RecorderFailed? then Some("Recording failed.")
    else if chunks == 0 then Some("No audio captured.")
    else if upload.UploadRaised? then Some(OrElse(upload.message, "Could not transcribe audio."))
    else if upload.UploadNotOk? then Some("Transcription failed.")
    else None
  }

  /** `stopRecordingAndTranscribe`: nothing at all without a recording recorder; otherwise the
      transcription becomes the draft and the review phase follows, or an error bubble and the
      idle phase; either way the chunks, the recorder and the stream are released. */
  function StopRecording(u: Ui, stop: StopOutcome, upload: UploadOutcome): (r: Ui)
    ensures !u.recording ==> r == u
    ensures u.recording ==>
      && !r.working && !r.recording && !r.streamOpen && r.chunks == 0
      && (StopFailure(u.chunks, stop, upload).None? ==>
            r.phase == Review && r.draft == upload.text && r.input == upload.text
            && r.bubbles == u.bubbles)
      && (StopFailure(u.chunks, stop, upload).Some? ==>
            r.phase == Idle && r.draft == u.draft && r.input == u.input
            && r.bubbles == u.bubbles + [Bubble(AssistantBubble, StopFailure(u.chunks, stop, upload).value)])
  {
    if !u.recording then u
    else
      var after :=
        match StopFailure(u.chunks, stop, upload)
        case None => SetPhase(u.(draft := upload.text, input := upload.text), Review)
        case Some(message) => SetPhase(AppendBubble(u, AssistantBubble, message), Idle);
      after.(chunks := 0, recording := false, streamOpen := false, working := false)
  }

  /** `sendEditedMessage`: blank text only earns a hint; a reply adds the user's and the
      assistant's bubbles, clears the draft and returns to the idle phase; a failure adds an
      error bubble and stays in review. */
  function SendEditedMessage(u: Ui, o: SendOutcome): (r: Ui)
    ensures Trim(u.input) == "" ==>
      r == AppendBubble(u, AssistantBubble, "Please enter text before sending.")
    ensures Trim(u.input) != "" && o.Sent? ==>
      && r.phase == Idle && r.draft == "" && r.input == "" && !r.working
      && r.bubbles == u.bubbles + [Bubble(UserBubble, Trim(u.input)),
                                   Bubble(AssistantBubble, OrElse(o.reply, "No reply returned."))]
    ensures Trim(u.input) != "" && !o.Sent? ==>
      r.phase == Review && r.draft == u.draft && r.input == u.input && !r.working
      && r.bubbles == u.bubbles + [Bubble(AssistantBubble,
           if o.SendRaised? then OrElse(o.message, "Something went wrong while sending.")
           else "Send failed.")]
  {
    var text := Trim(u.input);
    if text == "" then AppendBubble(u, AssistantBubble, "Please enter text before sending.")
    else
      match o
      case Sent(reply) =>
        var withUser := AppendBubble(u, UserBubble, text);
        var withReply := AppendBubble(withUser, AssistantBubble, OrElse(reply, "No reply returned."));
        SetPhase(withReply.(draft := "", input := ""), Idle).(working := false)
      case SendRaised(message) =>
        SetPhase(AppendBubble(u, AssistantBubble, OrElse(message, "Something went wrong while sending.")), Review)
          .(working := false)
      case SendNotOk =>
        SetPhase(AppendBubble(u, AssistantBubble, "Send failed."), Review).(working := false)
  }

  /** The main button's click handler: ignored while working, otherwise the action of the
      current phase, run to its end. */
  function Click(u: Ui, o: Outcomes): (r: Ui)
    ensures u.working ==> r == u
    ensures !u.working && u.phase == Init ==> r.phase in {Init, Idle} && !r.working
    ensures !u.working && u.phase == Idle ==> r.phase in {Idle, Recording} && !r.working
    ensures !u.working && u.phase == Recording && u.recording ==> r.phase in {Idle, Review} && !r.working
    ensures !u.working && u.phase == Review ==> r.phase in {Review, Idle} && !r.working
  {
    if u.working then u
    else
      match u.phase
      case Init => InitializeSession(u, o.init)
      case Idle => StartRecording(u, o.mic)
      case Recording => StopRecording(u, o.stop, o.upload)
      case Review => SendEditedMessage(u, o.send)
  }

  /** The recorder's `dataavailable` event: a non-empty chunk is kept. */
  function DataAvailable(u: Ui, size: nat): (r: Ui)
    ensures r.chunks == (if u.recording && size > 0 then u.chunks + 1 else u.chunks)
    ensures r.(chunks := u.chunks) == u
  {
    if u.recording && size > 0 then u.(chunks := u.chunks + 1) else u
  }

  /** Typing into the text field. */
  function Edit(u: Ui, value: string): (r: Ui)
    ensures r.draft == value && r.input == value
    ensures r.(draft := u.draft, input := u.input) == u
  {
    u.(draft := value, input := value)
  }

  // ---------------------------------------------------------------------------------------------
  // Quick replies

  const MaxChips: nat := 4

  /** `detectQuickReplies`: for non-empty text, the candidate replies the patterns found (an
      argument here), without repeats, at most four. */
  function DetectQuickReplies(text: string, candidates: seq<string>): (r: seq<string>)
    ensures text == "" ==> r == []
    ensures |r| <= MaxChips && Distinct(r)
    ensures forall i :: 0 <= i < |r| ==> r[i] in candidates
    ensures text != "" ==> r <= Dedup(candidates)
    ensures text != "" ==>
      |r| == if |Dedup(candidates)| <= MaxChips then |Dedup(candidates)| else MaxChips
    ensures text != "" && |Dedup(candidates)| <= MaxChips ==>
      forall j :: 0 <= j < |candidates| ==> candidates[j] in r
  {
    if text == "" then []
    else
      var r := Take(Dedup(candidates), MaxChips);
      TakeOfDedup(candidates, MaxChips);
      r
  }

  /** What the client keeps of one server reply: a string, trimmed, unless that is empty. */
  function ServerChip(item: Json): Option<string> {
    if item.JString? && Trim(item.s) != "" then Some(Trim(item.s)) else None
  }

  /** The server's answer to `/quick-replies`: a thrown error, a non-ok response, or a body that
      parsed to a JSON value or failed to parse. */
  datatype ServerReply = ServerRaised | ServerNotOk | ServerBody(data: Option<Json>)

  /** The `quick_replies` list of a parsed body, when it is a list. */
  function QuickRepliesList(data: Json): Option<seq<Json>> {
    if data.JObject? && "quick_replies" in data.fields && data.fields["quick_replies"].JArray?
    then Some(data.fields["quick_replies"].items)
    else None
  }

  /** `fetchSmartQuickReplies`: nothing for blank text or any failure; otherwise the server's
      string replies, trimmed, the empty ones dropped, the first four kept, repeats allowed. */
  function FetchSmartQuickReplies(text: string, reply: ServerReply): (r: seq<string>)
    ensures Trim(text) == "" ==> r == []
    ensures |r| <= MaxChips
    ensures forall i :: 0 <= i < |r| ==> r[i] != "" && Stripped(JavaScript, r[i])
    ensures r != [] ==>
      && reply.ServerBody? && reply.data.Some? && QuickRepliesList(reply.data.value).Some?
      && var items := QuickRepliesList(reply.data.value).value;
         r <= FilterMap(items, ServerChip)
    ensures Trim(text) != "" && reply.ServerBody? && reply.data.Some?
            && QuickRepliesList(reply.data.value).Some? ==>
      r == ServerChipsOf(QuickRepliesList(reply.data.value).value)
  {
    if Trim(text) == "" then []
    else
      match reply
      case ServerBody(Some(data)) =>
        (match QuickRepliesList(data)
         case Some(items) => ServerChipsOf(items)
         case None => [])
      case _ => []
  }

  /** The first four kept server replies. */
  function ServerChipsOf(items: seq<Json>): (r: seq<string>)
    ensures r <= FilterMap(items, ServerChip) && |r| <= MaxChips
    ensures forall i :: 0 <= i < |r| ==> r[i] != "" && Stripped(JavaScript, r[i])
    ensures var kept := FilterMap(items, ServerChip);
      |r| == if |kept| <= MaxChips then |kept| else MaxChips
  {
    var kept := FilterMap(items, ServerChip);
    forall i | 0 <= i < |kept| ensures kept[i] != "" && Stripped(JavaScript, kept[i]) {
      var j :| 0 <= j < |items| && ServerChip(items[j]) == Some(kept[i]);
    }
    Take(kept, MaxChips)
  }

  /** The server's replies are not deduplicated: a reply the server repeats is shown twice. */
  lemma ServerRepliesMayRepeat(text: string, x: string)
    requires Trim(text) != "" && x != "" && Stripped(JavaScript, x)
    ensures var data := JObject(map["quick_replies" := JArray([JString(x), JString(x)])]);
      FetchSmartQuickReplies(text, ServerBody(Some(data))) == [x, x]
  {
    var items := [JString(x), JString(x)];
    var data := JObject(map["quick_replies" := JArray(items)]);
    assert QuickRepliesList(data) == Some(items);
    RepeatedChipKept(x);
    assert ServerChipsOf(items) == Take([x, x], MaxChips);
  }

  lemma RepeatedChipKept(x: string)
    requires x != "" && Stripped(JavaScript, x)
    ensures FilterMap([JString(x), JString(x)], ServerChip) == [x, x]
  {
    StrippedChipKept(x);
    FilterMapRepeat(JString(x), ServerChip);
  }

  lemma StrippedChipKept(x: string)
    requires x != "" && Stripped(JavaScript, x)
    ensures ServerChip(JString(x)) == Some(x)
  {
    StripFixesStripped(JavaScript, x);
  }

  /** `paintQuickReplyChips`: chips are shown only in the idle phase and only when there are
      replies. */
  function Paint(phase: Phase, replies: seq<string>): (r: seq<string>)
    ensures r != [] <==> phase == Idle && replies != []
    ensures r != [] ==> r == replies
  {
    if phase != Idle || replies == [] then [] else replies
  }

  /** The end of `renderQuickReplyChips`, begun in the idle phase with the last assistant text
      `snapshot`: the fetched replies are dropped when the phase or the last assistant text has
      changed meanwhile; otherwise they are painted, or, when there are none, the detected ones. */
  function ChipsArrive(u: Ui, snapshot: string, smart: seq<string>, candidates: seq<string>): (r: Ui)
    ensures snapshot != u.lastAssistant || u.phase != Idle ==> r == u
    ensures snapshot == u.lastAssistant && u.phase == Idle ==>
      && r == u.(chips := r.chips)
      && (smart != [] ==> r.chips == smart)
      && (smart == [] ==> r.chips == DetectQuickReplies(snapshot, candidates))
  {
    if snapshot != u.lastAssistant || u.phase != Idle then u
    else
      var replies := if smart != [] then smart else DetectQuickReplies(snapshot, candidates);
      u.(chips := Paint(Idle, replies))
  }

  /** A chip's click: its text becomes the draft and the review phase follows. The handler has
      no working guard of its own. */
  function ChipClick(u: Ui, value: string): (r: Ui)
    requires value in u.chips
    ensures r.phase == Review && r.draft == value && r.input == value && r.chips == []
  {
    SetPhase(u.(draft := value, input := value), Review)
  }

  // ---------------------------------------------------------------------------------------------
  // Invariants

  /** The last assistant text is that of the last assistant bubble. */
  function LastAssistantText(bubbles: seq<Bubble>): string
    decreases |bubbles|
  {
    if bubbles == [] then ""
    else if bubbles[|bubbles| - 1].speaker == AssistantBubble then bubbles[|bubbles| - 1].text
    else LastAssistantText(bubbles[..|bubbles| - 1])
  }

  /** What holds between events: no action is running, a recorder records exactly in the
      recording phase and only with an open stream (a stream may stay open without one), chips are on show only in the idle phase,
      the draft is what the text field holds, and the last assistant text is that of the last
      assistant bubble. */
  predicate Valid(u: Ui) {
    && !u.working
    && (u.recording <==> u.phase == Recording)
    && (u.recording ==> u.streamOpen)
    && (u.chips != [] ==> u.phase == Idle)
    && u.draft == u.input
    && u.lastAssistant == LastAssistantText(u.bubbles)
  }

  lemma AppendKeepsLast(u: Ui, speaker: Speaker, text: string)
    requires u.lastAssistant == LastAssistantText(u.bubbles)
    ensures var r := AppendBubble(u, speaker, text); r.lastAssistant == LastAssistantText(r.bubbles)
  {
    var r := AppendBubble(u, speaker, text);
    assert r.bubbles[..|r.bubbles| - 1] == u.bubbles;
  }

  lemma StartIsValid()
    ensures Valid(Start)
  {
    var b := [Bubble(AssistantBubble, WelcomeBubbleText)];
    assert b[|b| - 1].speaker == AssistantBubble;
  }

  /** Every event keeps the invariant. */
  lemma ClickKeepsValid(u: Ui, o: Outcomes)
    requires Valid(u)
    ensures Valid(Click(u, o))
  {
    match u.phase
    case Init =>
      if o.init.Initialized? {
        AppendKeepsLast(u, AssistantBubble, OrElse(o.init.intro, "Initialized. You can start recording."));
      } else {
        AppendKeepsLast(u, AssistantBubble, "Initialization failed. Please try again.");
      }
    case Idle =>
      if o.mic.RecorderRefused? {
        AppendKeepsLast(u.(chunks := 0, recording := false, streamOpen := true), AssistantBubble,
                        MicFailureText(o.mic));
      } else if !o.mic.MicGranted? {
        AppendKeepsLast(u, AssistantBubble, MicFailureText(o.mic));
      }
    case Recording =>
      var f := StopFailure(u.chunks, o.stop, o.upload);
      if f.Some? {
        AppendKeepsLast(u, AssistantBubble, f.value);
      }
    case Review =>
      SendKeepsValid(u, o.send);
  }

  lemma SendKeepsValid(u: Ui, o: SendOutcome)
    requires Valid(u) && u.phase == Review
    ensures Valid(SendEditedMessage(u, o))
  {
    var text := Trim(u.input);
    AppendKeepsLast(u, AssistantBubble, "Please enter text before sending.");
    if text != "" {
      match o
      case Sent(reply) =>
        var withUser := AppendBubble(u, UserBubble, text);
        AppendKeepsLast(u, UserBubble, text);
        AppendKeepsLast(withUser, AssistantBubble, OrElse(reply, "No reply returned."));
      case SendRaised(message) =>
        AppendKeepsLast(u, AssistantBubble, OrElse(message, "Something went wrong while sending."));
      case SendNotOk =>
        AppendKeepsLast(u, AssistantBubble, "Send failed.");
    }
  }

  lemma OtherEventsKeepValid(u: Ui, size: nat, value: string, snapshot: string, smart: seq<string>,
                             candidates: seq<string>)
    requires Valid(u)
    ensures Valid(DataAvailable(u, size))
    ensures Valid(Edit(u, value))
    ensures Valid(ChipsArrive(u, snapshot, smart, candidates))
    ensures value in u.chips ==> Valid(ChipClick(u, value))
  {
  }

  /** In a valid state the button cycles init, idle, recording, review, idle: the click in each
      phase leads only to the next phase or back to a resting one. */
  lemma ClickPhases(u: Ui, o: Outcomes)
    requires Valid(u)
    ensures var r := Click(u, o);
      && (u.phase == Init ==> (r.phase == Idle <==> o.init.Initialized?) && r.phase in {Init, Idle})
      && (u.phase == Idle ==> (r.phase == Recording <==> o.mic.MicGranted?) && r.phase in {Idle, Recording})
      && (u.phase == Recording ==>
            (r.phase == Review <==> StopFailure(u.chunks, o.stop, o.upload).None?)
            && r.phase in {Idle, Review})
      && (u.phase == Review ==>
            (r.phase == Idle <==> Trim(u.input) != "" && o.send.Sent?) && r.phase in {Idle, Review})
  {
  }
}
