/** The FastAPI service's conversation analysis: the transcript text the auditing model reads, the
    "is the conversation finished?" test, the summary, and the block layout of the PDF report.

    Each chat-completion call is an argument: a function from the user prompt (the transcript
    text) to the message content the model returns, the system prompt being fixed per call site.
    The report is the sequence of blocks handed to the PDF builder; fonts, colours, margins, the
    page header and the temporary file are not modelled. */
module Analysis {
  import opened Wrappers
  import opened Text
  import opened Lists
  import opened Transcript
  import opened Emoji
  import opened Chatbot

  /** A chat-completion call with a fixed system prompt: transcript text to message content. */
  type Completion = string -> Option<string>

  // ---------------------------------------------------------------------------------------------
  // Transcript text

  /** One line of the transcript: the capitalised role name, a colon, and the content. */
  function ChatLine(m: Message): (r: string)
    ensures StartsWith(r, Capitalize(RoleName(m.role)) + ": ")
    ensures r[|Capitalize(RoleName(m.role)) + ": "|..] == m.content
  {
    var head := Capitalize(RoleName(m.role)) + ": ";
    var r := head + m.content;
    assert r[..|head|] == head;
    r
  }

  function ChatLines(h: History): (r: seq<string>)
    ensures |r| == |h|
    ensures forall i :: 0 <= i < |h| ==> r[i] == ChatLine(h[i])
  {
    if h == [] then [] else [ChatLine(h[0])] + ChatLines(h[1..])
  }

  /** The history without its first message (the system prompt); Python's `h[1:]`. */
  function AfterPrompt(h: History): (r: History)
    ensures |h| >= 1 ==> r == h[1..]
    ensures |h| == 0 ==> r == []
  {
    if h == [] then [] else h[1..]
  }

  /** `_build_chat_text`: every message after the first, one line each. */
  function BuildChatText(h: History): string {
    Join(ChatLines(AfterPrompt(h)), '\n')
  }

  /** A role name is a lowercase word; capitalised, it holds no line break. */
  lemma ChatLineHasNoBreak(m: Message)
    requires '\n' !in m.content
    ensures '\n' !in ChatLine(m)
  {
    var head := Capitalize(RoleName(m.role)) + ": ";
    assert '\n' !in head;
    assert ChatLine(m) == head + m.content;
  }

  /** The transcript text splits back into one line per message after the first, each line
      "Role: content", as long as no message contains a line break. */
  lemma ChatTextLines(h: History)
    requires |h| >= 2
    requires forall i :: 0 <= i < |h| ==> '\n' !in h[i].content
    ensures var lines := Split(BuildChatText(h), '\n');
      && |lines| == |h| - 1
      && forall i :: 0 <= i < |lines| ==>
           StartsWith(lines[i], Capitalize(RoleName(h[i + 1].role)) + ": ")
           && lines[i][|Capitalize(RoleName(h[i + 1].role)) + ": "|..] == h[i + 1].content
  {
    var lines := ChatLines(h[1..]);
    forall i | 0 <= i < |lines| ensures '\n' !in lines[i] {
      ChatLineHasNoBreak(h[1..][i]);
    }
    SplitJoin(lines, '\n');
  }

  // ---------------------------------------------------------------------------------------------
  // Conclusion test and summary

  /** The answer reads TRUE: after any leading whitespace come four characters that spell
      "true" with letters of either case. */
  predicate SaysTrue(answer: string) {
    var k := LeadingSpace(Python, answer);
    k + 4 <= |answer| && forall j :: 0 <= j < 4 ==> LowerChar(answer[k + j]) == "true"[j]
  }

  /** `conversation_concluded`: a history of at most two messages never counts as finished;
      otherwise the model's stripped, lower-cased answer must start with "true". */
  function ConversationConcluded(h: History, classify: Completion): (r: bool)
    ensures |h| <= 2 ==> !r
  {
    if |h| <= 2 then false
    else
      var answer := Lower(Strip(classify(BuildChatText(h)).GetOr("")));
      StartsWith(answer, "true")
  }

  /** An answer whose stripped, lower-cased form starts with "true" reads TRUE. */
  lemma PrefixTrueSaysTrue(answer: string)
    requires StartsWith(Lower(Strip(answer)), "true")
    ensures SaysTrue(answer)
  {
    var s := Strip(answer);
    var k := LeadingSpace(Python, answer);
    assert k + |s| <= |answer| && s == answer[k..k + |s|];
    var low := Lower(s);
    forall j | 0 <= j < 4 ensures LowerChar(answer[k + j]) == "true"[j] {
      assert low[j] == LowerChar(s[j]);
      assert s[j] == answer[k + j];
    }
  }

  /** A character that lower-cases to a letter of "true" is not whitespace. */
  lemma LetterIsNotSpace(c: char, j: int)
    requires 0 <= j < 4 && LowerChar(c) == "true"[j]
    ensures !IsPySpace(c)
  {
  }

  /** The four letters of an answer that reads TRUE are not whitespace. */
  lemma SaysTrueLettersNotSpace(answer: string)
    requires SaysTrue(answer)
    ensures var k := LeadingSpace(Python, answer);
      forall m :: k <= m < k + 4 ==> !IsPySpace(answer[m])
  {
    var k := LeadingSpace(Python, answer);
    forall m | k <= m < k + 4 ensures !IsPySpace(answer[m]) {
      LetterIsNotSpace(answer[m], m - k);
    }
  }

  /** Text after which only whitespace follows cannot stop inside a run of four non-space
      characters. */
  lemma SpaceRunBound(answer: string, k: nat, len: nat)
    requires k + len <= |answer| && AllSpace(Python, answer[k + len..])
    requires k + 4 <= |answer| && forall m :: k <= m < k + 4 ==> !IsPySpace(answer[m])
    ensures len >= 4
  {
    assert k + len < |answer| ==> answer[k + len..][0] == answer[k + len];
  }

  /** An answer that reads TRUE has a stripped, lower-cased form starting with "true": the four
      letters are not whitespace, so the strip keeps them. */
  lemma SaysTruePrefixTrue(answer: string)
    requires SaysTrue(answer)
    ensures StartsWith(Lower(Strip(answer)), "true")
  {
    var s := Strip(answer);
    var k := LeadingSpace(Python, answer);
    assert k + |s| <= |answer| && s == answer[k..k + |s|];
    SaysTrueLettersNotSpace(answer);
    SpaceRunBound(answer, k, |s|);
    var low := Lower(s);
    forall j | 0 <= j < 4 ensures low[j] == "true"[j] {
      assert s[j] == answer[k + j];
    }
    assert low[..4] == "true";
  }

  /** The conclusion test, against the independent reading of the answer. */
  lemma ConcludedIffSaysTrue(h: History, classify: Completion)
    ensures ConversationConcluded(h, classify)
      <==> |h| > 2 && SaysTrue(classify(BuildChatText(h)).GetOr(""))
  {
    var answer := classify(BuildChatText(h)).GetOr("");
    if StartsWith(Lower(Strip(answer)), "true") {
      PrefixTrueSaysTrue(answer);
    }
    if SaysTrue(answer) {
      SaysTruePrefixTrue(answer);
    }
  }

  /** `create_summary`: the model's stripped answer about the transcript, empty when it gives no
      content. */
  function CreateSummary(h: History, summarize: Completion): (r: string)
    ensures Stripped(Python, r)
    ensures summarize(BuildChatText(h)) == None ==> r == ""
    ensures summarize(BuildChatText(h)).Some? ==> r == Strip(summarize(BuildChatText(h)).value)
  {
    Strip(summarize(BuildChatText(h)).GetOr(""))
  }

  /** A summary the model already gives without surrounding whitespace is kept verbatim, and a
      summary is its own strip. */
  lemma SummaryKeepsStrippedAnswer(h: History, summarize: Completion, x: string)
    requires summarize(BuildChatText(h)) == Some(x) && Stripped(Python, x)
    ensures CreateSummary(h, summarize) == x
    ensures Strip(CreateSummary(h, summarize)) == CreateSummary(h, summarize)
  {
    StripFixesStripped(Python, x);
  }

  // ---------------------------------------------------------------------------------------------
  // Report layout

  const ReportTitle: string := "Sozialhilfe-Check St.Gallen"
  const ReportCaption: string := "Dokumentation des Beratungsgesprächs"
  const OverviewTitle: string := "Übersicht"
  const GermanTranscriptTitle: string := "Gesprächsprotokoll (Deutsch)"
  const ApplicantLabel: string := "Beantragende Person"
  const BotLabel: string := "Sozi-Bot"
  const LineBreakMarkup: string := "<br/>"

  /** The flowables of the report, reduced to their content. `Entry` is one transcript message:
      the bold speaker label, a line break, and the text. */
  datatype Block =
    | Heading(text: string)
    | Caption(text: string)
    | Gap(points: nat)
    | MetaTable(date: string, language: string)
    | Section(title: string)
    | Bullet(text: string)
    | Entry(speaker: string, text: string)

  /** The speaker label: only user messages are the applicant's. */
  function Speaker(role: Role): string {
    if role == User then ApplicantLabel else BotLabel
  }

  /** A message's text as printed: emojis removed, line breaks turned into markup. */
  function ProtocolText(content: string): (r: string)
    ensures '\n' !in r
    ensures forall i :: 0 <= i < |r| ==> !InClass(WithModifiers, r[i])
    ensures '\n' !in RemoveEmojis(content) ==> r == RemoveEmojis(content)
  {
    var cleaned := RemoveEmojis(content);
    var r := ReplaceChar(cleaned, '\n', LineBreakMarkup);
    MarkupFacts();
    ReplacedClassFree(cleaned, r);
    r
  }

  /** Each line break of the emoji-free text becomes the markup, and the text around it is
      printed as it is: a first line `a`, a break, then the rest `b`. */
  lemma ProtocolTextBreaksLines(content: string, a: string, b: string)
    requires RemoveEmojis(content) == a + "\n" + b && '\n' !in a
    ensures ProtocolText(content) == a + LineBreakMarkup + ReplaceChar(b, '\n', LineBreakMarkup)
  {
    ReplaceCharConcat(a + "\n", b, '\n', LineBreakMarkup);
    ReplaceCharConcat(a, "\n", '\n', LineBreakMarkup);
    ReplaceCharOne('\n', '\n', LineBreakMarkup);
  }

  /** The line-break markup holds neither a line break nor an emoji-class character. */
  lemma MarkupFacts()
    ensures '\n' !in LineBreakMarkup
    ensures forall c :: c in LineBreakMarkup ==> !InClass(WithModifiers, c)
  {
    assert LineBreakMarkup == ['<', 'b', 'r', '/', '>'];
  }

  /** Replacing line breaks by the markup brings no emoji-class character into the text. */
  lemma ReplacedClassFree(s: string, r: string)
    requires r == ReplaceChar(s, '\n', LineBreakMarkup)
    requires forall i :: 0 <= i < |s| ==> !InClass(WithModifiers, s[i])
    requires forall c :: c in LineBreakMarkup ==> !InClass(WithModifiers, c)
    ensures forall i :: 0 <= i < |r| ==> !InClass(WithModifiers, r[i])
  {
    forall i | 0 <= i < |r| ensures !InClass(WithModifiers, r[i]) {
      if r[i] !in LineBreakMarkup {
        var k :| 0 <= k < |s| && s[k] == r[i];
      }
    }
  }

  /** A message's text in a transcript section: the printed text, translated into German by
      `translate` when it is given. */
  function Shown(content: string, translate: Option<TranslationModel>): string {
    var text := ProtocolText(content);
    if translate.Some? then TranslateText(text, "de", translate.value) else text
  }

  /** The entries of a transcript section, one per message, labelled by speaker. */
  function TranscriptBlocks(msgs: History, translate: Option<TranslationModel>): (r: seq<Block>)
    ensures |r| == |msgs|
    ensures forall i {:trigger r[i]} :: 0 <= i < |msgs| ==>
      r[i] == Entry(Speaker(msgs[i].role), Shown(msgs[i].content, translate))
  {
    seq(|msgs|, i requires 0 <= i < |msgs| => Entry(Speaker(msgs[i].role), Shown(msgs[i].content, translate)))
  }

  /** What the summary loop keeps of one line: its stripped text, unless that is empty. */
  function KeptLine(line: string): Option<string> {
    var t := Strip(line);
    if t != [] then Some(t) else None
  }

  /** The stripped, non-blank lines of the summary, in order. */
  function SummaryItems(summary: string): seq<string> {
    FilterMap(Split(summary, '\n'), KeptLine)
  }

  /** A bullet and a small gap for every kept summary line. */
  function SummaryBlocks(items: seq<string>): seq<Block> {
    if items == [] then [] else [Bullet("• " + items[0]), Gap(3)] + SummaryBlocks(items[1..])
  }

  /** The history from its third message on; Python's `h[2:]`. */
  function Conversation(h: History): (r: History)
    ensures |h| >= 2 ==> r == h[2..]
    ensures |h| < 2 ==> r == []
  {
    if |h| < 2 then [] else h[2..]
  }

  /** Title, caption, the export date and language table, and the overview heading. */
  function ReportHeader(today: string, targetLanguage: string): seq<Block> {
    [Heading(ReportTitle), Caption(ReportCaption), Gap(12),
     MetaTable(today, Capitalize(targetLanguage)), Gap(12), Section(OverviewTitle), Gap(8)]
  }

  function OriginalTitle(targetLanguage: string): string {
    "Gesprächsprotokoll (" + Capitalize(targetLanguage) + ")"
  }

  /** The German transcript section around its entries. */
  function GermanTranscript(entries: seq<Block>): seq<Block> {
    [Gap(10), Section(GermanTranscriptTitle), Gap(8)] + entries + [Gap(12)]
  }

  /** The section of untranslated entries, titled with the target language. */
  function OriginalTranscript(entries: seq<Block>, targetLanguage: string): seq<Block> {
    [Section(OriginalTitle(targetLanguage))] + entries + [Gap(12)]
  }

  /** The report around its two runs of entries; the second appears only for a target other
      than German. */
  function Layout(today: string, targetLanguage: string, items: seq<string>,
                  first: seq<Block>, second: seq<Block>): seq<Block>
  {
    ReportHeader(today, targetLanguage)
    + SummaryBlocks(items)
    + GermanTranscript(first)
    + (if targetLanguage != "german" then OriginalTranscript(second, targetLanguage) else [])
  }

  /** The report for the messages `c` to transcribe and the kept summary lines `items`. */
  function Report(c: History, targetLanguage: string, today: string, items: seq<string>,
                  model: TranslationModel): seq<Block>
  {
    var translating := targetLanguage != "german";
    Layout(today, targetLanguage, items,
           TranscriptBlocks(c, if translating then Some(model) else None), TranscriptBlocks(c, None))
  }

  /** `create_analysis_pdf`: the blocks of the report. `today` is the export date the clock
      gives; a target other than "german" has its German transcript translated and adds a
      section with the untranslated messages. */
  function AnalysisReport(h: History, targetLanguage: string, today: string,
                          summarize: Completion, model: TranslationModel): seq<Block>
  {
    Report(Conversation(h), targetLanguage, today, SummaryItems(CreateSummary(h, summarize)), model)
  }

  // ---------------------------------------------------------------------------------------------
  // Views of a report

  function SectionOf(b: Block): Option<string> {
    if b.Section? then Some(b.title) else None
  }

  function EntryOf(b: Block): Option<Block> {
    if b.Entry? then Some(b) else None
  }

  function BulletOf(b: Block): Option<string> {
    if b.Bullet? then Some(b.text) else None
  }

  /** The section titles of a report, in order. */
  function Sections(blocks: seq<Block>): seq<string> {
    FilterMap(blocks, SectionOf)
  }

  /** The transcript entries of a report, in order. */
  function Entries(blocks: seq<Block>): seq<Block> {
    FilterMap(blocks, EntryOf)
  }

  /** The summary bullets of a report, in order. */
  function Bullets(blocks: seq<Block>): seq<string> {
    FilterMap(blocks, BulletOf)
  }

  /** The three views of a concatenation are the concatenations of the views. */
  lemma ViewsConcat(a: seq<Block>, b: seq<Block>)
    ensures Sections(a + b) == Sections(a) + Sections(b)
    ensures Entries(a + b) == Entries(a) + Entries(b)
    ensures Bullets(a + b) == Bullets(a) + Bullets(b)
  {
    FilterMapConcat(a, b, SectionOf);
    FilterMapConcat(a, b, EntryOf);
    FilterMapConcat(a, b, BulletOf);
  }

  /** Views of one block followed by more. */
  lemma ViewsCons(x: Block, rest: seq<Block>)
    ensures Sections([x] + rest) == (if x.Section? then [x.title] else []) + Sections(rest)
    ensures Entries([x] + rest) == (if x.Entry? then [x] else []) + Entries(rest)
    ensures Bullets([x] + rest) == (if x.Bullet? then [x.text] else []) + Bullets(rest)
  {
    assert ([x] + rest)[0] == x;
    assert ([x] + rest)[1..] == rest;
  }

  lemma HeaderViews(today: string, targetLanguage: string)
    ensures var b := ReportHeader(today, targetLanguage);
      Sections(b) == [OverviewTitle] && Entries(b) == [] && Bullets(b) == []
  {
    var meta := MetaTable(today, Capitalize(targetLanguage));
    var t6 := [Gap(8)];
    var t5 := [Section(OverviewTitle)] + t6;
    var t4 := [Gap(12)] + t5;
    var t3 := [meta] + t4;
    var t2 := [Gap(12)] + t3;
    var t1 := [Caption(ReportCaption)] + t2;
    var t0 := [Heading(ReportTitle)] + t1;
    assert ReportHeader(today, targetLanguage) == t0;
    ViewsCons(Gap(8), []);
    assert t6 == [Gap(8)] + [];
    ViewsCons(Section(OverviewTitle), t6);
    ViewsCons(Gap(12), t5);
    ViewsCons(meta, t4);
    ViewsCons(Gap(12), t3);
    ViewsCons(Caption(ReportCaption), t2);
    ViewsCons(Heading(ReportTitle), t1);
  }

  lemma {:induction false} SummaryBlocksViews(items: seq<string>)
    ensures var b := SummaryBlocks(items);
      && Sections(b) == [] && Entries(b) == []
      && |Bullets(b)| == |items|
      && forall i :: 0 <= i < |items| ==> Bullets(b)[i] == "• " + items[i]
    decreases |items|
  {
    if items != [] {
      var rest := SummaryBlocks(items[1..]);
      SummaryBlocksViews(items[1..]);
      assert SummaryBlocks(items) == [Bullet("• " + items[0])] + ([Gap(3)] + rest);
      ViewsCons(Bullet("• " + items[0]), [Gap(3)] + rest);
      ViewsCons(Gap(3), rest);
    }
  }

  predicate AllEntries(blocks: seq<Block>) {
    forall i :: 0 <= i < |blocks| ==> blocks[i].Entry?
  }

  lemma EntriesViews(t: seq<Block>)
    requires AllEntries(t)
    ensures Sections(t) == [] && Entries(t) == t && Bullets(t) == []
  {
    FilterMapKeepsNone(t, SectionOf);
    FilterMapKeepsAll(t, EntryOf);
    FilterMapKeepsNone(t, BulletOf);
  }

  lemma GermanViews(t: seq<Block>)
    requires AllEntries(t)
    ensures var b := GermanTranscript(t);
      Sections(b) == [GermanTranscriptTitle] && Entries(b) == t && Bullets(b) == []
  {
    var tail := t + [Gap(12)];
    assert GermanTranscript(t) == [Gap(10)] + ([Section(GermanTranscriptTitle)] + ([Gap(8)] + tail));
    ViewsCons(Gap(10), [Section(GermanTranscriptTitle)] + ([Gap(8)] + tail));
    ViewsCons(Section(GermanTranscriptTitle), [Gap(8)] + tail);
    ViewsCons(Gap(8), tail);
    ViewsCons(Gap(12), []);
    assert [Gap(12)] == [Gap(12)] + [];
    EntriesViews(t);
    ViewsConcat(t, [Gap(12)]);
  }

  lemma OriginalViews(t: seq<Block>, targetLanguage: string)
    requires AllEntries(t)
    ensures var b := OriginalTranscript(t, targetLanguage);
      Sections(b) == [OriginalTitle(targetLanguage)] && Entries(b) == t && Bullets(b) == []
  {
    var tail := t + [Gap(12)];
    assert OriginalTranscript(t, targetLanguage) == [Section(OriginalTitle(targetLanguage))] + tail;
    ViewsCons(Section(OriginalTitle(targetLanguage)), tail);
    ViewsCons(Gap(12), []);
    assert [Gap(12)] == [Gap(12)] + [];
    EntriesViews(t);
    ViewsConcat(t, [Gap(12)]);
  }

  /** Sections, entries and bullets of the layout, computed part by part. */
  lemma LayoutViews(today: string, targetLanguage: string, items: seq<string>,
                    first: seq<Block>, second: seq<Block>)
    requires AllEntries(first) && AllEntries(second)
    ensures var r := Layout(today, targetLanguage, items, first, second);
      var translating := targetLanguage != "german";
      && Sections(r) == [OverviewTitle, GermanTranscriptTitle]
         + (if translating then [OriginalTitle(targetLanguage)] else [])
      && Entries(r) == first + (if translating then second else [])
      && Bullets(r) == Bullets(SummaryBlocks(items))
  {
    var translating := targetLanguage != "german";
    var header := ReportHeader(today, targetLanguage);
    var summary := SummaryBlocks(items);
    var german := GermanTranscript(first);
    var original: seq<Block> := if translating then OriginalTranscript(second, targetLanguage) else [];
    HeaderViews(today, targetLanguage);
    SummaryBlocksViews(items);
    GermanViews(first);
    var bullets := Bullets(summary);
    assert Sections(header + summary) == [OverviewTitle] by {
      ViewsConcat(header, summary);
      assert [OverviewTitle] + [] == [OverviewTitle];
    }
    assert Entries(header + summary) == [] && Bullets(header + summary) == bullets by {
      ViewsConcat(header, summary);
      assert [] + bullets == bullets;
    }
    var front := header + summary + german;
    assert Sections(front) == [OverviewTitle, GermanTranscriptTitle] by {
      ViewsConcat(header + summary, german);
      assert [OverviewTitle] + [GermanTranscriptTitle] == [OverviewTitle, GermanTranscriptTitle];
    }
    assert Entries(front) == first && Bullets(front) == bullets by {
      ViewsConcat(header + summary, german);
      assert [] + first == first;
      assert bullets + [] == bullets;
    }
    ViewsConcat(front, original);
    if translating {
      OriginalViews(second, targetLanguage);
    } else {
      assert Sections(original) == [] && Entries(original) == [] && Bullets(original) == [];
      assert Sections(front) + [] == Sections(front);
      assert first + [] == first;
      assert bullets + [] == bullets;
    }
  }

  /** Sections, entries and bullets of the report. */
  lemma ReportOfViews(c: History, targetLanguage: string, today: string, items: seq<string>,
                      model: TranslationModel)
    ensures var r := Report(c, targetLanguage, today, items, model);
      var translating := targetLanguage != "german";
      && Sections(r) == [OverviewTitle, GermanTranscriptTitle]
         + (if translating then [OriginalTitle(targetLanguage)] else [])
      && Entries(r) == TranscriptBlocks(c, if translating then Some(model) else None)
         + (if translating then TranscriptBlocks(c, None) else [])
      && Bullets(r) == Bullets(SummaryBlocks(items))
  {
    var translating := targetLanguage != "german";
    var first := TranscriptBlocks(c, if translating then Some(model) else None);
    var second := TranscriptBlocks(c, None);
    LayoutViews(today, targetLanguage, items, first, second);
  }

  /** The report has the overview and the German transcript sections, and a third section named
      after the target language exactly when that language is not German. */
  lemma ReportSections(h: History, targetLanguage: string, today: string, summarize: Completion,
                       model: TranslationModel)
    ensures Sections(AnalysisReport(h, targetLanguage, today, summarize, model))
      == [OverviewTitle, GermanTranscriptTitle]
         + (if targetLanguage != "german"
            then ["Gesprächsprotokoll (" + Capitalize(targetLanguage) + ")"] else [])
  {
    ReportOfViews(Conversation(h), targetLanguage, today, SummaryItems(CreateSummary(h, summarize)), model);
  }

  /** The entries of a report on the messages `c`: one per message, in order, labelled by
      speaker; in German (translated when the target is not German), followed, when the target
      is not German, by the same messages again untranslated. The report of a history `h` is
      the one on `Conversation(h)`, its messages from the third on. */
  lemma ReportEntries(c: History, targetLanguage: string, today: string, items: seq<string>,
                      model: TranslationModel)
    ensures var e := Entries(Report(c, targetLanguage, today, items, model));
      var n := |c|;
      && |e| == (if targetLanguage != "german" then 2 * n else n)
      && (forall i :: 0 <= i < n ==> e[i].Entry? && e[i].speaker == Speaker(c[i].role))
      && (forall i :: 0 <= i < n ==>
            e[i].text == Shown(c[i].content, if targetLanguage != "german" then Some(model) else None))
      && (forall i :: n <= i < |e| ==>
            e[i] == Entry(Speaker(c[i - n].role), Shown(c[i - n].content, None)))
  {
    var translating := targetLanguage != "german";
    var translate := if translating then Some(model) else None;
    ReportOfViews(c, targetLanguage, today, items, model);
    EntriesOfRuns(c, translate, translating, Entries(Report(c, targetLanguage, today, items, model)));
  }

  /** Indexing into the entries of one transcript section, or of two sections on the same
      messages where the second is untranslated. */
  lemma EntriesOfRuns(c: History, translate: Option<TranslationModel>, twice: bool, e: seq<Block>)
    requires e == TranscriptBlocks(c, translate) + (if twice then TranscriptBlocks(c, None) else [])
    ensures |e| == (if twice then 2 * |c| else |c|)
    ensures forall i {:trigger e[i]} :: 0 <= i < |c| ==>
      e[i].Entry? && e[i].speaker == Speaker(c[i].role) && e[i].text == Shown(c[i].content, translate)
    ensures forall i {:trigger e[i]} :: |c| <= i < |e| ==>
      e[i] == Entry(Speaker(c[i - |c|].role), Shown(c[i - |c|].content, None))
  {
    var first := TranscriptBlocks(c, translate);
    var second := TranscriptBlocks(c, None);
    var rest := if twice then second else [];
    FirstRunEntries(c, translate, first, rest, e);
    if twice {
      SecondRunEntries(c, first, second, e);
    }
  }

  /** The entries from the first transcript section come first. */
  lemma FirstRunEntries(c: History, translate: Option<TranslationModel>, first: seq<Block>,
                        rest: seq<Block>, e: seq<Block>)
    requires first == TranscriptBlocks(c, translate) && e == first + rest
    ensures |e| == |c| + |rest|
    ensures forall i {:trigger e[i]} :: 0 <= i < |c| ==>
      e[i].Entry? && e[i].speaker == Speaker(c[i].role) && e[i].text == Shown(c[i].content, translate)
  {
    forall i | 0 <= i < |c|
      ensures e[i].Entry? && e[i].speaker == Speaker(c[i].role) && e[i].text == Shown(c[i].content, translate)
    {
      AppendIndex(first, rest, i);
      TranscriptBlockAt(c, translate, i);
    }
  }

  /** The untranslated section's entries follow the first section's. */
  lemma SecondRunEntries(c: History, first: seq<Block>, second: seq<Block>, e: seq<Block>)
    requires |first| == |c| && second == TranscriptBlocks(c, None) && e == first + second
    ensures forall i {:trigger e[i]} :: |c| <= i < |e| ==>
      e[i] == Entry(Speaker(c[i - |c|].role), Shown(c[i - |c|].content, None))
  {
    forall i | |c| <= i < |e|
      ensures e[i] == Entry(Speaker(c[i - |c|].role), Shown(c[i - |c|].content, None))
    {
      AppendIndex(first, second, i);
      TranscriptBlockAt(c, None, i - |c|);
    }
  }

  lemma TranscriptBlockAt(c: History, translate: Option<TranslationModel>, j: int)
    requires 0 <= j < |c|
    ensures TranscriptBlocks(c, translate)[j] == Entry(Speaker(c[j].role), Shown(c[j].content, translate))
  {
  }

  /** The bullets of a report: a bullet sign and a space before each kept summary line, in
      order. */
  lemma ReportBullets(c: History, targetLanguage: string, today: string, items: seq<string>,
                      model: TranslationModel)
    ensures var b := Bullets(Report(c, targetLanguage, today, items, model));
      |b| == |items| && forall i :: 0 <= i < |items| ==> b[i] == "• " + items[i]
  {
    ReportOfViews(c, targetLanguage, today, items, model);
    SummaryBlocksViews(items);
  }

  /** Every kept summary line is the non-empty stripped text of a line of the summary, and every
      line of the summary that is not blank is kept. */
  lemma SummaryItemsOfLines(summary: string)
    ensures var items := SummaryItems(summary);
      var lines := Split(summary, '\n');
      && |items| <= |lines|
      && (forall i :: 0 <= i < |items| ==>
            IsLineOf(items[i], lines))
      && (forall j :: 0 <= j < |lines| && Strip(lines[j]) != [] ==> Strip(lines[j]) in items)
  {
    KeptLines(Split(summary, '\n'));
  }

  /** `x` is the stripped text of one of the `lines`, and not empty. */
  predicate IsLineOf(x: string, lines: seq<string>) {
    exists j :: 0 <= j < |lines| && Strip(lines[j]) != [] && x == Strip(lines[j])
  }

  lemma KeptLines(lines: seq<string>)
    ensures var items := FilterMap(lines, KeptLine);
      && |items| <= |lines|
      && (forall i :: 0 <= i < |items| ==>
            IsLineOf(items[i], lines))
      && (forall j :: 0 <= j < |lines| && Strip(lines[j]) != [] ==> Strip(lines[j]) in items)
  {
    var items := FilterMap(lines, KeptLine);
    forall i | 0 <= i < |items|
      ensures IsLineOf(items[i], lines)
    {
      var j :| 0 <= j < |lines| && KeptLine(lines[j]) == Some(items[i]);
      assert Strip(lines[j]) == items[i];
    }
    forall j | 0 <= j < |lines| && Strip(lines[j]) != [] ensures Strip(lines[j]) in items {
      assert KeptLine(lines[j]) == Some(Strip(lines[j]));
    }
  }

  /** A one-line summary is kept whole, as the only summary line. */
  lemma OneLineSummary(summary: string)
    requires Stripped(Python, summary) && summary != [] && '\n' !in summary
    ensures SummaryItems(summary) == [summary]
  {
    StripFixesStripped(Python, summary);
    assert Split(summary, '\n') == [summary];
    FilterMapSingle(summary, KeptLine);
  }
}
