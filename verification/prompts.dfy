/** The teacher app's prompt builders: the language level cut out of a level definition such as
    "beginner (easy reader level 1-2)", and the prompts with their parameters embedded.

    The prose of the prompts is not modelled: a prompt is a template of fixed pieces, whose
    wording is an argument, and holes for the parameters. */
module Prompts {
  import opened Wrappers
  import opened Text

  const BeginnerDef: string := "beginner (easy reader level 1-2)"
  const AdvancedDef: string := "advanced (easy reader level 3-4)"

  /** Python `pieces[i]`: `IndexError` past the end. */
  function Piece(pieces: seq<string>, i: nat): (r: Result<string>)
    ensures i < |pieces| <==> r.Success?
    ensures r.Success? ==> r.value == pieces[i]
    ensures r.Failure? ==> r.error == IndexError
  {
    if i < |pieces| then Success(pieces[i]) else Failure(IndexError)
  }

  /** `teacher_def.split('(')[1].split(')')[0]`. */
  function ExtractLevel(definition: string): (r: Result<string>)
    ensures r.Failure? <==> '(' !in definition
    ensures r.Failure? ==> r.error == IndexError
    ensures r.Success? ==> '(' !in r.value && ')' !in r.value
  {
    var afterOpen :- Piece(Split(definition, '('), 1);
    Success(Split(afterOpen, ')')[0])
  }

  /** The level is the text after the first `(` up to the next `)` or `(`: for a definition
      built from a prefix without `(`, the level, and anything that starts with a parenthesis,
      the level comes back out. */
  lemma ExtractLevelOf(prefix: string, level: string, rest: string)
    requires '(' !in prefix && '(' !in level && ')' !in level
    requires rest == [] || rest[0] == '(' || rest[0] == ')'
    ensures ExtractLevel(prefix + "(" + level + rest) == Success(level)
  {
    var q := Split(rest, '(')[0];
    PieceAfterOpen(prefix, level, rest);
    assert q == [] || q[0] == ')' by {
      SplitHeadIsPrefix(rest, '(');
      assert q != [] ==> q[0] == rest[0] && q[0] in q;
    }
    SplitHeadConcat(level, q, ')');
    SplitHeadEmpty(q, ')');
    var definition := prefix + "(" + level + rest;
    assert Piece(Split(definition, '('), 1) == Success(level + q);
    assert Split(level + q, ')')[0] == level + [];
    assert level + [] == level;
  }

  /** The piece after the first `(` is the level and what follows it up to the next `(`. */
  lemma PieceAfterOpen(prefix: string, level: string, rest: string)
    requires '(' !in prefix && '(' !in level
    ensures |Split(prefix + "(" + level + rest, '(')| >= 2
    ensures Split(prefix + "(" + level + rest, '(')[1] == level + Split(rest, '(')[0]
  {
    assert prefix + "(" + level + rest == prefix + ['('] + (level + rest);
    SplitAfterSeparator(prefix, level + rest, '(');
    SplitHeadConcat(level, rest, '(');
  }

  /** Text that is empty or starts with the separator has an empty first piece. */
  lemma SplitHeadEmpty(q: string, sep: char)
    requires q == [] || q[0] == sep
    ensures Split(q, sep)[0] == []
  {
    if q != [] {
      assert q == [] + [sep] + q[1..];
      SplitAfterSeparator([], q[1..], sep);
    }
  }

  /** The two level definitions of the teacher app give the two easy-reader levels. */
  lemma BeginnerLevel()
    ensures ExtractLevel(BeginnerDef) == Success("easy reader level 1-2")
  {
    var prefix, level, rest := "beginner ", "easy reader level 1-2", ")";
    assert BeginnerDef == prefix + "(" + level + rest;
    ExtractLevelOf(prefix, level, rest);
  }

  lemma AdvancedLevel()
    ensures ExtractLevel(AdvancedDef) == Success("easy reader level 3-4")
  {
    var prefix, level, rest := "advanced ", "easy reader level 3-4", ")";
    assert AdvancedDef == prefix + "(" + level + rest;
    ExtractLevelOf(prefix, level, rest);
  }

  // ---------------------------------------------------------------------------------------------
  // Templates

  /** A piece of a prompt: fixed wording (the `n`-th passage of the prompt's prose) or one of the
      two parameters. */
  datatype Part = Fixed(n: nat) | TargetLanguage | LanguageLevel

  type Template = seq<Part>

  /** The prose passages of the prompts. */
  type Wording = nat -> string

  /** The text of one part. */
  function PartText(p: Part, wording: Wording, target: string, level: string): string {
    match p
    case Fixed(n) => wording(n)
    case TargetLanguage => target
    case LanguageLevel => level
  }

  /** A template with its wording and parameters filled in. */
  function Fill(t: Template, wording: Wording, target: string, level: string): string {
    if t == [] then "" else PartText(t[0], wording, target, level) + Fill(t[1..], wording, target, level)
  }

  /** `s[i..]` begins with `x`. */
  predicate OccursAt(s: string, x: string, i: nat) {
    i + |x| <= |s| && s[i..i + |x|] == x
  }

  /** Filling distributes over concatenation of templates. */
  lemma {:induction false} FillConcat(t: Template, u: Template, wording: Wording, target: string,
                                      level: string)
    ensures Fill(t + u, wording, target, level)
      == Fill(t, wording, target, level) + Fill(u, wording, target, level)
    decreases |t|
  {
    if t != [] {
      assert (t + u)[0] == t[0];
      assert (t + u)[1..] == t[1..] + u;
      FillConcat(t[1..], u, wording, target, level);
      var head := PartText(t[0], wording, target, level);
      assert Fill(t + u, wording, target, level)
        == head + (Fill(t[1..], wording, target, level) + Fill(u, wording, target, level));
    } else {
      assert t + u == u;
    }
  }

  /** Each hole of a template holds its parameter verbatim, right after the filled text of the
      parts before it. */
  lemma FillHole(t: Template, k: nat, wording: Wording, target: string, level: string)
    requires k < |t| && !t[k].Fixed?
    ensures var value := if t[k] == TargetLanguage then target else level;
      OccursAt(Fill(t, wording, target, level), value, |Fill(t[..k], wording, target, level)|)
  {
    var value := if t[k] == TargetLanguage then target else level;
    assert t == t[..k] + ([t[k]] + t[k + 1..]);
    FillConcat(t[..k], [t[k]] + t[k + 1..], wording, target, level);
    FillConcat([t[k]], t[k + 1..], wording, target, level);
    var before := Fill(t[..k], wording, target, level);
    var after := Fill(t[k + 1..], wording, target, level);
    assert Fill([t[k]], wording, target, level) == value + "";
    assert Fill(t, wording, target, level) == before + (value + after);
    assert (before + (value + after))[|before|..|before| + |value|] == value;
  }

  /** `prompt_beginner_teacher` and `prompt_advanced_teacher`: the same level extraction, put
      into the respective template. */
  function TeacherPrompt(t: Template, wording: Wording, definition: string): (r: Result<string>)
    ensures r.Failure? <==> '(' !in definition
    ensures r.Failure? ==> r.error == IndexError
  {
    var level :- ExtractLevel(definition);
    Success(Fill(t, wording, "", level))
  }

  /** The beginner teacher prompt: prose, the level, prose. */
  const BeginnerTeacherTemplate: Template := [Fixed(0), LanguageLevel, Fixed(1)]

  /** The advanced teacher prompt: prose, the level, prose. */
  const AdvancedTeacherTemplate: Template := [Fixed(0), LanguageLevel, Fixed(1)]

  /** `prompt_analysis`: the target language once, in the opening sentence, then the level in the
      same sentence, in the overall observations and in the improvement focus. */
  const AnalysisTemplate: Template :=
    [Fixed(0), TargetLanguage, Fixed(1), LanguageLevel, Fixed(2), LanguageLevel, Fixed(3),
     LanguageLevel, Fixed(4)]

  function PromptAnalysis(wording: Wording, targetLanguage: string, languageLevel: string): string {
    Fill(AnalysisTemplate, wording, targetLanguage, languageLevel)
  }

  /** Both teacher prompts for a definition embed the level extracted from it, right after their
      opening passage, and fail together when it has no `(`. */
  lemma TeacherPromptsEmbedLevel(beginner: Wording, advanced: Wording, definition: string)
    ensures var b := TeacherPrompt(BeginnerTeacherTemplate, beginner, definition);
      var a := TeacherPrompt(AdvancedTeacherTemplate, advanced, definition);
      && (b.Success? <==> a.Success?)
      && (b.Success? ==>
            OccursAt(b.value, ExtractLevel(definition).value, |beginner(0)|)
            && OccursAt(a.value, ExtractLevel(definition).value, |advanced(0)|))
  {
    if '(' in definition {
      var level := ExtractLevel(definition).value;
      FillHole(BeginnerTeacherTemplate, 1, beginner, "", level);
      assert BeginnerTeacherTemplate[..1] == [Fixed(0)];
      assert Fill([Fixed(0)], beginner, "", level) == beginner(0) + "";
      FillHole(AdvancedTeacherTemplate, 1, advanced, "", level);
      assert AdvancedTeacherTemplate[..1] == [Fixed(0)];
      assert Fill([Fixed(0)], advanced, "", level) == advanced(0) + "";
    }
  }

  /** The analysis prompt holds the target language and, three times, the level, verbatim. */
  lemma AnalysisPromptEmbeds(wording: Wording, targetLanguage: string, languageLevel: string)
    ensures var p := PromptAnalysis(wording, targetLanguage, languageLevel);
      && OccursAt(p, targetLanguage, |wording(0)|)
      && OccursAt(p, languageLevel, |wording(0) + targetLanguage + wording(1)|)
      && OccursAt(p, languageLevel,
                  |wording(0) + targetLanguage + wording(1) + languageLevel + wording(2)|)
      && OccursAt(p, languageLevel,
                  |wording(0) + targetLanguage + wording(1) + languageLevel + wording(2)
                   + languageLevel + wording(3)|)
  {
    var t := AnalysisTemplate;
    FillHole(t, 1, wording, targetLanguage, languageLevel);
    FillHole(t, 3, wording, targetLanguage, languageLevel);
    FillHole(t, 5, wording, targetLanguage, languageLevel);
    FillHole(t, 7, wording, targetLanguage, languageLevel);
    FillPrefix(wording, targetLanguage, languageLevel);
  }

  /** The filled prefixes of the analysis template before each hole. */
  lemma FillPrefix(wording: Wording, target: string, level: string)
    ensures Fill(AnalysisTemplate[..1], wording, target, level) == wording(0)
    ensures Fill(AnalysisTemplate[..3], wording, target, level) == wording(0) + target + wording(1)
    ensures Fill(AnalysisTemplate[..5], wording, target, level)
      == wording(0) + target + wording(1) + level + wording(2)
    ensures Fill(AnalysisTemplate[..7], wording, target, level)
      == wording(0) + target + wording(1) + level + wording(2) + level + wording(3)
  {
    var t := AnalysisTemplate;
    assert t[..0] == [];
    assert "" + wording(0) == wording(0);
    FillSnoc(t, 0, wording, target, level);
    FillSnoc(t, 1, wording, target, level);
    FillSnoc(t, 2, wording, target, level);
    FillSnoc(t, 3, wording, target, level);
    FillSnoc(t, 4, wording, target, level);
    FillSnoc(t, 5, wording, target, level);
    FillSnoc(t, 6, wording, target, level);
  }

  /** Filling one more part of a template appends that part's text. */
  lemma FillSnoc(t: Template, k: nat, wording: Wording, target: string, level: string)
    requires k < |t|
    ensures Fill(t[..k + 1], wording, target, level)
      == Fill(t[..k], wording, target, level) + PartText(t[k], wording, target, level)
  {
    assert t[..k + 1] == t[..k] + [t[k]];
    FillConcat(t[..k], [t[k]], wording, target, level);
    assert Fill([t[k]], wording, target, level) == PartText(t[k], wording, target, level) + "";
  }
}
