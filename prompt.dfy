/**
  The prompt sent for an analysis and the error a failed request turns into
  (services/geminiService.ts). The prompt is built from the selected options,
  the tone, the custom points and the script by two lookup tables and a few
  ordered branches; the request itself goes to a text-generation service that
  is outside this model and enters it as the function `generate`.
 */
module PromptBuilder {
  import opened Strings

  /** The option that asks for everything and overrides every other one. */
  const FULL_ANALYSIS: string := "Full Analysis"

  /** TONE_MAP: the phrase each tone puts into the tone instruction. */
  const ToneMap: map<string, string> := map[
    "Standard" := "标准",
    "Formal" := "正式",
    "Informal" := "非正式",
    "Critical" := "批判性",
    "Enthusiastic" := "热情"
  ]

  /** The phrase used for a tone the table does not know. */
  const DEFAULT_TONE_PHRASE: string := "标准"

  /** OPTION_PROMPTS: the directive each specific option stands for. */
  const OptionPrompts: map<string, string> := map[
    "Character Arcs and Development" := "角色弧光与发展：详细分析每个主要角色的旅程。他们的性格、动机和目标是如何在故事中演变的？他们经历了哪些关键的转变？请为每个主要角色提供一个独立的分析部分。",
    "Plot Analysis" := "情节分析：评估故事结构、节奏和关键情节点（如激励事件、上升行动、高潮、下降行动和结局）。情节是否引人入胜？是否存在逻辑漏洞？",
    "Dialogue Quality" := "对话质量：深入评估剧本中的对话。分析其真实性和自然程度，以及每个角色的声音是否独特且一致。评估对话在揭示角色性格、推动情节、营造冲突和传达潜台词方面的效果。",
    "Thematic Elements" := "主题元素：识别并探讨剧本的核心主题和潜在信息。这些主题是如何通过情节、角色和象征手法来表达的？"
  ]

  /** The instruction when Full Analysis is selected. */
  const FULL_INSTRUCTION: string := "请对这个剧本进行全面、详细、深入的分析和总结，包括但不限于：\n- 主要人物介绍 (性格、动机、发展)\n- 人物关系分析\n- 故事情节大纲 (按集或场景划分)\n- 核心冲突\n- 探讨的主题"

  /** The header before the list of directives of specific options. */
  const SPECIFIC_HEADER: string := "请深入分析剧本的以下特定方面：\n- "

  /** What separates two directives in that list. */
  const DIRECTIVE_SEPARATOR: string := "\n- "

  /** The instruction when no option is selected. */
  const GENERIC_INSTRUCTION: string := "请深入分析剧本。"

  /** The header when custom points stand in for the missing options. */
  const CUSTOM_ONLY_HEADER: string := "请根据以下自定义要点，深入分析剧本：\n"

  /** The clause that appends custom points to the options' instruction. */
  const CUSTOM_ATTENTION: string := "\n\n请在分析中特别关注以下几点：\n"

  const TONE_PREFIX: string := "请使用"
  const TONE_SUFFIX: string := "的语气进行分析。"

  /** The fixed sections of the prompt template, in order. */
  const PREAMBLE: string := "你是一位专业的剧本分析师。请用中文，根据以下要求，分析提供的电视剧剧本。\n\n分析要求：\n"
  const TONE_HEADING: string := "\n\n分析语气：\n"
  const SCRIPT_HEADING: string := "\n\n---\n\n剧本内容：\n"

  /** The messages of the error `analyzeScript` rethrows. */
  const ERROR_PREFIX: string := "An error occurred while analyzing the script: "
  /** The literal is written in two parts only so that the verifier can read
      its characters by index (it does not index string literals this long);
      the value is the one sentence. */
  const UNKNOWN_ERROR: string := "An unknown " + "error occurred while analyzing the script."

  /** What a `catch` clause receives: an `Error` with its message, or a thrown
      value that is not an `Error`. */
  datatype Thrown = ErrorWith(message: string) | NonError

  /** How a call to the text-generation service ends: with its text, or by
      throwing. */
  datatype Reply = Text(text: string) | Threw(thrown: Thrown)

  // ---------------------------------------------------------------------
  // The analysis instruction
  // ---------------------------------------------------------------------

  /** `OPTION_PROMPTS[opt] || opt`: the table's directive for a known option,
      the option itself for any other. */
  function Directive(option: string): (d: string)
    ensures option in OptionPrompts ==> d == OptionPrompts[option] && d != option
    ensures option !in OptionPrompts ==> d == option
  {
    if option in OptionPrompts && OptionPrompts[option] != [] then OptionPrompts[option] else option
  }

  /** `options.map(opt => OPTION_PROMPTS[opt] || opt)`, in the caller's order. */
  function Directives(options: seq<string>): (ds: seq<string>)
    ensures |ds| == |options|
    ensures forall i :: 0 <= i < |options| ==> ds[i] == Directive(options[i])
  {
    seq(|options|, i requires 0 <= i < |options| => Directive(options[i]))
  }

  /** The instruction chosen by the options alone, before custom points. */
  function OptionsInstruction(options: seq<string>): string
  {
    if FULL_ANALYSIS in options then FULL_INSTRUCTION
    else if |options| > 0 then SPECIFIC_HEADER + Join(Directives(options), DIRECTIVE_SEPARATOR)
    else GENERIC_INSTRUCTION
  }

  /** `analysisInstruction` as it stands once the custom points are handled:
      non-blank points, trimmed, replace the generic instruction when no option
      is selected and are appended after the attention clause otherwise. */
  function Instruction(options: seq<string>, customPoints: string): (r: string)
    ensures IsBlank(customPoints) ==> r == OptionsInstruction(options)
    ensures !IsBlank(customPoints) ==> EndsWith(r, Trim(customPoints))
  {
    WithPoints(options, Trim(customPoints))
  }

  /** The instruction once the custom points are trimmed: `points` replaces
      the generic instruction or follows the attention clause. */
  function WithPoints(options: seq<string>, points: string): (r: string)
    ensures points == [] ==> r == OptionsInstruction(options)
    ensures EndsWith(r, points)
  {
    var base := OptionsInstruction(options);
    if points != [] then
      if |options| == 0 then
        AffixesOfConcat(CUSTOM_ONLY_HEADER, [], points);
        assert CUSTOM_ONLY_HEADER + [] + points == CUSTOM_ONLY_HEADER + points;
        CUSTOM_ONLY_HEADER + points
      else
        AffixesOfConcat(base, CUSTOM_ATTENTION, points);
        base + CUSTOM_ATTENTION + points
    else
      base
  }

  /** Once Full Analysis is selected, the other options make no difference:
      the instruction is the comprehensive text, followed by the custom points
      only when there are some. */
  lemma FullAnalysisDominates(a: seq<string>, b: seq<string>, customPoints: string)
    requires FULL_ANALYSIS in a && FULL_ANALYSIS in b
    ensures Instruction(a, customPoints) == Instruction(b, customPoints)
    ensures StartsWith(Instruction(a, customPoints), FULL_INSTRUCTION)
    ensures IsBlank(customPoints) ==> Instruction(a, customPoints) == FULL_INSTRUCTION
  {
    FullAnalysisInstruction(a, customPoints);
    FullAnalysisInstruction(b, customPoints);
    if IsBlank(customPoints) {
      PrefixOfItself(FULL_INSTRUCTION);
    } else {
      AffixesOfConcat(FULL_INSTRUCTION, CUSTOM_ATTENTION, Trim(customPoints));
    }
  }

  /** With Full Analysis selected the instruction is the comprehensive text,
      then the attention clause and the trimmed points when those are not
      blank. */
  lemma FullAnalysisInstruction(options: seq<string>, customPoints: string)
    requires FULL_ANALYSIS in options
    ensures IsBlank(customPoints) ==> Instruction(options, customPoints) == FULL_INSTRUCTION
    ensures !IsBlank(customPoints) ==>
              Instruction(options, customPoints) == FULL_INSTRUCTION + CUSTOM_ATTENTION + Trim(customPoints)
  {
    assert |options| > 0;
    assert OptionsInstruction(options) == FULL_INSTRUCTION;
  }

  /** Every text starts with itself. */
  lemma PrefixOfItself(x: string)
    ensures StartsWith(x, x)
  {
    assert x[..|x|] == x;
  }

  /** A single specific option gives the header and its directive. */
  lemma SingleOptionInstruction(option: string)
    requires option != FULL_ANALYSIS
    ensures Instruction([option], "") == SPECIFIC_HEADER + Directive(option)
  {
    assert IsBlank("");
  }

  /** Selecting one more specific option appends its directive, after the
      separator, to the end of the list: directives keep the caller's order. */
  lemma AppendOptionInstruction(options: seq<string>, option: string)
    requires |options| > 0 && FULL_ANALYSIS !in options && option != FULL_ANALYSIS
    ensures Instruction(options + [option], "") == Instruction(options, "") + DIRECTIVE_SEPARATOR + Directive(option)
  {
    var all := options + [option];
    assert FULL_ANALYSIS !in all;
    SpecificInstruction(options);
    SpecificInstruction(all);
    DirectivesAppend(options, option);
    var joined := Join(Directives(options), DIRECTIVE_SEPARATOR);
    JoinAppend(Directives(options), Directive(option), DIRECTIVE_SEPARATOR);
    AppendAfterHeader(SPECIFIC_HEADER, joined, DIRECTIVE_SEPARATOR, Directive(option));
  }

  /** Specific options without custom points: the header, then the options'
      directives joined. */
  lemma SpecificInstruction(options: seq<string>)
    requires |options| > 0 && FULL_ANALYSIS !in options
    ensures Instruction(options, "") == SPECIFIC_HEADER + Join(Directives(options), DIRECTIVE_SEPARATOR)
  {
    assert IsBlank("");
  }

  /** The directives of one more option are those before it and its own. */
  lemma DirectivesAppend(options: seq<string>, option: string)
    ensures Directives(options + [option]) == Directives(options) + [Directive(option)]
  {
  }

  lemma AppendAfterHeader(header: string, joined: string, sep: string, last: string)
    ensures header + (joined + sep + last) == header + joined + sep + last
  {
  }

  lemma {:induction false} JoinAppend(parts: seq<string>, last: string, sep: string)
    requires |parts| > 0
    ensures Join(parts + [last], sep) == Join(parts, sep) + sep + last
    decreases |parts|
  {
    if |parts| > 1 {
      assert (parts + [last])[1..] == parts[1..] + [last];
      JoinAppend(parts[1..], last, sep);
    }
  }

  /** With no option and no custom points the instruction is the generic one;
      with non-blank custom points it is those points, trimmed, after a
      header. */
  lemma NoOptionsInstruction(customPoints: string)
    ensures IsBlank(customPoints) ==> Instruction([], customPoints) == GENERIC_INSTRUCTION
    ensures !IsBlank(customPoints) ==> Instruction([], customPoints) == CUSTOM_ONLY_HEADER + Trim(customPoints)
  {
  }

  /** With options selected, non-blank custom points extend the instruction
      the options alone give. */
  lemma CustomPointsAppended(options: seq<string>, customPoints: string)
    requires |options| > 0 && !IsBlank(customPoints)
    ensures Instruction(options, customPoints) == Instruction(options, "") + CUSTOM_ATTENTION + Trim(customPoints)
  {
    assert IsBlank("");
  }

  /** White space around the custom points changes nothing. */
  lemma PaddedPointsIgnored(options: seq<string>, customPoints: string, lead: string, trail: string)
    requires IsBlank(lead) && IsBlank(trail)
    ensures Instruction(options, lead + customPoints + trail) == Instruction(options, customPoints)
  {
    TrimOfPaddedAny(lead, customPoints, trail);
    InstructionByTrim(options, lead + customPoints + trail, customPoints);
  }

  /** The custom points enter the instruction only through their trimmed
      text. */
  lemma InstructionByTrim(options: seq<string>, p: string, q: string)
    requires Trim(p) == Trim(q)
    ensures Instruction(options, p) == Instruction(options, q)
  {
  }

  // ---------------------------------------------------------------------
  // Tone and prompt
  // ---------------------------------------------------------------------

  /** `TONE_MAP[tone] || '标准'`. */
  function TonePhrase(tone: string): (phrase: string)
    ensures tone in ToneMap ==> phrase == ToneMap[tone]
    ensures tone !in ToneMap ==> phrase == ToneMap["Standard"]
  {
    if tone in ToneMap && ToneMap[tone] != [] then ToneMap[tone] else DEFAULT_TONE_PHRASE
  }

  /** The tone instruction: the tone's phrase inside a fixed sentence. */
  function ToneInstruction(tone: string): (r: string)
    ensures StartsWith(r, TONE_PREFIX) && EndsWith(r, TONE_SUFFIX)
    ensures |r| == |TONE_PREFIX| + |TonePhrase(tone)| + |TONE_SUFFIX|
    ensures r[|TONE_PREFIX|..|r| - |TONE_SUFFIX|] == TonePhrase(tone)
  {
    var r := TONE_PREFIX + TonePhrase(tone) + TONE_SUFFIX;
    AffixesOfConcat(TONE_PREFIX, TonePhrase(tone), TONE_SUFFIX);
    assert r[|TONE_PREFIX|..|r| - |TONE_SUFFIX|] == TonePhrase(tone);
    r
  }

  /** An unrecognised tone is written as the Standard one. */
  lemma UnknownToneIsStandard(tone: string)
    requires tone !in ToneMap
    ensures ToneInstruction(tone) == ToneInstruction("Standard")
  {
  }

  /** Two recognised tones never give the same instruction. */
  lemma ToneInstructionsDiffer(a: string, b: string)
    requires a in ToneMap && b in ToneMap && a != b
    ensures ToneInstruction(a) != ToneInstruction(b)
  {
    if ToneInstruction(a) == ToneInstruction(b) {
      SameMiddle(TONE_PREFIX, TonePhrase(a), TonePhrase(b), TONE_SUFFIX);
    }
  }

  /** Everything the prompt holds before the script: the preamble, the
      instruction, the tone heading and instruction, and the script heading. */
  function PromptHead(options: seq<string>, tone: string, customPoints: string): (head: string)
    ensures StartsWith(head, PREAMBLE) && EndsWith(head, SCRIPT_HEADING)
  {
    var instruction := Instruction(options, customPoints);
    var toneInstruction := ToneInstruction(tone);
    RegroupSections(PREAMBLE, instruction, TONE_HEADING, toneInstruction, SCRIPT_HEADING);
    AffixesOfConcat(PREAMBLE, instruction + TONE_HEADING + toneInstruction, SCRIPT_HEADING);
    PREAMBLE + instruction + TONE_HEADING + toneInstruction + SCRIPT_HEADING
  }

  /** The middle three sections of the head, taken as one. */
  lemma RegroupSections(p: string, i: string, th: string, t: string, sh: string)
    ensures p + (i + th + t) + sh == p + i + th + t + sh
  {
  }

  /** The prompt: preamble, instruction, tone instruction, separator, then
      the script itself as the last section. */
  function BuildPrompt(script: string, options: seq<string>, tone: string, customPoints: string): (prompt: string)
    ensures StartsWith(prompt, PREAMBLE)
    ensures EndsWith(prompt, SCRIPT_HEADING + script)
    ensures prompt == PREAMBLE + Instruction(options, customPoints) + TONE_HEADING + ToneInstruction(tone) +
                      SCRIPT_HEADING + script
  {
    var head := PromptHead(options, tone, customPoints);
    ExtendAffixes(head, script, PREAMBLE, SCRIPT_HEADING);
    head + script
  }

  /** `x + m + y` starts with `x` and ends with `y`. */
  lemma AffixesOfConcat(x: string, m: string, y: string)
    ensures StartsWith(x + m + y, x) && EndsWith(x + m + y, y)
  {
    var s := x + m + y;
    assert s[..|x|] == x;
    assert s[|s| - |y|..] == y;
  }

  /** Appending to a text keeps its prefix and extends its suffix. */
  lemma ExtendAffixes(head: string, tail: string, prefix: string, suffix: string)
    requires StartsWith(head, prefix) && EndsWith(head, suffix)
    ensures StartsWith(head + tail, prefix) && EndsWith(head + tail, suffix + tail)
  {
    var s := head + tail;
    assert s[..|prefix|] == head[..|prefix|];
    assert s[|s| - |suffix + tail|..] == head[|head| - |suffix|..] + tail;
  }

  /** Equal texts around two middles of equal length: the middles are equal. */
  lemma SameMiddle(x: string, m: string, n: string, y: string)
    requires x + m + y == x + n + y
    ensures m == n
  {
    var s := x + m + y;
    assert m == s[|x|..|x| + |m|];
    assert n == (x + n + y)[|x|..|x| + |n|];
  }

  /** Each section can be read back off the prompt at its own place: the
      instruction right after the preamble, then the tone heading, the tone
      instruction, the script heading and, last, the script. */
  lemma PromptSections(script: string, options: seq<string>, tone: string, customPoints: string)
    ensures var prompt := BuildPrompt(script, options, tone, customPoints);
            var a := |PREAMBLE|;
            var b := a + |Instruction(options, customPoints)|;
            var c := b + |TONE_HEADING|;
            var d := c + |ToneInstruction(tone)|;
            var e := d + |SCRIPT_HEADING|;
            |prompt| == e + |script| &&
            prompt[..a] == PREAMBLE &&
            prompt[a..b] == Instruction(options, customPoints) &&
            prompt[b..c] == TONE_HEADING &&
            prompt[c..d] == ToneInstruction(tone) &&
            prompt[d..e] == SCRIPT_HEADING &&
            prompt[e..] == script
  {
    SectionsReadBack(PREAMBLE, Instruction(options, customPoints), TONE_HEADING, ToneInstruction(tone),
                     SCRIPT_HEADING, script);
  }

  /** The six sections of a concatenation, each read back at its offset. */
  lemma SectionsReadBack(p: string, i: string, th: string, t: string, sh: string, sc: string)
    ensures var s := p + i + th + t + sh + sc;
            var a := |p|;
            var b := a + |i|;
            var c := b + |th|;
            var d := c + |t|;
            var e := d + |sh|;
            |s| == e + |sc| &&
            s[..a] == p && s[a..b] == i && s[b..c] == th && s[c..d] == t && s[d..e] == sh && s[e..] == sc
  {
    var s := p + i + th + t + sh + sc;
    var a := |p|;
    var b := a + |i|;
    var c := b + |th|;
    var d := c + |t|;
    var e := d + |sh|;
    assert s[..a] == p;
    assert s[a..b] == i;
    assert s[b..c] == th;
    assert s[c..d] == t;
    assert s[d..e] == sh;
    assert s[e..] == sc;
  }

  /** A worked request: Plot Analysis alone, the Critical tone and no custom
      points. The instruction section is the specific header and the plot
      directive, the tone section carries the Critical phrase, and the prompt
      ends with the script. */
  lemma PlotAnalysisCriticalPrompt(script: string, customPoints: string)
    requires IsBlank(customPoints)
    ensures BuildPrompt(script, ["Plot Analysis"], "Critical", customPoints) ==
            PREAMBLE + (SPECIFIC_HEADER + OptionPrompts["Plot Analysis"]) + TONE_HEADING +
            (TONE_PREFIX + "批判性" + TONE_SUFFIX) + SCRIPT_HEADING + script
  {
    PlotAnalysisInstruction(customPoints);
    CriticalToneInstruction();
  }

  lemma PlotAnalysisInstruction(customPoints: string)
    requires IsBlank(customPoints)
    ensures Instruction(["Plot Analysis"], customPoints) == SPECIFIC_HEADER + OptionPrompts["Plot Analysis"]
  {
    SingleOptionInstruction("Plot Analysis");
    assert IsBlank("");
    assert "Plot Analysis" in OptionPrompts;
  }

  lemma CriticalToneInstruction()
    ensures ToneInstruction("Critical") == TONE_PREFIX + "批判性" + TONE_SUFFIX
  {
    assert "Critical" in ToneMap;
  }

  /** The script can be read back off the end of the prompt: two different
      scripts never give the same prompt. */
  lemma PromptDeterminesScript(a: string, b: string, options: seq<string>, tone: string, customPoints: string)
    requires BuildPrompt(a, options, tone, customPoints) == BuildPrompt(b, options, tone, customPoints)
    ensures a == b
  {
    var head := PromptHead(options, tone, customPoints);
    assert (head + a)[|head|..] == a;
    assert (head + b)[|head|..] == b;
  }

  // ---------------------------------------------------------------------
  // The request and its errors
  // ---------------------------------------------------------------------

  /** The error `analyzeScript` rethrows for what it caught: the caught
      `Error`'s message after a fixed explanation, or a fixed message for
      anything else. */
  function ServiceError(caught: Thrown): (message: string)
    ensures caught.ErrorWith? ==> StartsWith(message, ERROR_PREFIX) && message[|ERROR_PREFIX|..] == caught.message
    ensures caught.NonError? ==> message == UNKNOWN_ERROR
  {
    match caught
    case ErrorWith(m) => ERROR_PREFIX + m
    case NonError => UNKNOWN_ERROR
  }

  /** The rethrown message tells the two kinds of failure apart, and for an
      `Error` it keeps the whole original message. */
  lemma ServiceErrorInjective(a: Thrown, b: Thrown)
    requires ServiceError(a) == ServiceError(b)
    ensures a == b
  {
    if a.ErrorWith? && b.ErrorWith? {
      assert a.message == ServiceError(a)[|ERROR_PREFIX|..];
    } else if a.ErrorWith? && b.NonError? {
      ErrorMessageIsNotUnknown(a.message);
    } else if a.NonError? && b.ErrorWith? {
      ErrorMessageIsNotUnknown(b.message);
    }
  }

  lemma ErrorMessageIsNotUnknown(m: string)
    ensures ERROR_PREFIX + m != UNKNOWN_ERROR
  {
    assert (ERROR_PREFIX + m)[3] == 'e';
    assert UNKNOWN_ERROR[3] == 'u';
  }

  /** `analyzeScript`: build the prompt, hand it to the service, and turn a
      failure into an `Error` with the mapped message. */
  function AnalyzeScript(script: string, options: seq<string>, tone: string, customPoints: string,
                         generate: string -> Reply): (r: Reply)
    ensures r.Threw? ==> r.thrown.ErrorWith?
    ensures generate(BuildPrompt(script, options, tone, customPoints)).Text? <==> r.Text?
    ensures r.Text? ==> r == generate(BuildPrompt(script, options, tone, customPoints))
    ensures r.Threw? ==> r.thrown.message == ServiceError(generate(BuildPrompt(script, options, tone, customPoints)).thrown)
  {
    match generate(BuildPrompt(script, options, tone, customPoints))
    case Text(t) => Text(t)
    case Threw(caught) => Threw(ErrorWith(ServiceError(caught)))
  }
}
