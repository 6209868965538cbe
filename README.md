# Script analyser: a verified model of its core

The analyser is a browser front-end that sends a television script to a
text-generation service and renders the analysis that comes back. Its own
logic is made of three pieces, and this project models each one in Dafny and
proves what each one promises:

- **The markdown renderer** (`markdown.dfy`, module `Markdown`). The analysis
  is cut into lines at every `'\n'`. Each line is classified on its own, and
  the first test that holds wins: a heading of level 3, 2 or 1, then a list
  item, then a spacer, then a paragraph. A paragraph's text is split into
  plain and bold spans by the non-greedy pattern `/(\*\*.*?\*\*)/g`. Here that
  pattern is an explicit left-to-right scanner (`CloseFrom`, `MatchAt`,
  `SplitFrom`). A declarative reading of the split (`Tokenizes`) serves as its
  reference: leftmost matches, each the shortest. The scanner is proved to
  compute it, and it is proved to be unique. As with `split`, a run at the
  line's start or end leaves an empty `Plain("")` span beside it: `**x**`
  renders as an empty plain span, the bold `x` and an empty plain span.
- **The prompt builder and its error mapping** (`prompt.dfy`, module
  `PromptBuilder`). These map the selected options, the tone, the custom
  points and the script to the prompt, using the two lookup tables. A failed
  request becomes an `Error`. Its message is a fixed explanation followed by
  the caught error's message, or a fixed unknown-error text when what was
  caught is not an `Error`. The text-generation call
  itself is a function parameter `generate`.
- **The page's state machine** (`app.dfy`, module `App`). It is a class
  `ScriptAnalyzer` with the page's eight state fields. Its methods toggle an
  option (Full Analysis is exclusive), ask for an analysis (validation, then
  the loading, success and failure transitions) and clear the result.

Two shared modules support these:

- `strings.dfy` (module `Strings`) holds the JavaScript string primitives the
  code relies on: `trim` with ECMAScript's white-space set, `startsWith`,
  `endsWith`, `join`.
- `wrappers.dfy` holds `Option`.

A JavaScript `Set` iterates in insertion order, and `Array.from` hands that
order to the prompt. The selection is therefore a sequence without
duplicates.

## Model

| member | source | states |
|---|---|---|
| Markdown.Lines | components/MarkdownRenderer.tsx:10 | `content.split('\n')` yields at least one line, and no line holds a `'\n'` |
| Markdown.LinesJoin | components/MarkdownRenderer.tsx:10 | joining the lines with `'\n'` gives back the text exactly |
| Markdown.LinesUnique | components/MarkdownRenderer.tsx:10 | the lines are the only sequence with those two properties |
| Markdown.LinesCount | components/MarkdownRenderer.tsx:10 | a text with n line breaks has n + 1 lines |
| Markdown.LinesAppend | components/MarkdownRenderer.tsx:10 | the lines of `a + "\n" + b` are the lines of `a` followed by those of `b` |
| Markdown.RenderBlockPerLine | components/MarkdownRenderer.tsx:10-42 | rendering is total; there is one block per line, and the i-th block is the classification of the i-th line alone |
| Markdown.RenderAppend | components/MarkdownRenderer.tsx:10-42 | a block depends only on its own line: rendering `a + "\n" + b` is rendering `a`, then `b` |
| Markdown.RenderOneLine | components/MarkdownRenderer.tsx:10-42 | a text without a line break renders as the single block of that line |
| Markdown.RenderEmpty | components/MarkdownRenderer.tsx:10-42 | the empty text renders as one spacer |
| Markdown.Classify | components/MarkdownRenderer.tsx:12-41 | a heading exactly when the line starts with `### `, `## ` or `# `, and the text is the line minus that marker. A list item exactly when the line starts with `* ` or `- `, with the text minus two characters. A spacer exactly when the line is blank. Otherwise a paragraph of the line's spans |
| Markdown.HeadingLevels | components/MarkdownRenderer.tsx:12-20 | `### `, `## ` and `# ` give levels 3, 2 and 1 and drop 4, 3 and 2 characters |
| Markdown.FourHashesIsParagraph | components/MarkdownRenderer.tsx:12-20 | `####…` is not a heading; it falls through to a paragraph |
| Markdown.HashWithoutSpaceIsParagraph | components/MarkdownRenderer.tsx:12-20 | `#` followed by neither a space nor `#` is a paragraph |
| Markdown.BareDashIsEmptyListItem | components/MarkdownRenderer.tsx:23-24 | a bare `"- "` is an empty list item |
| Markdown.ListLineIsNotBlank | components/MarkdownRenderer.tsx:23-29 | a line starting with `* ` or `- ` is never blank, so the list test and the blank test never both hold |
| Markdown.CloseFrom | components/MarkdownRenderer.tsx:33 | the closing `**` found is the end of the shortest match; if none is found, no match starts there |
| Markdown.MatchAt | components/MarkdownRenderer.tsx:33 | the pattern anchored at a position gives the shortest match there, or proves there is none |
| Markdown.BoldSplitTokenizes | components/MarkdownRenderer.tsx:33 | the scanner's split has the texts between matches alternating with leftmost-shortest matches |
| Markdown.TokenizesUnique | components/MarkdownRenderer.tsx:33 | that split is unique: any two leftmost-shortest splits of a line are equal |
| Markdown.BoldSplitConcat | components/MarkdownRenderer.tsx:33 | the parts concatenate back to the line: nothing is lost, duplicated or reordered |
| Markdown.BoldSplitParts | components/MarkdownRenderer.tsx:33 | every odd part is a `**…**` run with no `**` and no line terminator inside; every even part holds no complete run |
| Markdown.UnclosedStaysWhole | components/MarkdownRenderer.tsx:33 | a line with no complete run is a single part |
| Markdown.ClassifyPart | components/MarkdownRenderer.tsx:35-38 | a part is bold exactly when it starts and ends with `**`. Its text is then the part minus two characters at each end (empty for `**` and `***`); otherwise the part is plain text, unchanged |
| Markdown.BoldRunsBecomeBold | components/MarkdownRenderer.tsx:33-36 | every matched run renders bold with its inner text, and that text never holds `**` |
| Markdown.LoneStarsRenderEmptyBold | components/MarkdownRenderer.tsx:33-36 | the line `**` (or `***`) renders as one empty bold span |
| Markdown.RunAtEdgesKeepsEmptyPlains | components/MarkdownRenderer.tsx:33-38 | the line `**x**` renders as `Plain("")`, `Bold("x")`, `Plain("")`: a run at the line's edges keeps the empty texts `split` leaves around it |
| Markdown.RunInsideLine | components/MarkdownRenderer.tsx:33-38 | the line `a **b** c` renders as `Plain("a ")`, `Bold("b")`, `Plain(" c")` |
| Markdown.UnterminatedRunIsPlain | components/MarkdownRenderer.tsx:33-38 | `"a **b c"` stays one plain span |
| Strings.Trim | services/geminiService.ts:45 | `trim()` gives a result that neither starts nor ends with ECMAScript white space and is empty exactly when the text is blank |
| Strings.TrimSplit | services/geminiService.ts:45 | the text is the trimmed text between a blank prefix and a blank suffix: only white space is removed, and only at the ends |
| Strings.TrimOfPadded | services/geminiService.ts:45 | trimming blank padding around a core that neither starts nor ends with white space gives that core: the two contracts above determine the result |
| Strings.TrimIdempotent | services/geminiService.ts:45 | trimming twice is trimming once |
| Strings.TrimOfPaddedAny | services/geminiService.ts:45 | extra white space at either end does not change the trimmed text |
| PromptBuilder.Directive | services/geminiService.ts:21-26 | the table lookup with fallback: a known option gives its table entry, and an unknown one is echoed verbatim |
| PromptBuilder.Directives | services/geminiService.ts:39 | one directive per option, in the caller's order |
| PromptBuilder.Instruction | services/geminiService.ts:29-51 | blank custom points leave the options' instruction unchanged; non-blank ones end it, trimmed |
| PromptBuilder.FullAnalysisDominates | services/geminiService.ts:31-37 | with Full Analysis selected, the other options make no difference. The instruction is the fixed comprehensive text when the points are blank, and starts with it otherwise |
| PromptBuilder.SingleOptionInstruction | services/geminiService.ts:38-40 | one specific option gives the fixed header followed by its directive |
| PromptBuilder.AppendOptionInstruction | services/geminiService.ts:38-40 | one more option appends `"\n- "` and its directive at the end: the caller's order is kept |
| PromptBuilder.NoOptionsInstruction | services/geminiService.ts:41-47 | with no option: the generic sentence, or the custom-only header plus the trimmed points |
| PromptBuilder.CustomPointsAppended | services/geminiService.ts:45-50 | with options, non-blank points are appended, trimmed, after the attention clause |
| PromptBuilder.PaddedPointsIgnored | services/geminiService.ts:45-50 | white space around the custom points changes nothing |
| PromptBuilder.TonePhrase | services/geminiService.ts:53 | the table lookup with fallback: a known tone gives its phrase, and an unknown one gives the Standard phrase |
| PromptBuilder.UnknownToneIsStandard | services/geminiService.ts:53-54 | an unrecognised tone gives the same instruction as Standard |
| PromptBuilder.ToneInstructionsDiffer | services/geminiService.ts:13-19 | the five known tones give five different instructions |
| PromptBuilder.ToneInstruction | services/geminiService.ts:54 | the fixed sentence's opening, then exactly the tone's phrase, then its ending |
| PromptBuilder.BuildPrompt | services/geminiService.ts:56 | the prompt is the preamble, the instruction, the tone heading, the tone instruction, the `---` script heading and the script verbatim, in that order |
| PromptBuilder.PromptSections | services/geminiService.ts:56 | each section is read back at its own offset, and the script is everything after the script heading |
| PromptBuilder.PlotAnalysisCriticalPrompt | services/geminiService.ts:28-56 | Plot Analysis alone, the Critical tone and blank points give the specific header with the plot directive, the Critical phrase in the tone sentence, and then the script |
| PromptBuilder.PromptDeterminesScript | services/geminiService.ts:56 | two different scripts never give the same prompt |
| PromptBuilder.ServiceError | services/geminiService.ts:70-73 | an `Error` with message m becomes the fixed explanation followed by m; anything else becomes the unknown-error message |
| PromptBuilder.ServiceErrorInjective | services/geminiService.ts:70-73 | the mapped message determines what was caught |
| PromptBuilder.AnalyzeScript | services/geminiService.ts:58-74 | it succeeds exactly when the service does, with the service's text; a failure always rethrows an `Error` carrying the mapped message |
| App.Delete | App.tsx:57 | `Set.prototype.delete`: exactly the other elements remain, the sequence stays a set, and deleting an absent element changes nothing |
| App.DeleteAt | App.tsx:57 | deleting the element at position k of a set leaves the elements before k and after k, in their order |
| App.ToggleMembership | App.tsx:51-72 | Full Analysis, when absent, replaces everything; when present, it alone goes. Any other option removes Full Analysis and flips its own membership, and nothing else changes |
| App.ToggleFullOffKeepsOrder | App.tsx:56-57 | toggling off Full Analysis at position k leaves the options before and after k, in their order |
| App.ToggleOptionOrder | App.tsx:61-68 | from a selection without Full Analysis, an absent option is appended at the end, and a present one leaves only its own position |
| App.FullAnalysisExclusive | App.tsx:51-72 | after any toggle, a selected Full Analysis is the only selection, even from a selection that broke the rule |
| App.ToggleKeepsSet | App.tsx:51-72 | a toggle keeps the selection free of duplicates |
| App.ToggleTwice | App.tsx:62-68 | toggling the same specific option twice, from a selection without Full Analysis, restores the set |
| App.CaughtMessage | App.tsx:132 | an `Error`'s message, else the fixed unexpected-error text |
| App.AnalyzeScriptWith | services/geminiService.ts:28-75 | the service the page calls is `analyzeScript` over a given text-generation call |
| App.FailureShowsServiceError | App.tsx:131-133 | a failed request shows the service's mapped message, never the unexpected-error fallback |
| App.ScriptAnalyzer.constructor | App.tsx:26-33 | the initial state: Full Analysis selected, Standard tone, the sample script, nothing else |
| App.ScriptAnalyzer.ToggleOption | App.tsx:51-72 | the selection becomes the toggled set, stays duplicate-free, and a selected Full Analysis is alone |
| App.ScriptAnalyzer.SetScript | App.tsx:74-76 | the script becomes the edited text |
| App.ScriptAnalyzer.SetCustomPoints | App.tsx:97-99 | the custom points become the edited text |
| App.ScriptAnalyzer.SetTone | App.tsx:101-103 | the tone becomes the chosen one |
| App.ScriptAnalyzer.Analyze | App.tsx:105-137 | an empty selection with blank points sets only the options error, and this is checked before the script. A blank script sets only the script error. Otherwise the page stops loading with the result and no error, or with an empty result and the caught message |
| App.ScriptAnalyzer.Clear | App.tsx:157-161 | the result, error, custom points and file name are reset; the selection, tone and script stay |

## Left out

- JSX, class names and the React hooks wiring. The state is plain fields of a class.
- The `GoogleGenAI` client, the API key and `generateContent` (the network call). The call is the function parameter `generate`. Its reply is either a text or a thrown value.
- App.ScriptAnalyzer.Analyze: takes the `analyzeScript` it calls as a parameter of type `Service`. `App.AnalyzeScriptWith` is the page's actual service over a given `generate`, and `App.FailureShowsServiceError` states what a failure then shows.
- Async execution and the disabled-button guard. An analysis request is one atomic step, so the intermediate `isLoading == true` state is not observable in the model.
- `localStorage` load, save and remove, with `JSON.parse`/`stringify` (App.tsx:35-49, 120-130, 162-166). Their failures are swallowed in the source. `App.FullAnalysisExclusive` holds for any starting selection, which covers one restored from storage.
- The `FileReader` upload (App.tsx:78-95) and the text/PDF export (App.tsx:139-155), which are browser I/O.
- `console.error` / `console.warn` logging.
- The sample script `SCRIPT_TEXT` comes from a file that is not part of this model. It is the constructor's parameter.
- Keys inherited from `Object.prototype` (e.g. `OPTION_PROMPTS['constructor']`). The tables are maps holding only their own entries.
- `response.text` being `undefined` is not modelled. A successful reply carries a string.
- Strings are sequences of Unicode scalar values, not UTF-16 code units. All delimiters are ASCII, so the positions the model computes agree with the source's for text in the Basic Multilingual Plane.
- App.ToggleTwice: restores the set, and restores the order only when the option was absent. When it was present, it comes back at the end, because a JavaScript `Set` re-adds in insertion order.
