/**
  The state of the analyser's page and the three handlers that drive it
  (App.tsx): toggling an analysis option, asking for an analysis, and
  clearing the result. The selection is a JavaScript `Set`, which keeps its
  elements in insertion order; it is modelled as a sequence without
  duplicates, because `Array.from(selectedOptions)` hands that order to the
  prompt.
 */
module App {
  import opened Wrappers
  import opened Strings
  import PromptBuilder

  const FULL_ANALYSIS: string := PromptBuilder.FULL_ANALYSIS

  const NO_DIRECTIVE_MESSAGE: string := "Please select at least one analysis option or provide custom points."
  const EMPTY_SCRIPT_MESSAGE: string := "Script content cannot be empty."
  const UNEXPECTED_ERROR: string := "An unexpected error occurred."

  /** No element occurs twice: the sequence is the iteration order of a set. */
  predicate NoDuplicates(s: seq<string>)
  {
    forall i, j :: 0 <= i < j < |s| ==> s[i] != s[j]
  }

  /** `Set.prototype.delete`: the set without `x`, the others in their order. */
  function Delete(s: seq<string>, x: string): (r: seq<string>)
    ensures forall y :: y in r <==> y in s && y != x
    ensures NoDuplicates(s) ==> NoDuplicates(r)
    ensures x !in s ==> r == s
  {
    if s == [] then []
    else
      assert NoDuplicates(s) ==> NoDuplicates(s[1..]) && s[0] !in s[1..] by {
        if NoDuplicates(s) { HeadNotInTail(s); }
      }
      if s[0] == x then Delete(s[1..], x)
      else [s[0]] + Delete(s[1..], x)
  }

  /** The first element of a duplicate-free sequence is not among the rest. */
  lemma HeadNotInTail(s: seq<string>)
    requires s != [] && NoDuplicates(s)
    ensures NoDuplicates(s[1..]) && s[0] !in s[1..]
  {
    forall k | 0 <= k < |s| - 1
      ensures s[1..][k] != s[0]
    {
      assert s[1..][k] == s[k + 1];
    }
  }

  /** Deleting an element of a set removes exactly its position: the elements
      before it and after it stay, in their order. */
  lemma {:induction false} DeleteAt(s: seq<string>, x: string, k: nat)
    requires NoDuplicates(s) && k < |s| && s[k] == x
    ensures Delete(s, x) == s[..k] + s[k + 1..]
    decreases k
  {
    if k == 0 {
      HeadNotInTail(s);
      assert s[..0] + s[1..] == s[1..];
    } else {
      TailOfSet(s, k);
      DeleteAt(s[1..], x, k - 1);
      SlicesAfterHead(s, k);
    }
  }

  /** Position k of a duplicate-free sequence is position k - 1 of its tail,
      which is duplicate-free too, and differs from its head. */
  lemma TailOfSet(s: seq<string>, k: nat)
    requires NoDuplicates(s) && 0 < k < |s|
    ensures NoDuplicates(s[1..]) && s[1..][k - 1] == s[k] && s[0] != s[k]
  {
    HeadNotInTail(s);
  }

  /** Cutting position k out of `s` is keeping its head and cutting position
      k - 1 out of its tail. */
  lemma SlicesAfterHead(s: seq<string>, k: nat)
    requires 0 < k < |s|
    ensures s[..k] + s[k + 1..] == [s[0]] + (s[1..][..k - 1] + s[1..][k..])
  {
    assert s[1..][..k - 1] == s[1..k];
    assert s[1..][k..] == s[k + 1..];
    assert s[..k] == [s[0]] + s[1..k];
  }

  /** The selection `handleOptionChange(option)` leaves behind. */
  function Toggled(selected: seq<string>, option: string): seq<string>
  {
    if option == FULL_ANALYSIS then
      if FULL_ANALYSIS in selected then Delete(selected, FULL_ANALYSIS) else [FULL_ANALYSIS]
    else
      var without := Delete(selected, FULL_ANALYSIS);
      if option in without then Delete(without, option) else without + [option]
  }

  /** What each toggle does to the selection, as a set: Full Analysis, when
      absent, replaces everything; when present, it alone goes; any other
      option drops Full Analysis and flips its own membership. */
  lemma ToggleMembership(selected: seq<string>, option: string, y: string)
    ensures option == FULL_ANALYSIS && FULL_ANALYSIS !in selected ==>
              (y in Toggled(selected, option) <==> y == FULL_ANALYSIS)
    ensures option == FULL_ANALYSIS && FULL_ANALYSIS in selected ==>
              (y in Toggled(selected, option) <==> y in selected && y != FULL_ANALYSIS)
    ensures option != FULL_ANALYSIS && y != option ==>
              (y in Toggled(selected, option) <==> y in selected && y != FULL_ANALYSIS)
    ensures option != FULL_ANALYSIS ==>
              (option in Toggled(selected, option) <==> option !in selected)
  {
  }

  /** Removing Full Analysis keeps the remaining options in their order: only
      its own position goes. */
  lemma ToggleFullOffKeepsOrder(selected: seq<string>, k: nat)
    requires NoDuplicates(selected) && k < |selected| && selected[k] == FULL_ANALYSIS
    ensures Toggled(selected, FULL_ANALYSIS) == selected[..k] + selected[k + 1..]
  {
    DeleteAt(selected, FULL_ANALYSIS, k);
  }

  /** From a selection without Full Analysis, a specific option that is absent
      goes to the end and one that is present leaves its position; the other
      options keep their order. */
  lemma ToggleOptionOrder(selected: seq<string>, option: string)
    requires NoDuplicates(selected) && FULL_ANALYSIS !in selected && option != FULL_ANALYSIS
    ensures option !in selected ==> Toggled(selected, option) == selected + [option]
    ensures forall k :: 0 <= k < |selected| && selected[k] == option ==>
              Toggled(selected, option) == selected[..k] + selected[k + 1..]
  {
    forall k | 0 <= k < |selected| && selected[k] == option
      ensures Toggled(selected, option) == selected[..k] + selected[k + 1..]
    {
      DeleteAt(selected, option, k);
    }
  }

  /** After any toggle, a selected Full Analysis is the only selection, even
      when the selection before it broke that rule. */
  lemma FullAnalysisExclusive(selected: seq<string>, option: string)
    requires FULL_ANALYSIS in Toggled(selected, option)
    ensures Toggled(selected, option) == [FULL_ANALYSIS]
  {
  }

  /** A toggle keeps the selection free of duplicates. */
  lemma ToggleKeepsSet(selected: seq<string>, option: string)
    requires NoDuplicates(selected)
    ensures NoDuplicates(Toggled(selected, option))
  {
  }

  /** Deleting the element just appended gives back the original sequence. */
  lemma {:induction false} DeleteLast(s: seq<string>, x: string)
    requires x !in s
    ensures Delete(s + [x], x) == s
  {
    if s != [] {
      assert (s + [x])[1..] == s[1..] + [x];
      DeleteLast(s[1..], x);
    }
  }

  /** Toggling the same specific option twice, from a selection without Full
      Analysis, gives back the same set; the option was absent, the very same
      sequence, and if it was present it is now the last one. */
  lemma ToggleTwice(selected: seq<string>, option: string)
    requires NoDuplicates(selected) && FULL_ANALYSIS !in selected && option != FULL_ANALYSIS
    ensures forall y :: y in Toggled(Toggled(selected, option), option) <==> y in selected
    ensures option !in selected ==> Toggled(Toggled(selected, option), option) == selected
    ensures option in selected ==> Toggled(Toggled(selected, option), option) == Delete(selected, option) + [option]
  {
    var once := Toggled(selected, option);
    if option !in selected {
      assert once == selected + [option];
      DeleteLast(selected, option);
    } else {
      assert once == Delete(selected, option);
    }
  }

  /** The `analyzeScript` call of the page: (script, options, tone, custom
      points) to the text of the analysis or to what it throws. With the
      text-generation service `generate`, it is `AnalyzeScriptWith(generate)`. */
  type Service = (string, seq<string>, string, string) -> PromptBuilder.Reply

  /** The service the page imports, over a given text-generation call. */
  function AnalyzeScriptWith(generate: string -> PromptBuilder.Reply): (service: Service)
    ensures forall script, options, tone, customPoints ::
              service(script, options, tone, customPoints) ==
              PromptBuilder.AnalyzeScript(script, options, tone, customPoints, generate)
  {
    (script, options, tone, customPoints) => PromptBuilder.AnalyzeScript(script, options, tone, customPoints, generate)
  }

  /** App's `catch`: the message of an `Error`, a fixed text for anything
      else. */
  function CaughtMessage(thrown: PromptBuilder.Thrown): (message: string)
    ensures thrown.ErrorWith? ==> message == thrown.message
    ensures thrown.NonError? ==> message == UNEXPECTED_ERROR
  {
    match thrown
    case ErrorWith(m) => m
    case NonError => UNEXPECTED_ERROR
  }

  /** What a failed request shows: `analyzeScript` always rethrows an `Error`,
      so the page shows the service's mapped message and never the fallback. */
  lemma FailureShowsServiceError(script: string, options: seq<string>, tone: string, customPoints: string,
                                 generate: string -> PromptBuilder.Reply)
    requires generate(PromptBuilder.BuildPrompt(script, options, tone, customPoints)).Threw?
    ensures var reply := AnalyzeScriptWith(generate)(script, options, tone, customPoints);
            var caught := generate(PromptBuilder.BuildPrompt(script, options, tone, customPoints)).thrown;
            reply.Threw? && CaughtMessage(reply.thrown) == PromptBuilder.ServiceError(caught) &&
            CaughtMessage(reply.thrown) != UNEXPECTED_ERROR
  {
    var caught := generate(PromptBuilder.BuildPrompt(script, options, tone, customPoints)).thrown;
    ServiceErrorIsNotUnexpected(caught);
  }

  lemma ServiceErrorIsNotUnexpected(caught: PromptBuilder.Thrown)
    ensures PromptBuilder.ServiceError(caught) != UNEXPECTED_ERROR
  {
    var m := PromptBuilder.ServiceError(caught);
    assert UNEXPECTED_ERROR[3] == 'u' && UNEXPECTED_ERROR[5] == 'e';
    match caught
    case ErrorWith(_) =>
      assert m[3] == PromptBuilder.ERROR_PREFIX[3] == 'e';
    case NonError =>
      assert m[5] == "An unknown "[5] == 'k';
  }

  class ScriptAnalyzer {
    var analysis: string
    var error: Option<string>
    var selectedOptions: seq<string>
    var scriptContent: string
    var selectedTone: string
    var customAnalysisPoints: string
    var fileName: string
    var isLoading: bool

    /** The selection is a set. */
    ghost predicate Valid()
      reads this
    {
      NoDuplicates(selectedOptions)
    }

    /** Neither an option nor a non-blank custom point asks for anything. */
    predicate NothingRequested()
      reads this`selectedOptions, this`customAnalysisPoints
    {
      |selectedOptions| == 0 && IsBlank(customAnalysisPoints)
    }

    /** The two tests of `handleAnalyzeClick`, written with `trim()` as the
        page writes them. */
    method CheckRequest() returns (nothingRequested: bool, blankScript: bool)
      ensures nothingRequested == NothingRequested()
      ensures blankScript == IsBlank(scriptContent)
    {
      nothingRequested := |selectedOptions| == 0 && Trim(customAnalysisPoints) == [];
      blankScript := Trim(scriptContent) == [];
    }

    /** The page's initial state; the sample script it starts with comes from
        a file outside this model and is a parameter here. */
    constructor (sampleScript: string)
      ensures Valid()
      ensures analysis == [] && !isLoading && error == None
      ensures selectedOptions == [FULL_ANALYSIS] && scriptContent == sampleScript
      ensures selectedTone == "Standard" && customAnalysisPoints == [] && fileName == []
    {
      analysis := [];
      isLoading := false;
      error := None;
      selectedOptions := [FULL_ANALYSIS];
      scriptContent := sampleScript;
      selectedTone := "Standard";
      customAnalysisPoints := [];
      fileName := [];
    }

    /** `handleOptionChange`: copy the set, then delete or add. */
    method ToggleOption(option: string)
      requires Valid()
      modifies this`selectedOptions
      ensures Valid()
      ensures selectedOptions == Toggled(old(selectedOptions), option)
      ensures FULL_ANALYSIS in selectedOptions ==> selectedOptions == [FULL_ANALYSIS]
    {
      var newSelection := selectedOptions;
      if option == FULL_ANALYSIS {
        if FULL_ANALYSIS in newSelection {
          newSelection := Delete(newSelection, FULL_ANALYSIS);
        } else {
          selectedOptions := [FULL_ANALYSIS];
          return;
        }
      } else {
        newSelection := Delete(newSelection, FULL_ANALYSIS);
        if option in newSelection {
          newSelection := Delete(newSelection, option);
        } else {
          newSelection := newSelection + [option];
        }
      }
      selectedOptions := newSelection;
      ToggleKeepsSet(old(selectedOptions), option);
      if FULL_ANALYSIS in selectedOptions {
        FullAnalysisExclusive(old(selectedOptions), option);
      }
    }

    /** `handleScriptChange`. */
    method SetScript(text: string)
      modifies this`scriptContent
      ensures scriptContent == text
    {
      scriptContent := text;
    }

    /** `handleToneChange`. */
    method SetTone(tone: string)
      modifies this`selectedTone
      ensures selectedTone == tone
    {
      selectedTone := tone;
    }

    /** `handleCustomAnalysisChange`. */
    method SetCustomPoints(text: string)
      modifies this`customAnalysisPoints
      ensures customAnalysisPoints == text
    {
      customAnalysisPoints := text;
    }

    /** `handleAnalyzeClick`, run to completion as one step; `analyzeScript`
        is the service call the page imports, given the script, the selection
        in its order, the tone and the custom points (see `Service`). A request
        that asks for nothing, or has a blank script, only sets the error.
        Otherwise the error and the result are cleared, the request is made,
        and the page ends with the result or with the error, no longer
        loading. */
    method Analyze(analyzeScript: Service)
      modifies this`analysis, this`error, this`isLoading
      ensures NothingRequested() ==>
                error == Some(NO_DIRECTIVE_MESSAGE) && analysis == old(analysis) && isLoading == old(isLoading)
      ensures !NothingRequested() && IsBlank(scriptContent) ==>
                error == Some(EMPTY_SCRIPT_MESSAGE) && analysis == old(analysis) && isLoading == old(isLoading)
      ensures !NothingRequested() && !IsBlank(scriptContent) ==>
                var reply := analyzeScript(scriptContent, selectedOptions, selectedTone, customAnalysisPoints);
                !isLoading &&
                (reply.Text? ==> analysis == reply.text && error == None) &&
                (reply.Threw? ==> analysis == [] && error == Some(CaughtMessage(reply.thrown)))
    {
      var nothingRequested, blankScript := CheckRequest();
      if nothingRequested {
        error := Some(NO_DIRECTIVE_MESSAGE);
        return;
      }
      if blankScript {
        error := Some(EMPTY_SCRIPT_MESSAGE);
        return;
      }
      isLoading := true;
      error := None;
      analysis := [];
      var reply := analyzeScript(scriptContent, selectedOptions, selectedTone, customAnalysisPoints);
      match reply {
        case Text(result) =>
          analysis := result;
        case Threw(thrown) =>
          error := Some(CaughtMessage(thrown));
      }
      isLoading := false;
    }

    /** `handleClearAnalysis`: drop the result, the error, the custom points
        and the file name; the selection, tone and script stay. */
    method Clear()
      modifies this`analysis, this`error, this`customAnalysisPoints, this`fileName
      ensures analysis == [] && error == None && customAnalysisPoints == [] && fileName == []
    {
      analysis := [];
      error := None;
      customAnalysisPoints := [];
      fileName := [];
    }
  }
}
